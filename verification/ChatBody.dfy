/** What a caller reads of the printed bodies: every field, the flags, and the errors. */
module ChatBodies {
  import opened Wrappers
  import opened Json
  import opened JsonFields
  import opened Decimals
  import opened AiClients

  const OPENED: string := "{\"ok\":true,"
  const FAILED: string := "{\"ok\":false,"

  function ChatFields(message: string, reply: string, provider: string, model: string): seq<Field> {
    [Field("message", message), Field("reply", reply), Field("provider", provider), Field("model", model)]
  }

  lemma Starts()
    ensures FRONT == OPENED + Start("message") && Start("reply") == "\"reply\":\""
    ensures ",\"provider\":\"" == "," + Start("provider") && Start("model") == "\"model\":\""
  {
  }

  // A body is the four fields in order behind the opening, and what stands at its end.
  lemma BodyIsPrinted(message: string, reply: string, provider: string, model: string, end: string)
    ensures BodyText(message, Escape(reply), provider, model, end) == OPENED + Printed(ChatFields(message, reply, provider, model), end)
  {
    hide Escape, Start, FRONT, OPENED, Printed;
    Starts();
    FourPieces(OPENED, Start("message"), Escape(message), Start("reply"), Escape(reply), Start("provider"), Escape(provider),
               Start("model"), Escape(model), end);
    FourPrinted(Field("message", message), Field("reply", reply), Field("provider", provider), Field("model", model), end);
  }

  lemma FourPieces(o: string, q1: string, e1: string, q2: string, e2: string, q3: string, e3: string, q4: string, e4: string, t: string)
    ensures (o + q1) + e1 + "\"," + q2 + e2 + "\"" + (("," + q3) + e3 + "\"," + q4 + e4 + "\"" + t)
            == o + (q1 + e1 + "\"," + (q2 + e2 + "\"," + (q3 + e3 + "\"," + (q4 + e4 + "\"" + t))))
  {
    var last := q4 + e4 + "\"" + t;
    var third := q3 + e3 + "\"," + last;
    assert ("," + q3) + e3 + "\"," + q4 + e4 + "\"" + t == "," + third;
    var second := q2 + e2 + "\"," + third;
    assert q2 + e2 + "\"" + ("," + third) == second;
    var x := (o + q1) + e1 + "\",";
    assert x + q2 + e2 + "\"" + ("," + third) == x + (q2 + e2 + "\"" + ("," + third));
    assert x + second == o + (q1 + e1 + "\"," + second);
  }

  // ----- reading the bodies back -----

  lemma NoNameBefore(front: string, name: string, j: nat)
    requires front == OPENED || front == FAILED
    requires KeyName(name) && name != "ok"
    ensures !OccursAt(front, Quoted(name), j)
  {
    hide OccursAt, Quoted, KeyName;
    assert front[1] == '\"' && front[2..4] == "ok" && front[4] == '\"' && front[5] == ':' && front[0] == '{';
    assert forall i :: 0 <= i < |front| && front[i] == '\"' ==> i == 1 || i == 4;
    if OccursAt(front, Quoted(name), j) { MatchLooks(front, name, j); }
  }

  // A printed object behind one of the two openings.
  lemma Reads(front: string, fs: seq<Field>, tail: string, name: string)
    requires front == OPENED || front == FAILED
    requires fs != [] && KeyName(name) && name != "ok" && (forall f :: f in fs ==> KeyName(f.name)) && tail != "" && tail[0] in ",}"
    requires Found(fs, name).Some?
    ensures ClientField(front + Printed(fs, tail), name) == Found(fs, name)
  {
    hide OccursAt, Quoted, KeyName, Found, Printed, ClientField;
    forall j: nat ensures !OccursAt(front, Quoted(name), j) { NoNameBefore(front, name, j); }
    OpenedReads(front, fs, tail, name);
  }

  lemma ChatFieldsFound(message: string, reply: string, provider: string, model: string)
    ensures var fs := ChatFields(message, reply, provider, model);
            && (forall f :: f in fs ==> KeyName(f.name))
            && Found(fs, "message") == Some(message) && Found(fs, "reply") == Some(reply)
            && Found(fs, "provider") == Some(if NameAtEnd(message, "provider") then reply else provider)
            && Found(fs, "model") == Some(if NameAtEnd(message, "model") then reply
                                          else if NameAtEnd(reply, "model") then provider
                                          else model)
  {
    hide NameAtEnd, Found;
    var fs := ChatFields(message, reply, provider, model);
    var (three, two, one) := ([fs[1], fs[2], fs[3]], [fs[2], fs[3]], [fs[3]]);
    assert fs[1..] == three && three[1..] == two && two[1..] == one;
    FoundSteps(fs, "message");
    FoundSteps(fs, "reply");
    FoundSteps(three, "reply");
    FoundSteps(fs, "provider");
    FoundSteps(three, "provider");
    FoundSteps(two, "provider");
    FoundSteps(fs, "model");
    FoundSteps(three, "model");
    FoundSteps(two, "model");
    FoundSteps(one, "model");
  }

  ghost predicate FoundStep(fs: seq<Field>, name: string)
    requires fs != []
  {
    Found(fs, name) == if fs[0].name == name then Some(fs[0].value)
                       else if NameAtEnd(fs[0].value, name) then (if |fs| > 1 then Some(fs[1].value) else None)
                       else Found(fs[1..], name)
  }

  lemma FoundSteps(fs: seq<Field>, name: string)
    requires fs != []
    ensures FoundStep(fs, name)
  {
  }

  ghost predicate ReadsBack(body: string, message: string, reply: string, provider: string, model: string) {
    && ClientField(body, "message") == Some(message) && ClientField(body, "reply") == Some(reply)
    && ClientField(body, "provider") == Some(if NameAtEnd(message, "provider") then reply else provider)
    && ClientField(body, "model") == Some(if NameAtEnd(message, "model") then reply
                                          else if NameAtEnd(reply, "model") then provider
                                          else model)
  }

  lemma ChatReads(message: string, reply: string, provider: string, model: string, tail: string)
    requires tail != "" && tail[0] == ','
    ensures ReadsBack(OPENED + Printed(ChatFields(message, reply, provider, model), tail), message, reply, provider, model)
  {
    hide Found, Printed, ClientField, ChatFields, NameAtEnd, OPENED;
    var fs := ChatFields(message, reply, provider, model);
    ChatFieldsFound(message, reply, provider, model);
    assert fs != [] by { FieldsThere(message, reply, provider, model); }
    Reads(OPENED, fs, tail, "message");
    Reads(OPENED, fs, tail, "reply");
    Reads(OPENED, fs, tail, "provider");
    Reads(OPENED, fs, tail, "model");
  }

  lemma FieldsThere(message: string, reply: string, provider: string, model: string)
    ensures ChatFields(message, reply, provider, model) != []
  {
  }

  // ----- the flags -----

  // What the text says of a flag: the first occurrence of its quoted name with a colon, and what is next.
  predicate FlagIs(body: string, name: string, b: bool) {
    var rest := After(body, Quoted(name) + ":");
    rest.Some? && (if b then "true" else "false") <= rest.value
  }

  // The flag's name and colon cannot occur in printed fields of other names, whatever their values.
  lemma {:induction false} FieldsHoldNoFlag(fs: seq<Field>, tail: string, name: string)
    requires fs != [] && KeyName(name) && tail != "" && tail[0] in ",}"
    requires forall f :: f in fs ==> KeyName(f.name) && f.name != name
    ensures After(Printed(fs, tail), Quoted(name) + ":") == After(tail, Quoted(name) + ":")
  {
    hide After, Escape, Quoted, KeyName, NameAtEnd, OccursAt;
    var f := fs[0];
    var k := Quoted(name) + ":";
    var rest := if |fs| == 1 then tail else "," + Printed(fs[1..], tail);
    var value := "\"" + Escape(f.value) + "\"" + rest;
    assert Printed(fs, tail) == Quoted(f.name) + ":" + value;
    var x := Quoted(f.name) + ":";
    forall j: nat | j < |x| ensures !OccursAt(x + value, k, j) {
      if OccursAt(x + value, k, j) {
        NameOccurs(x + value, name, j);
        NameQuoted(f.name);
        NotInName(name, f.name, value, j);
      }
    }
    assert k != "";
    AfterSkip(x, value, k);
    FlagNotInValue(f.value, rest, name);
    if |fs| > 1 {
      CommaBefore(Printed(fs[1..], tail), name);
      FieldsHoldNoFlag(fs[1..], tail, name);
    }
  }

  lemma NameOccurs(s: string, name: string, j: nat)
    requires OccursAt(s, Quoted(name) + ":", j)
    ensures OccursAt(s, Quoted(name), j) && j + |name| + 2 < |s| && s[j + |name| + 2] == ':'
  {
    var k := Quoted(name);
    var m := s[j..j + |k| + 1];
    assert m[..|k|] == k && m[|k|] == ':' && m[..|k|] == s[j..j + |k|];
  }

  lemma FlagNotInValue(v: string, t: string, name: string)
    requires KeyName(name) && t != "" && t[0] in ",}"
    ensures After("\"" + Escape(v) + "\"" + t, Quoted(name) + ":") == After(t, Quoted(name) + ":")
  {
    hide After, Escape, KeyName, OccursAt, Quoted;
    var x := "\"" + Escape(v) + "\"";
    var k := Quoted(name) + ":";
    assert (x + t)[|x|] == t[0] && |x| == |Escape(v)| + 2;
    forall j: nat | j < |x| ensures !OccursAt(x + t, k, j) {
      if OccursAt(x + t, k, j) {
        NameOccurs(x + t, name, j);
        MatchInValue(v, t, name, j);
      }
    }
    AfterSkip(x, t, k);
  }

  lemma CommaBefore(t: string, name: string)
    ensures After("," + t, Quoted(name) + ":") == After(t, Quoted(name) + ":")
  {
    NoQuoteBefore(",", t, Quoted(name) + ":");
  }

  lemma NoQuoteBefore(x: string, t: string, k: string)
    requires '\"' !in x && k != "" && k[0] == '\"'
    ensures After(x + t, k) == After(t, k)
  {
    forall j: nat | j < |x| ensures !OccursAt(x + t, k, j) {
      assert (x + t)[j] == x[j] && x[j] in x;
      assert j + |k| <= |x + t| ==> (x + t)[j..j + |k|][0] == x[j];
    }
    AfterSkip(x, t, k);
  }

  lemma FlagAtStart(name: string, t: string)
    ensures After(Quoted(name) + ":" + t, Quoted(name) + ":") == Some(t)
  {
    var k := Quoted(name) + ":";
    assert (k + t)[..|k|] == k && (k + t)[|k|..] == t;
  }

  lemma FlagTexts(hit: bool, used: bool, rest: string)
    ensures FlagIs(Flags(hit, used) + rest, "cache_hit", hit) && FlagIs(Flags(hit, used) + rest, "tool_used", used)
  {
    hide After;
    var (c, u) := (Quoted("cache_hit") + ":", Quoted("tool_used") + ":");
    var t := Bool(used) + rest;
    var w := Bool(hit) + "," + (u + t);
    assert Flags(hit, used) + rest == "," + (c + w) by { FlagPieces(hit, used, rest); }
    CommaBefore(c + w, "cache_hit");
    FlagAtStart("cache_hit", w);
    CommaBefore(c + w, "tool_used");
    forall j: nat | j < |c| ensures !OccursAt(c + w, u, j) {
      if OccursAt(c + w, u, j) {
        NameOccurs(c + w, "tool_used", j);
        NotInName("tool_used", "cache_hit", w, j);
      }
    }
    AfterSkip(c, w, u);
    NoQuoteBefore(Bool(hit) + ",", u + t, u);
    FlagAtStart("tool_used", t);
  }

  lemma FlagPieces(hit: bool, used: bool, rest: string)
    ensures Flags(hit, used) + rest
            == "," + (Quoted("cache_hit") + ":" + (Bool(hit) + "," + (Quoted("tool_used") + ":" + (Bool(used) + rest))))
  {
    hide Bool;
    assert ",\"cache_hit\":" == "," + (Quoted("cache_hit") + ":");
    assert ",\"tool_used\":" == "," + (Quoted("tool_used") + ":");
    FivePieces(Quoted("cache_hit") + ":", Bool(hit), Quoted("tool_used") + ":", Bool(used), rest);
  }

  lemma FivePieces(c: string, h: string, u: string, b: string, rest: string)
    ensures "," + c + h + ("," + u) + b + rest == "," + (c + (h + "," + (u + (b + rest))))
  {
  }

  /** A body says of both flags what they are, whatever the message and the reply hold. */
  lemma BodyFlags(message: string, reply: string, provider: string, model: string, hit: bool, used: bool, rest: string)
    ensures var body := BodyText(message, Escape(reply), provider, model, Flags(hit, used) + rest);
            FlagIs(body, "cache_hit", hit) && FlagIs(body, "tool_used", used)
  {
    hide After, Escape, BodyText, Printed, Flags, KeyName, OPENED;
    var end := Flags(hit, used) + rest;
    var fs := ChatFields(message, reply, provider, model);
    BodyIsPrinted(message, reply, provider, model, end);
    FlagTexts(hit, used, rest);
    NamesDiffer(message, reply, provider, model);
    assert end[0] == ',' by { FlagsStart(hit, used); }
    FieldsHoldNoFlag(fs, end, "cache_hit");
    FieldsHoldNoFlag(fs, end, "tool_used");
    OpenedPassed(Printed(fs, end), "cache_hit");
    OpenedPassed(Printed(fs, end), "tool_used");
  }

  lemma FlagsStart(hit: bool, used: bool)
    ensures Flags(hit, used) != "" && Flags(hit, used)[0] == ','
  {
  }

  lemma NamesDiffer(message: string, reply: string, provider: string, model: string)
    ensures forall f :: f in ChatFields(message, reply, provider, model) ==>
              KeyName(f.name) && f.name != "cache_hit" && f.name != "tool_used"
    ensures KeyName("cache_hit") && KeyName("tool_used")
  {
  }

  lemma OpenedPassed(t: string, name: string)
    requires KeyName(name) && name != "ok"
    ensures After(OPENED + t, Quoted(name) + ":") == After(t, Quoted(name) + ":")
  {
    hide After, KeyName, OccursAt, Quoted;
    var k := Quoted(name) + ":";
    forall j: nat | j < |OPENED| ensures !OccursAt(OPENED + t, k, j) {
      if OccursAt(OPENED + t, k, j) {
        NameOccurs(OPENED + t, name, j);
        NotInOpening(OPENED, t, name, j);
      }
    }
    AfterSkip(OPENED, t, k);
  }

  lemma NotInOpening(front: string, t: string, name: string, j: nat)
    requires front == OPENED || front == FAILED
    requires KeyName(name) && name != "ok" && j < |front|
    ensures !OccursAt(front + t, Quoted(name), j)
  {
    hide Quoted, KeyName, OccursAt;
    NoNameBefore(front, name, j);
    if OccursAt(front + t, Quoted(name), j) { InsideOpening(front, t, name, j); }
  }

  /** The message and the reply are read back from every body as they are.  So are the provider and the model, unless the
      message, or for the model the reply, is or ends with the quoted name; then the value behind it is read instead. */
  lemma BodyReads(message: string, reply: string, provider: string, model: string, hit: bool)
    ensures var body := BuildChatBody(message, reply, provider, model, hit);
            ReadsBack(body, message, reply, provider, model) && FlagIs(body, "cache_hit", hit) && FlagIs(body, "tool_used", false)
  {
    hide ReadsBack, Printed, BodyText, Flags, Escape, FlagIs;
    BodyIsPrinted(message, reply, provider, model, Flags(hit, false) + "}");
    FlagsStart(hit, false);
    ChatReads(message, reply, provider, model, Flags(hit, false) + "}");
    BodyFlags(message, reply, provider, model, hit, false, "}");
  }

  // ----- the tool's body -----

  lemma LiteralPrints()
    ensures Escape("Tool ") == "Tool " && Escape(" executed for: ") == " executed for: "
  {
    PrintsItself("Tool ");
    PrintsItself(" executed for: ");
  }

  lemma {:induction false} PrintsItself(s: string)
    requires forall i :: 0 <= i < |s| ==> ' ' <= s[i] <= 'z' && s[i] != '\\' && s[i] != '\"'
    ensures Escape(s) == s
  {
    if s != "" {
      PrintsItself(s[1..]);
      assert s == [s[0]] + s[1..];
    }
  }

  function ToolReply(tool: string, message: string): string {
    "Tool " + tool + " executed for: " + message
  }

  lemma ToolReplyPrints(tool: string, message: string)
    ensures Escape(ToolReply(tool, message)) == "Tool " + Escape(tool) + " executed for: " + Escape(message)
  {
    LiteralPrints();
    hide Escape;
    EscapeAppend("Tool " + tool + " executed for: ", message);
    EscapeAppend("Tool " + tool, " executed for: ");
    EscapeAppend("Tool ", tool);
  }

  /** A tool's answer says that a tool was used and the cache was not, and is read back like any other. */
  lemma ToolReads(message: string, tool: string, json: string, provider: string, model: string)
    ensures var r := ToolResponse(message, tool, ToolOk(json), provider, model);
            && r.ok && r.status == "200 OK" && r.toolName == tool
            && FlagIs(r.body, "cache_hit", false) && FlagIs(r.body, "tool_used", true)
            && ReadsBack(r.body, message, "Tool " + tool + " executed for: " + message, provider, model)
  {
    hide ReadsBack, Printed, BodyText, Flags, Escape, FlagIs;
    var reply := ToolReply(tool, message);
    var rest := ",\"tool\":\"" + Escape(tool) + "\",\"tool_result\":" + json + "}";
    var end := Flags(false, true) + rest;
    ToolReplyPrints(tool, message);
    assert Flags(false, true) + ",\"tool\":\"" + Escape(tool) + "\",\"tool_result\":" + json + "}" == end;
    BodyIsPrinted(message, reply, provider, model, end);
    FlagsStart(false, true);
    ChatReads(message, reply, provider, model, end);
    BodyFlags(message, reply, provider, model, false, true, rest);
  }

  // ----- the errors -----

  /** An error message is read back as it is. */
  lemma ErrorReads(message: string)
    ensures ClientField(JsonError(message), "error") == Some(message)
  {
    hide Escape, Found, ClientField, Printed, Quoted;
    var fs := [Field("error", message)];
    assert JsonError(message) == FAILED + Printed(fs, "}") by { ErrorIsPrinted(message); }
    assert Found(fs, "error") == Some(message) by { FoundSteps(fs, "error"); }
    Reads(FAILED, fs, "}", "error");
  }

  lemma ErrorIsPrinted(message: string)
    ensures JsonError(message) == FAILED + Printed([Field("error", message)], "}")
  {
    hide Escape;
    PrintedLast(Field("error", message), "}");
    assert "{\"ok\":false,\"error\":\"" == FAILED + Start("error");
    assert Start("error") + Escape(message) + "\"" + "}" == Start("error") + (Escape(message) + "\"}");
  }

  /** What is told of an answer that is no success: its code in decimal, the provider, and the answer itself, read back. */
  lemma HttpErrorReads(code: nat, response: string, provider: string)
    ensures var body := HttpError(code, response, provider);
            && ClientField(body, "error") == Some("provider returned HTTP " + Decimal(code))
            && ClientField(body, "provider") == Some(provider) && ClientField(body, "body") == Some(response)
  {
    hide Escape, Found, ClientField, Printed, Quoted, Decimal, HttpError, NameAtEnd, KeyName;
    var error := "provider returned HTTP " + Decimal(code);
    var fs := [Field("error", error), Field("provider", provider), Field("body", response)];
    var two, one := [fs[1], fs[2]], [fs[2]];
    assert fs[1..] == two && two[1..] == one;
    HttpErrorIsPrinted(code, response, provider);
    NotAName(code);
    HttpNames();
    FoundSteps(fs, "error");
    FoundSteps(fs, "provider");
    FoundSteps(two, "provider");
    FoundSteps(fs, "body");
    FoundSteps(two, "body");
    FoundSteps(one, "body");
    Reads(FAILED, fs, "}", "error");
    Reads(FAILED, fs, "}", "provider");
    Reads(FAILED, fs, "}", "body");
  }

  lemma HttpNames()
    ensures KeyName("error") && KeyName("provider") && KeyName("body")
  {
  }

  // The error ends with a digit, so it cannot be taken for a name.
  lemma NotAName(code: nat)
    ensures !NameAtEnd("provider returned HTTP " + Decimal(code), "body")
  {
    hide Decimal;
    var d := Decimal(code);
    var v := "provider returned HTTP " + d;
    DecimalReads(code);
    assert v[|v| - 1] == d[|d| - 1];
    assert "\"body"[4] == 'y' && "body"[3] == 'y';
    assert |v| >= 5 ==> v[|v| - 5..][4] == v[|v| - 1];
  }

  lemma HttpTextPrints()
    ensures Escape("provider returned HTTP ") == "provider returned HTTP "
  {
    PrintsItself("provider returned HTTP ");
  }

  lemma NumberPrints(s: string)
    requires IsNumber(s)
    ensures Escape(s) == s
  {
    PrintsItself(s);
  }

  lemma ErrorTextPrints(code: nat)
    ensures Escape("provider returned HTTP " + Decimal(code)) == "provider returned HTTP " + Decimal(code)
  {
    hide Decimal, Escape, IsNumber;
    DecimalReads(code);
    NumberPrints(Decimal(code));
    HttpTextPrints();
    EscapeAppend("provider returned HTTP ", Decimal(code));
  }

  lemma HttpErrorIsPrinted(code: nat, response: string, provider: string)
    ensures var error := "provider returned HTTP " + Decimal(code);
            HttpError(code, response, provider)
            == FAILED + Printed([Field("error", error), Field("provider", provider), Field("body", response)], "}")
  {
    var d := Decimal(code);
    var error := "provider returned HTTP " + d;
    hide Escape, Decimal, Printed, Start;
    ErrorTextPrints(code);
    var fs := [Field("error", error), Field("provider", provider), Field("body", response)];
    assert fs == [fs[0]] + [fs[1], fs[2]] && [fs[1], fs[2]] == [fs[1]] + [fs[2]];
    PrintedMore(fs[0], [fs[1], fs[2]], "}");
    PrintedMore(fs[1], [fs[2]], "}");
    PrintedLast(fs[2], "}");
    HttpStarts();
    HttpPieces(FAILED, Start("error"), error, Start("provider"), Escape(provider), Start("body"), Escape(response));
  }

  lemma HttpStarts()
    ensures "{\"ok\":false," == FAILED && "\"error\":\"" == Start("error")
    ensures "\",\"provider\":\"" == "\"," + Start("provider") && "\",\"body\":\"" == "\"," + Start("body")
  {
  }

  lemma HttpPieces(o: string, s1: string, e1: string, s2: string, e2: string, s3: string, e3: string)
    ensures o + s1 + e1 + ("\"," + s2) + e2 + ("\"," + s3) + e3 + "\"}"
            == o + (s1 + e1 + "\"," + (s2 + e2 + "\"," + (s3 + e3 + "\"" + "}")))
  {
    var last := s3 + e3 + "\"" + "}";
    assert last == s3 + e3 + "\"}";
    var second := s2 + e2 + "\"," + last;
    assert ("\"," + s2) + e2 + ("\"," + s3) + e3 + "\"}" == "\"," + second;
    var first := s1 + e1 + "\"," + second;
    assert o + s1 + e1 + ("\"," + second) == o + first;
    var y := o + s1 + e1;
    assert y + ("\"," + s2) + e2 + ("\"," + s3) + e3 + "\"}" == y + (("\"," + s2) + e2 + ("\"," + s3) + e3 + "\"}");
  }
}
