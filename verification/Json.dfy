/**
  The JSON string printer and the two substring-searching extractors.

  Both extractors look for the quoted field name, then for a colon, then for a
  string.  They do not parse: a value that contains the quoted name can be taken
  for the key.  The lemmas below say when the answer is right all the same.
 */
module Json {
  import opened Wrappers

  // ----- printing -----

  function EscapeChar(c: char): string {
    if c == '\\' then "\\\\"
    else if c == '\"' then "\\\""
    else if c == '\n' then "\\n"
    else if c == '\r' then "\\r"
    else if c == '\t' then "\\t"
    else [c]
  }

  function Escape(s: string): string {
    if s == "" then "" else EscapeChar(s[0]) + Escape(s[1..])
  }

  lemma {:induction false} EscapeAppend(a: string, b: string)
    ensures Escape(a + b) == Escape(a) + Escape(b)
  {
    hide EscapeChar;
    if a == "" {
      assert a + b == b;
    } else {
      EscapeAppend(a[1..], b);
      assert (a + b)[1..] == a[1..] + b;
      var e := EscapeChar(a[0]);
      assert e + (Escape(a[1..]) + Escape(b)) == e + Escape(a[1..]) + Escape(b);
    }
  }

  /** Escaped text fits on one line: no line break, carriage return or tab is left in it. */
  lemma {:induction false} EscapeIsOneLine(s: string)
    ensures '\n' !in Escape(s) && '\r' !in Escape(s) && '\t' !in Escape(s)
  {
    if s != "" { EscapeIsOneLine(s[1..]); }
  }

  method JsonEscape(input: string) returns (output: string)
    ensures output == Escape(input)
  {
    output := "";
    for i := 0 to |input|
      invariant output == Escape(input[..i])
    {
      EscapeAppend(input[..i], [input[i]]);
      assert input[..i + 1] == input[..i] + [input[i]];
      match input[i]
      case '\\' => output := output + "\\\\";
      case '\"' => output := output + "\\\"";
      case '\n' => output := output + "\\n";
      case '\r' => output := output + "\\r";
      case '\t' => output := output + "\\t";
      case c => output := output + [c];
    }
    assert input[..|input|] == input;
  }

  // ----- searching -----

  ghost predicate OccursAt(s: string, pat: string, i: nat) {
    i + |pat| <= |s| && s[i..i + |pat|] == pat
  }

  // What follows the first occurrence of pat.
  function After(s: string, pat: string): (rest: Option<string>)
    ensures rest.Some? ==> |rest.value| + |pat| <= |s|
  {
    if |s| < |pat| then None
    else if s[..|pat|] == pat then Some(s[|pat|..])
    else if s == "" then None
    else After(s[1..], pat)
  }

  lemma OccursLater(s: string, pat: string, j: nat)
    requires s != ""
    ensures OccursAt(s[1..], pat, j) <==> OccursAt(s, pat, j + 1)
  {
    if j + 1 + |pat| <= |s| { assert s[1..][j..j + |pat|] == s[j + 1..j + 1 + |pat|]; }
  }

  lemma OccursFirst(s: string, pat: string)
    ensures OccursAt(s, pat, 0) <==> |pat| <= |s| && s[..|pat|] == pat
  {
    if |pat| <= |s| { assert s[0..0 + |pat|] == s[..|pat|]; }
  }

  /** After is the first occurrence: nothing earlier matches, and None means no match at all. */
  lemma {:induction false} AfterIsFirst(s: string, pat: string, i: nat)
    requires i + |pat| <= |s| && OccursAt(s, pat, i) && forall j: nat :: j < i ==> !OccursAt(s, pat, j)
    ensures After(s, pat) == Some(s[i + |pat|..])
  {
    hide OccursAt;
    OccursFirst(s, pat);
    if i > 0 {
      forall j: nat | j < i - 1 ensures !OccursAt(s[1..], pat, j) {
        OccursLater(s, pat, j);
      }
      OccursLater(s, pat, i - 1);
      AfterIsFirst(s[1..], pat, i - 1);
      assert s[1..][i - 1 + |pat|..] == s[i + |pat|..];
    }
  }

  lemma {:induction false} AfterNone(s: string, pat: string)
    requires forall j: nat :: !OccursAt(s, pat, j)
    ensures After(s, pat) == None
  {
    hide OccursAt;
    OccursFirst(s, pat);
    if |pat| <= |s| && s != "" {
      forall j: nat ensures !OccursAt(s[1..], pat, j) {
        OccursLater(s, pat, j);
      }
      AfterNone(s[1..], pat);
    }
  }

  // s.find(pat, from)
  method Find(s: string, pat: string, from: nat) returns (pos: Option<nat>)
    requires from <= |s|
    ensures pos.Some? ==> from <= pos.value && pos.value + |pat| <= |s|
    ensures After(s[from..], pat) == match pos case None => None case Some(i) => Some(s[i + |pat|..])
  {
    var i := from;
    while i + |pat| <= |s|
      invariant from <= i <= |s|
      invariant After(s[from..], pat) == After(s[i..], pat)
    {
      assert s[i..][..|pat|] == s[i..i + |pat|];
      if s[i..i + |pat|] == pat {
        assert s[i..][|pat|..] == s[i + |pat|..];
        return Some(i);
      }
      assert s[i..][1..] == s[i + 1..];
      i := i + 1;
    }
    return None;
  }

  // ----- reading a string -----

  function Unescape(c: char): char {
    if c == 'n' then '\n' else if c == 'r' then '\r' else if c == 't' then '\t' else c
  }

  function Prepend(front: string, r: Option<string>): Option<string> {
    match r
    case None => None
    case Some(v) => Some(front + v)
  }

  // The string whose opening quote has just been read; None when it is not closed.
  function ReadString(s: string): Option<string> {
    if s == "" then None
    else if s[0] == '\"' then Some("")
    else if s[0] == '\\' then ReadEscaped(s[1..])
    else Prepend([s[0]], ReadString(s[1..]))
  }

  function ReadEscaped(s: string): Option<string> {
    if s == "" then None else Prepend([Unescape(s[0])], ReadString(s[1..]))
  }

  lemma ReadEscapedChar(c: char, tail: string)
    ensures ReadString(EscapeChar(c) + tail) == Prepend([c], ReadString(tail))
  {
    var e := EscapeChar(c);
    var s := e + tail;
    if |e| == 1 {
      assert s[1..] == tail;
    } else {
      assert s[1..][1..] == tail;
    }
  }

  /** Reading undoes printing. */
  lemma {:induction false} ReadEscape(v: string, rest: string)
    ensures ReadString(Escape(v) + "\"" + rest) == Some(v)
  {
    hide EscapeChar;
    if v == "" {
      assert Escape(v) + "\"" + rest == "\"" + rest;
    } else {
      ReadEscape(v[1..], rest);
      var tail := Escape(v[1..]) + "\"" + rest;
      assert Escape(v) + "\"" + rest == EscapeChar(v[0]) + tail;
      ReadEscapedChar(v[0], tail);
      assert v == [v[0]] + v[1..];
    }
  }

  lemma PrependTwice(a: string, b: string, r: Option<string>)
    ensures Prepend(a, Prepend(b, r)) == Prepend(a + b, r)
    ensures Prepend("", r) == r && Prepend(a, Some("")) == Some(a)
  {
    assert a + "" == a;
    if r.Some? {
      assert a + (b + r.value) == a + b + r.value;
      assert "" + r.value == r.value;
    }
  }

  function Quoted(field: string): string {
    "\"" + field + "\""
  }

  // ----- the extractor of the AI client -----

  function ClientField(json: string, field: string): Option<string> {
    match After(json, Quoted(field))
    case None => None
    case Some(a) =>
      match After(a, ":")
      case None => None
      case Some(b) =>
        match After(b, "\"")
        case None => None
        case Some(c) => ReadString(c)
  }

  method ExtractClient(json: string, field: string) returns (value: Option<string>)
    ensures value == ClientField(json, field)
  {
    var key := "\"" + field + "\"";
    assert json[0..] == json;
    var keyPos := Find(json, key, 0);
    if keyPos == None { return None; }
    var colon := Find(json, ":", keyPos.value + |key|);
    if colon == None { return None; }
    var quote := Find(json, "\"", colon.value + 1);
    if quote == None { return None; }
    value := ScanFlag(json, quote.value + 1);
  }

  // The loop with the escaped flag.
  method ScanFlag(json: string, start: nat) returns (value: Option<string>)
    requires start <= |json|
    ensures value == ReadString(json[start..])
  {
    var parsed := "";
    var escaped := false;
    var i := start;
    ghost var all := ReadString(json[start..]);
    PrependTwice("", "", all);
    while i < |json|
      invariant start <= i <= |json|
      invariant all == Prepend(parsed, if escaped then ReadEscaped(json[i..]) else ReadString(json[i..]))
    {
      var ch := json[i];
      assert json[i..][1..] == json[i + 1..];
      if escaped {
        PrependTwice(parsed, [Unescape(ch)], ReadString(json[i + 1..]));
        parsed := parsed + [Unescape(ch)];
        escaped := false;
      } else if ch == '\\' {
        escaped := true;
      } else if ch == '\"' {
        PrependTwice(parsed, "", None);
        return Some(parsed);
      } else {
        PrependTwice(parsed, [ch], ReadString(json[i + 1..]));
        parsed := parsed + [ch];
      }
      i := i + 1;
    }
    return None;
  }

  // ----- the extractor of the HTTP codec -----

  predicate IsSpace(c: char) {
    c == ' ' || c == '\t' || c == '\n' || c == '\r' || c as int == 11 || c as int == 12
  }

  // The text without the spaces at both ends.
  method Trim(value: string) returns (r: string)
    ensures exists b, e :: 0 <= b <= e <= |value| && r == value[b..e]
                           && (forall i :: 0 <= i < b || e <= i < |value| ==> IsSpace(value[i]))
    ensures r != "" ==> !IsSpace(r[0]) && !IsSpace(r[|r| - 1])
  {
    var begin := 0;
    while begin < |value| && IsSpace(value[begin])
      invariant begin <= |value| && forall i :: 0 <= i < begin ==> IsSpace(value[i])
    {
      begin := begin + 1;
    }
    var end := |value|;
    while end > begin && IsSpace(value[end - 1])
      invariant begin <= end <= |value| && forall i :: end <= i < |value| ==> IsSpace(value[i])
    {
      end := end - 1;
    }
    r := value[begin..end];
  }

  function SkipSpace(s: string): string {
    if s != "" && IsSpace(s[0]) then SkipSpace(s[1..]) else s
  }

  function CodecField(json: string, field: string): Option<string> {
    match After(json, Quoted(field))
    case None => None
    case Some(a) =>
      match After(a, ":")
      case None => None
      case Some(b) =>
        var c := SkipSpace(b);
        if c == "" || c[0] != '\"' then None else ReadString(c[1..])
  }

  method ExtractCodec(json: string, field: string) returns (value: Option<string>)
    ensures value == CodecField(json, field)
  {
    hide After, ReadString;
    var key := "\"" + field + "\"";
    assert json[0..] == json;
    var keyPos := Find(json, key, 0);
    if keyPos == None { return None; }
    var colon := Find(json, ":", keyPos.value + |key|);
    if colon == None { return None; }
    var pos := colon.value + 1;
    ghost var b := json[pos..];
    while pos < |json| && IsSpace(json[pos])
      invariant pos <= |json|
      invariant SkipSpace(b) == SkipSpace(json[pos..])
    {
      assert json[pos..][1..] == json[pos + 1..];
      pos := pos + 1;
    }
    if pos >= |json| || json[pos] != '\"' { return None; }
    assert json[pos..][1..] == json[pos + 1..];
    value := ScanLookahead(json, pos + 1);
  }

  // The loop that reads the character after a backslash at once; a final backslash is kept as it is.
  method ScanLookahead(json: string, start: nat) returns (value: Option<string>)
    requires start <= |json|
    ensures value == ReadString(json[start..])
  {
    var parsed := "";
    var pos := start;
    ghost var all := ReadString(json[start..]);
    PrependTwice("", "", all);
    while pos < |json|
      invariant start <= pos <= |json|
      invariant all == Prepend(parsed, ReadString(json[pos..]))
                || (pos == |json| && all == None)
    {
      var ch := json[pos];
      assert json[pos..][1..] == json[pos + 1..];
      pos := pos + 1;
      if ch == '\"' {
        PrependTwice(parsed, "", None);
        return Some(parsed);
      }
      if ch == '\\' && pos < |json| {
        var escaped := json[pos];
        assert json[pos..][1..] == json[pos + 1..];
        pos := pos + 1;
        PrependTwice(parsed, [Unescape(escaped)], ReadString(json[pos..]));
        parsed := parsed + [Unescape(escaped)];
      } else {
        PrependTwice(parsed, [ch], ReadString(json[pos..]));
        parsed := parsed + [ch];
      }
    }
    return None;
  }

  // ----- the two extractors compared -----

  lemma {:induction false} SkipThenQuote(s: string)
    ensures var c := SkipSpace(s); c != "" && c[0] == '\"' ==> After(s, "\"") == Some(c[1..])
    decreases |s|
  {
    if s != "" && IsSpace(s[0]) {
      SkipThenQuote(s[1..]);
      assert s[..1] == [s[0]];
    } else if s != "" {
      assert s[..1] == [s[0]];
    }
  }

  /** Whatever the codec extracts the client extracts too, with the same value. */
  lemma CodecImpliesClient(json: string, field: string)
    requires CodecField(json, field).Some?
    ensures ClientField(json, field) == CodecField(json, field)
  {
    var a := After(json, Quoted(field)).value;
    SkipThenQuote(After(a, ":").value);
  }

  // The value of the field, as the codec sees it, is a string: behind the first colon after the key, spaces apart, is a quote.
  predicate StringNext(json: string, field: string) {
    var a := After(json, Quoted(field));
    var b := if a.Some? then After(a.value, ":") else None;
    b.Some? && SkipSpace(b.value) != "" && SkipSpace(b.value)[0] == '\"'
  }

  /** The two readers agree on a field if and only if the client finds nothing, or its value is a string. */
  lemma ReadersAgreeIff(json: string, field: string)
    ensures CodecField(json, field) == ClientField(json, field)
            <==> ClientField(json, field) == None || StringNext(json, field)
  {
    hide After, ReadString, SkipSpace;
    if CodecField(json, field).Some? { CodecImpliesClient(json, field); }
    if StringNext(json, field) { SkipThenQuote(After(After(json, Quoted(field)).value, ":").value); }
  }

  /** An input on which they differ: past a value that is not a string, the client goes on to the next quote. */
  lemma ClientReadsPastNonString()
    ensures CodecField("\"a\":1,\"b\"", "a") == None
    ensures ClientField("\"a\":1,\"b\"", "a") == Some("b")
  {
    var json := "\"a\":1,\"b\"";
    assert json[..3] == Quoted("a") && json[3..] == ":1,\"b\"";
    var a := ":1,\"b\"";
    assert a[..1] == ":" && a[1..] == "1,\"b\"";
    var b := "1,\"b\"";
    assert b[2..3] == "\"" && b[0..1] == "1" && b[1..2] == ",";
    AfterIsFirst(b, "\"", 2);
    assert b[3..] == "b\"";
    assert "b\""[1..] == "\"" && ReadString("\"") == Some("") && "b" + "" == "b";
  }

  // ----- a key after an arbitrary value -----

  // A field name with no character that has a meaning of its own between fields.
  predicate PlainName(field: string) {
    field != "" && forall c :: c in field ==> c !in "\"\\:,"
  }

  // In printed text a quote is always the second half of an escape.
  lemma {:induction false} QuotesAreEscaped(v: string, i: nat)
    requires i < |Escape(v)| && Escape(v)[i] == '\"'
    ensures 0 < i && Escape(v)[i - 1] == '\\'
  {
    var e := EscapeChar(v[0]);
    if i >= |e| {
      assert Escape(v)[i] == Escape(v[1..])[i - |e|];
      QuotesAreEscaped(v[1..], i - |e|);
      assert Escape(v)[i - 1] == Escape(v[1..])[i - |e| - 1];
    }
  }

  // front + printed value + closing quote + comma + key + colon + printed value + the rest
  function TwoFields(front: string, v: string, field: string, r: string, rest: string): string {
    front + Escape(v) + "\"," + Quoted(field) + ":\"" + Escape(r) + "\"" + rest
  }

  // The three texts that can follow a match of the key.
  lemma ColonAfterKey(field: string, s: string)
    requires PlainName(field)
    ensures After(":" + s, ":") == Some(s)
    ensures After("," + Quoted(field) + ":" + s, ":") == Some(s)
  {
    assert (":" + s)[..1] == ":" && (":" + s)[1..] == s;
    var t := "," + Quoted(field) + ":" + s;
    var n := 1 + |Quoted(field)|;
    assert t[n..n + 1] == ":" && t[n + 1..] == s;
    forall j: nat | j < n ensures !OccursAt(t, ":", j) {
      assert t[j..j + 1] == [t[j]];
      assert j > 1 && j < n - 1 ==> t[j] == field[j - 2] && field[j - 2] in field;
    }
    AfterIsFirst(t, ":", n);
  }

  // front, a printed value, its closing quote, a comma, a key, and a tail.
  function Laid(front: string, e: string, k: string, tail: string): string {
    front + e + "\"," + k + tail
  }

  lemma Layout(front: string, e: string, k: string, tail: string)
    ensures var t := Laid(front, e, k, tail); var p := |front| + |e|;
            && |t| == p + 2 + |k| + |tail|
            && t[..|front|] == front && t[|front|..p] == e && t[p] == '\"' && t[p + 1] == ','
            && t[p + 2..p + 2 + |k|] == k && t[p + 2 + |k|..] == tail && t[p + 1..] == "," + k + tail
  {
  }

  ghost predicate QuotesEscaped(e: string) {
    forall i :: 0 <= i < |e| && e[i] == '\"' ==> 0 < i && e[i - 1] == '\\'
  }

  lemma EscapeQuotes(v: string)
    ensures QuotesEscaped(Escape(v))
  {
    forall i | 0 <= i < |Escape(v)| && Escape(v)[i] == '\"' ensures 0 < i && Escape(v)[i - 1] == '\\' {
      QuotesAreEscaped(v, i);
    }
  }

  lemma KeyEnd(t: string, field: string, i: nat)
    requires PlainName(field) && OccursAt(t, Quoted(field), i)
    ensures var last := i + |field| + 1;
            last < |t| && t[last] == '\"' && t[last - 1] == field[|field| - 1] && t[last - 1] in field
  {
    var k := Quoted(field);
    assert t[i..i + |k|][|k| - 1] == '\"' && t[i..i + |k|][|k| - 2] == field[|field| - 1];
  }

  // A match of the key ends with the true key or, earlier, with the closing quote of the value before it.
  lemma KeyMatches(front: string, e: string, field: string, tail: string, i: nat)
    requires PlainName(field) && QuotesEscaped(e) && forall j: nat :: !OccursAt(front, Quoted(field), j)
    requires i < |front| + |e| + 2 && OccursAt(Laid(front, e, Quoted(field), tail), Quoted(field), i)
    ensures i + |Quoted(field)| == |front| + |e| + 1
  {
    hide Laid, QuotesEscaped;
    var p := |front| + |e|;
    var t := Laid(front, e, Quoted(field), tail);
    var last := i + |field| + 1;
    Layout(front, e, Quoted(field), tail);
    KeyEnd(t, field, i);
    if last < |front| {
      InPrefix(t, |front|, Quoted(field), i);
    } else if last < p {
      assert t[last] == e[last - |front|];
      assert last > |front| ==> t[last - 1] == e[last - |front| - 1];
      QuotesEscapedAt(e, last - |front|);
    } else if p + 2 < last {
      NoQuoteInside(field, last - p - 2);
    }
  }

  lemma InPrefix(t: string, n: nat, k: string, i: nat)
    requires n <= |t| && i + |k| <= n && OccursAt(t, k, i)
    ensures OccursAt(t[..n], k, i)
  {
    assert t[..n][i..i + |k|] == t[i..i + |k|];
  }

  lemma NoQuoteInside(field: string, j: nat)
    requires PlainName(field) && 0 < j <= |field|
    ensures Quoted(field)[j] != '\"'
  {
    assert field[j - 1] in field;
  }

  lemma QuotesEscapedAt(e: string, i: nat)
    requires QuotesEscaped(e) && i < |e| && e[i] == '\"'
    ensures 0 < i && e[i - 1] == '\\'
  {
  }

  // Past the first match of the key, the first colon is the true one.
  lemma ColonAfterMatch(front: string, e: string, field: string, s: string)
    requires PlainName(field) && QuotesEscaped(e) && forall j: nat :: !OccursAt(front, Quoted(field), j)
    ensures var m := After(Laid(front, e, Quoted(field), ":" + s), Quoted(field));
            m.Some? && After(m.value, ":") == Some(s)
  {
    hide Laid, QuotesEscaped, PlainName, Quoted, After, OccursAt;
    var k := Quoted(field);
    var p := |front| + |e|;
    var t := Laid(front, e, k, ":" + s);
    ColonAfterKey(field, s);
    Layout(front, e, k, ":" + s);
    var i := FirstMatch(t, k, p + 2);
    AfterIsFirst(t, k, i);
    if i < p + 2 {
      KeyMatches(front, e, field, ":" + s, i);
      assert "," + k + (":" + s) == "," + k + ":" + s;
    }
  }

  lemma {:induction false} FirstMatch(t: string, k: string, n: nat) returns (i: nat)
    requires OccursAt(t, k, n)
    ensures i <= n && OccursAt(t, k, i) && forall j: nat :: j < i ==> !OccursAt(t, k, j)
  {
    if j: nat :| j < n && OccursAt(t, k, j) {
      i := FirstMatch(t, k, j);
    } else {
      i := n;
    }
  }

  /** The value of a field is extracted exactly, whatever text the value printed before it holds. */
  lemma FieldAfterValue(front: string, v: string, field: string, r: string, rest: string)
    requires PlainName(field) && forall j: nat :: !OccursAt(front, Quoted(field), j)
    ensures ClientField(TwoFields(front, v, field, r, rest), field) == Some(r)
    ensures CodecField(TwoFields(front, v, field, r, rest), field) == Some(r)
  {
    hide Escape, ReadString, PlainName, Quoted, QuotesEscaped;
    var body := Escape(r) + "\"" + rest;
    var s := "\"" + body;
    assert TwoFields(front, v, field, r, rest) == Laid(front, Escape(v), Quoted(field), ":" + s);
    EscapeQuotes(v);
    ColonAfterMatch(front, Escape(v), field, s);
    assert s[..1] == "\"" && s[1..] == body;
    ReadEscape(r, rest);
  }
}
