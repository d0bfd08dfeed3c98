/** The printer and the readers against the string syntax of JSON itself, section 7 of RFC 8259. */
module JsonTable {
  import opened Wrappers
  import opened Json

  // ----- what a JSON string stands for -----

  // The escapes of one letter, with the code of the character that each stands for.
  const ESCAPES: map<char, int> := map[
    '\"' := 0x22, '\\' := 0x5C, '/' := 0x2F, 'b' := 0x08, 'f' := 0x0C, 'n' := 0x0A, 'r' := 0x0D, 't' := 0x09]

  function HexDigit(c: char): Option<int> {
    if '0' <= c <= '9' then Some(c as int - 0x30)
    else if 'A' <= c <= 'F' then Some(c as int - 0x41 + 10)
    else if 'a' <= c <= 'f' then Some(c as int - 0x61 + 10)
    else None
  }

  // The code unit of \uXXXX.
  function HexUnit(t: string): Option<int> {
    if |t| < 4 then None
    else
      match (HexDigit(t[0]), HexDigit(t[1]), HexDigit(t[2]), HexDigit(t[3]))
      case (Some(a), Some(b), Some(c), Some(d)) => Some(((a * 16 + b) * 16 + c) * 16 + d)
      case _ => None
  }

  function Cons(code: int, r: Option<seq<int>>): Option<seq<int>> {
    match r case None => None case Some(v) => Some([code] + v)
  }

  // The code units that the text between the quotes stands for; None when it is not well formed.
  function Decode(t: string): Option<seq<int>>
    decreases |t|
  {
    if t == "" then Some([])
    else if t[0] == '\"' || (t[0] as int) < 0x20 then None
    else if t[0] != '\\' then Cons(t[0] as int, Decode(t[1..]))
    else if |t| < 2 then None
    else if t[1] in ESCAPES then Cons(ESCAPES[t[1]], Decode(t[2..]))
    else if t[1] == 'u' && HexUnit(t[2..]).Some? then Cons(HexUnit(t[2..]).value, Decode(t[6..]))
    else None
  }

  function Codes(s: string): seq<int> {
    seq(|s|, i requires 0 <= i < |s| => s[i] as int)
  }

  lemma CodesCons(c: char, s: string)
    ensures Codes([c] + s) == [c as int] + Codes(s)
  {
  }

  // ----- printing -----

  // Control characters other than these three are printed as they are, which JSON does not allow.
  predicate Printable(c: char) {
    c as int >= 0x20 || c as int == 0x0A || c as int == 0x0D || c as int == 0x09
  }

  lemma PrintedChar(c: char, tail: string)
    ensures Decode(EscapeChar(c) + tail) == if Printable(c) then Cons(c as int, Decode(tail)) else None
  {
    var t := EscapeChar(c) + tail;
    if |EscapeChar(c)| == 1 {
      assert t[0] == c && t[1..] == tail;
    } else {
      assert t[0] == '\\' && t[1] == EscapeChar(c)[1] && t[2..] == tail;
    }
  }

  /** Printed text is a JSON string that stands for the text itself if and only if it has no control characters but line
      feed, carriage return and tab; otherwise it is no JSON string at all. */
  lemma {:induction false} PrintedMeans(s: string)
    ensures Decode(Escape(s)) == if forall i :: 0 <= i < |s| ==> Printable(s[i]) then Some(Codes(s)) else None
  {
    hide EscapeChar, Printable;
    if s == "" {
      assert Codes(s) == [];
    } else {
      PrintedMeans(s[1..]);
      PrintedChar(s[0], Escape(s[1..]));
      CodesCons(s[0], s[1..]);
      assert [s[0]] + s[1..] == s;
      assert (forall i :: 0 <= i < |s| ==> Printable(s[i]))
             <==> Printable(s[0]) && forall i :: 0 <= i < |s[1..]| ==> Printable(s[1..][i]) by {
        assert forall i :: 0 <= i < |s[1..]| ==> s[1..][i] == s[i + 1];
        assert forall i :: 0 < i < |s| ==> s[i] == s[1..][i - 1];
      }
    }
  }

  // ----- reading -----

  // The text uses none of the three escapes that the readers do not know: \b, \f and \u.
  predicate Known(t: string)
    decreases |t|
  {
    |t| < 2
    || (if t[0] == '\\' then t[1] != 'b' && t[1] != 'f' && t[1] != 'u' && Known(t[2..]) else Known(t[1..]))
  }

  lemma ReadPlain(c: char, s: string)
    requires c != '\"' && c != '\\'
    ensures ReadString([c] + s) == Prepend([c], ReadString(s))
  {
    assert ([c] + s)[1..] == s;
  }

  lemma ReadEscapePair(c: char, s: string)
    ensures ReadString(['\\', c] + s) == Prepend([Unescape(c)], ReadString(s))
  {
    assert (['\\', c] + s)[1..] == [c] + s && ([c] + s)[1..] == s;
  }

  lemma ReadHex(t: string, s: string)
    requires |t| == 4 && HexUnit(t).Some?
    ensures ReadString(t + s) == Prepend(t, ReadString(s))
  {
    hide ReadString;
    var r := ReadString(s);
    assert t == [t[0]] + ([t[1]] + ([t[2]] + [t[3]]));
    assert t + s == [t[0]] + ([t[1]] + ([t[2]] + ([t[3]] + s)));
    ReadPlain(t[3], s);
    ReadPlain(t[2], [t[3]] + s);
    ReadPlain(t[1], [t[2]] + ([t[3]] + s));
    ReadPlain(t[0], [t[1]] + ([t[2]] + ([t[3]] + s)));
    PrependTwice([t[2]], [t[3]], r);
    PrependTwice([t[1]], [t[2]] + [t[3]], r);
    PrependTwice([t[0]], [t[1]] + ([t[2]] + [t[3]]), r);
  }

  // The letters of the table that the readers turn into what the table says.
  lemma UnescapeIs(c: char)
    requires c in ESCAPES
    ensures Unescape(c) as int == ESCAPES[c] <==> c != 'b' && c != 'f'
  {
  }

  /** Of every well-formed JSON string the readers find the right end, and they read what it stands for if and only if it
      uses none of the escapes \b, \f and \u. */
  lemma {:induction false} ReadMeansIff(t: string, rest: string)
    requires Decode(t).Some?
    ensures var r := ReadString(t + "\"" + rest);
            && r.Some? && |r.value| >= |Decode(t).value|
            && (Codes(r.value) == Decode(t).value <==> Known(t))
    decreases |t|
  {
    var after := "\"" + rest;
    if t == "" {
      assert t + "\"" + rest == after;
      assert Codes("") == [];
    } else if t[0] != '\\' {
      ReadMeansIff(t[1..], rest);
      assert t + "\"" + rest == [t[0]] + (t[1..] + "\"" + rest);
      hide ReadString;
      ReadPlain(t[0], t[1..] + "\"" + rest);
      CodesCons(t[0], ReadString(t[1..] + "\"" + rest).value);
      SameHead(t[0] as int, Codes(ReadString(t[1..] + "\"" + rest).value), t[0] as int, Decode(t[1..]).value);
    } else if t[1] in ESCAPES {
      ReadMeansIff(t[2..], rest);
      assert t + "\"" + rest == ['\\', t[1]] + (t[2..] + "\"" + rest);
      hide ReadString, Unescape;
      ReadEscapePair(t[1], t[2..] + "\"" + rest);
      UnescapeIs(t[1]);
      CodesCons(Unescape(t[1]), ReadString(t[2..] + "\"" + rest).value);
      SameHead(Unescape(t[1]) as int, Codes(ReadString(t[2..] + "\"" + rest).value), ESCAPES[t[1]], Decode(t[2..]).value);
    } else {
      HexMeans(t, rest);
      ReadMeansIff(t[6..], rest);
    }
  }

  lemma SameHead(a: int, s: seq<int>, b: int, t: seq<int>)
    ensures [a] + s == [b] + t <==> a == b && s == t
  {
    if [a] + s == [b] + t {
      assert ([a] + s)[0] == a && ([b] + t)[0] == b;
      assert ([a] + s)[1..] == s && ([b] + t)[1..] == t;
    }
  }

  // A code unit is read as the five characters that spell it.
  lemma HexMeans(t: string, rest: string)
    requires |t| >= 2 && t[0] == '\\' && t[1] == 'u' && HexUnit(t[2..]).Some?
    ensures |t| >= 6
    ensures ReadString(t + "\"" + rest) == Prepend(t[1..6], ReadString(t[6..] + "\"" + rest))
  {
    hide ReadString;
    var s := t[6..] + "\"" + rest;
    assert t[2..][..4] == t[2..6];
    assert HexUnit(t[2..6]).Some?;
    assert t + "\"" + rest == ['\\', 'u'] + (t[2..6] + s);
    ReadEscapePair('u', t[2..6] + s);
    ReadHex(t[2..6], s);
    PrependTwice(['u'], t[2..6], ReadString(s));
    assert ['u'] + t[2..6] == t[1..6];
  }

  // How many backslashes stand directly before place i.
  function Backslashes(s: string, i: nat): (n: nat)
    requires i <= |s|
    ensures n <= i
  {
    if i > 0 && s[i - 1] == '\\' then Backslashes(s, i - 1) + 1 else 0
  }

  predicate Closes(s: string, i: nat) {
    i < |s| && s[i] == '\"' && Backslashes(s, i) % 2 == 0
  }

  lemma {:induction false} BackslashesShift(s: string, i: nat)
    requires s != "" && i < |s|
    ensures Backslashes(s, i + 1) == Backslashes(s[1..], i) + (if Backslashes(s[1..], i) == i && s[0] == '\\' then 1 else 0)
  {
    if i > 0 { BackslashesShift(s, i - 1); }
  }

  // Behind a plain character, and behind a pair that starts with a backslash, the same quotes close.
  lemma ClosesShift(s: string, i: nat)
    requires s != "" && s[0] != '\\' && i + 1 < |s|
    ensures Closes(s, i + 1) <==> Closes(s[1..], i)
  {
    BackslashesShift(s, i);
  }

  lemma ClosesPair(s: string, i: nat)
    requires |s| >= 2 && s[0] == '\\' && i + 2 < |s|
    ensures Closes(s, i + 2) <==> Closes(s[2..], i)
  {
    BackslashesShift(s, i + 1);
    BackslashesShift(s[1..], i);
    assert s[1..][1..] == s[2..];
  }

  /** A string is read if and only if it is closed: by a quote with an even number of backslashes before it. */
  lemma {:induction false} ReadClosedIff(s: string)
    ensures ReadString(s).Some? <==> exists i: nat :: Closes(s, i)
    decreases |s|
  {
    if s == "" {
    } else if s[0] == '\"' {
      assert Closes(s, 0);
    } else if s[0] != '\\' {
      ReadClosedIff(s[1..]);
      assert s == [s[0]] + s[1..];
      ReadPlain(s[0], s[1..]);
      if i: nat :| Closes(s, i) {
        ClosesShift(s, i - 1);
        assert Closes(s[1..], i - 1);
      }
      if i: nat :| Closes(s[1..], i) {
        ClosesShift(s, i);
        assert Closes(s, i + 1);
      }
    } else if |s| == 1 {
      assert !Closes(s, 0);
    } else {
      ReadClosedIff(s[2..]);
      assert s == ['\\', s[1]] + s[2..];
      ReadEscapePair(s[1], s[2..]);
      NotFirstTwo(s);
      if i: nat :| Closes(s, i) {
        ClosesPair(s, i - 2);
        assert Closes(s[2..], i - 2);
      }
      if i: nat :| Closes(s[2..], i) {
        ClosesPair(s, i);
        assert Closes(s, i + 2);
      }
    }
  }

  lemma NotFirstTwo(s: string)
    requires |s| >= 2 && s[0] == '\\'
    ensures !Closes(s, 0) && !Closes(s, 1)
  {
    assert Backslashes(s, 1) == 1;
  }

  // ----- where a field is found -----

  lemma FoundAt(s: string, pat: string) returns (i: nat)
    requires After(s, pat).Some?
    ensures OccursAt(s, pat, i) && (forall j: nat :: j < i ==> !OccursAt(s, pat, j)) && After(s, pat) == Some(s[i + |pat|..])
  {
    hide After, OccursAt;
    if forall j: nat :: !OccursAt(s, pat, j) { AfterNone(s, pat); }
    var j: nat :| OccursAt(s, pat, j);
    i := FirstMatch(s, pat, j);
    Within(s, pat, i);
    AfterIsFirst(s, pat, i);
  }

  lemma Within(s: string, pat: string, i: nat)
    requires OccursAt(s, pat, i)
    ensures i + |pat| <= |s|
  {
  }

  // A single character is found behind everything that is not it.
  lemma CharFound(b: string, c: char, s: string)
    requires c !in b
    ensures After(b + [c] + s, [c]) == Some(s)
  {
    var t := b + [c] + s;
    assert t[|b|..|b| + 1] == [c] && t[|b| + 1..] == s;
    forall j: nat | j < |b| ensures !OccursAt(t, [c], j) {
      assert t[j..j + 1] == [b[j]];
    }
    AfterIsFirst(t, [c], |b|);
  }

  lemma CharSplit(s: string, c: char) returns (b: string)
    requires After(s, [c]).Some?
    ensures c !in b && s == b + [c] + After(s, [c]).value
  {
    var i := FoundAt(s, [c]);
    b := s[..i];
    assert s[i..i + 1] == [c];
    assert s == s[..i] + s[i..i + 1] + s[i + 1..];
    if c in b {
      var j :| 0 <= j < |b| && b[j] == c;
      assert s[j..j + 1] == [c];
      assert OccursAt(s, [c], j);
    }
  }

  // The text up to the value: the first occurrence of the quoted name, and the first colon behind it.
  ghost predicate KeyAndColon(json: string, field: string, a: string, b: string, s: string) {
    && json == a + Quoted(field) + b + ":" + s && ':' !in b
    && forall j: nat :: j < |a| ==> !OccursAt(json, Quoted(field), j)
  }

  lemma KeySplit(json: string, field: string) returns (a: string, b: string)
    requires After(json, Quoted(field)).Some? && After(After(json, Quoted(field)).value, ":").Some?
    ensures KeyAndColon(json, field, a, b, After(After(json, Quoted(field)).value, ":").value)
  {
    hide After, OccursAt, Quoted, KeyAndColon;
    var k := Quoted(field);
    var i := FoundAt(json, k);
    Rebuild(json, k, i);
    a := json[..i];
    b := CharSplit(json[i + |k|..], ':');
    KeyJoined(json, field, i, b, After(json[i + |k|..], ":").value);
  }

  lemma KeyJoined(json: string, field: string, i: nat, b: string, s: string)
    requires OccursAt(json, Quoted(field), i) && forall j: nat :: j < i ==> !OccursAt(json, Quoted(field), j)
    requires json[i + |Quoted(field)|..] == b + ":" + s && ':' !in b
    ensures KeyAndColon(json, field, json[..i], b, s)
  {
    hide OccursAt, Quoted;
    var k := Quoted(field);
    Rebuild(json, k, i);
    var a := json[..i];
    assert a + k + (b + ":" + s) == a + k + b + ":" + s;
  }

  lemma Rebuild(json: string, k: string, i: nat)
    requires OccursAt(json, k, i)
    ensures i + |k| <= |json| && json == json[..i] + k + json[i + |k|..]
  {
  }

  lemma KeyFound(json: string, field: string, a: string, b: string, s: string)
    requires KeyAndColon(json, field, a, b, s)
    ensures After(json, Quoted(field)) == Some(b + ":" + s) && After(b + ":" + s, ":") == Some(s)
  {
    var k := Quoted(field);
    hide Quoted;
    assert json == a + k + (b + ":" + s);
    assert json[|a|..|a| + |k|] == k && json[|a| + |k|..] == b + ":" + s;
    AfterIsFirst(json, k, |a|);
    CharFound(b, ':', s);
  }

  /** The client reads v if and only if the text is: the first occurrence of the quoted name, anything without a colon, a
      colon, anything without a quote, a quote, and a string read as v. */
  lemma ClientFieldIff(json: string, field: string, v: string)
    ensures ClientField(json, field) == Some(v)
            <==> exists a, b, g, s :: KeyAndColon(json, field, a, b, g + "\"" + s) && '\"' !in g && ReadString(s) == Some(v)
  {
    hide ReadString, After, KeyAndColon;
    if ClientField(json, field) == Some(v) {
      var a, b := KeySplit(json, field);
      var t := After(After(json, Quoted(field)).value, ":").value;
      var g := CharSplit(t, '\"');
      var s := After(t, "\"").value;
      assert KeyAndColon(json, field, a, b, g + "\"" + s);
    }
    if a, b, g, s :| KeyAndColon(json, field, a, b, g + "\"" + s) && '\"' !in g && ReadString(s) == Some(v) {
      KeyFound(json, field, a, b, g + "\"" + s);
      CharFound(g, '\"', s);
    }
  }

  /** The codec reads v if and only if the same holds with nothing but spaces between the colon and the quote. */
  lemma CodecFieldIff(json: string, field: string, v: string)
    ensures CodecField(json, field) == Some(v)
            <==> exists a, b, g, s ::
                   KeyAndColon(json, field, a, b, g + "\"" + s) && (forall c :: c in g ==> IsSpace(c)) && ReadString(s) == Some(v)
  {
    hide ReadString, After, KeyAndColon, IsSpace;
    if CodecField(json, field) == Some(v) {
      var a, b := KeySplit(json, field);
      var t := After(After(json, Quoted(field)).value, ":").value;
      var g := SkipSplit(t);
      var s := SkipSpace(t)[1..];
      assert SkipSpace(t) == "\"" + s;
      assert g + ("\"" + s) == g + "\"" + s;
      assert KeyAndColon(json, field, a, b, g + "\"" + s);
    }
    if a, b, g, s :| KeyAndColon(json, field, a, b, g + "\"" + s) && (forall c :: c in g ==> IsSpace(c)) && ReadString(s) == Some(v) {
      KeyFound(json, field, a, b, g + "\"" + s);
      QuoteIsNoSpace();
      SkipAll(g, "\"" + s);
      assert g + "\"" + s == g + ("\"" + s);
    }
  }

  /** The spaces are those of the C locale: tab, line feed, vertical tab, form feed, carriage return and space. */
  lemma SpaceIs(c: char)
    ensures IsSpace(c) <==> 9 <= c as int <= 13 || c as int == 32
  {
  }

  lemma QuoteIsNoSpace()
    ensures !IsSpace('\"')
  {
  }

  lemma {:induction false} SkipSplit(s: string) returns (g: string)
    ensures s == g + SkipSpace(s) && forall c :: c in g ==> IsSpace(c)
  {
    hide IsSpace;
    g := "";
    if s != "" && IsSpace(s[0]) {
      var h := SkipSplit(s[1..]);
      g := [s[0]] + h;
      assert s == [s[0]] + s[1..];
    }
  }

  lemma {:induction false} SkipAll(g: string, s: string)
    requires (forall c :: c in g ==> IsSpace(c)) && (s == "" || !IsSpace(s[0]))
    ensures SkipSpace(g + s) == s
  {
    hide IsSpace;
    if g == "" {
      assert g + s == s;
    } else {
      assert forall c :: c in g[1..] ==> c in g;
      SkipAll(g[1..], s);
      assert (g + s)[1..] == g[1..] + s;
    }
  }
}
