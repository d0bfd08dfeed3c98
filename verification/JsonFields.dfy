/** What the client reads of a printed object, for every field and whatever the values hold. */
module JsonFields {
  import opened Wrappers
  import opened Json
  import opened JsonTable

  datatype Field = Field(name: string, value: string)

  // The fields in order, with what follows the last of them.
  function Printed(fs: seq<Field>, tail: string): string
    requires fs != []
  {
    Quoted(fs[0].name) + ":\"" + Escape(fs[0].value) + "\"" + (if |fs| == 1 then tail else "," + Printed(fs[1..], tail))
  }

  // Field names are made of small letters and underscores.
  predicate KeyName(name: string) {
    name != "" && forall i :: 0 <= i < |name| ==> 'a' <= name[i] <= 'z' || name[i] == '_'
  }

  predicate EndsWith(s: string, x: string) {
    |x| <= |s| && s[|s| - |x|..] == x
  }

  // The value is the name, or ends with a quote and the name: with its closing quote it looks like the quoted name.
  predicate NameAtEnd(v: string, name: string) {
    v == name || EndsWith(v, "\"" + name)
  }

  // What is found: the field, unless a value before it looks like its name; then the value after that one.
  function Found(fs: seq<Field>, name: string): Option<string> {
    if fs == [] then None
    else if fs[0].name == name then Some(fs[0].value)
    else if NameAtEnd(fs[0].value, name) then (if |fs| > 1 then Some(fs[1].value) else None)
    else Found(fs[1..], name)
  }

  // ----- printing field by field -----

  function Start(name: string): string {
    Quoted(name) + ":\""
  }

  lemma FourPrinted(a: Field, b: Field, c: Field, d: Field, tail: string)
    ensures Printed([a, b, c, d], tail)
            == Start(a.name) + Escape(a.value) + "\"," + (Start(b.name) + Escape(b.value) + "\"," +
               (Start(c.name) + Escape(c.value) + "\"," + (Start(d.name) + Escape(d.value) + "\"" + tail)))
  {
    hide Escape, Quoted;
    assert [a, b, c, d][1..] == [b, c, d] && [b, c, d][1..] == [c, d] && [c, d][1..] == [d];
    PrintedMore(a, [b, c, d], tail);
    PrintedMore(b, [c, d], tail);
    PrintedMore(c, [d], tail);
    hide Printed;
    PrintedLast(d, tail);
  }

  lemma PrintedMore(f: Field, fs: seq<Field>, tail: string)
    requires fs != []
    ensures Printed([f] + fs, tail) == Start(f.name) + Escape(f.value) + "\"," + Printed(fs, tail)
  {
    hide Escape, Quoted;
    assert ([f] + fs)[1..] == fs;
    var t := Printed(fs, tail);
    assert Quoted(f.name) + ":\"" + Escape(f.value) + "\"" + ("," + t) == Quoted(f.name) + ":\"" + Escape(f.value) + "\"," + t;
  }

  lemma PrintedLast(f: Field, tail: string)
    ensures Printed([f], tail) == Start(f.name) + Escape(f.value) + "\"" + tail
  {
  }

  // ----- printed values that end with a name -----

  lemma {:induction false} NamePrintsItself(name: string)
    requires forall i :: 0 <= i < |name| ==> 'a' <= name[i] <= 'z' || name[i] == '_'
    ensures Escape(name) == name
  {
    if name != "" {
      NamePrintsItself(name[1..]);
      assert name == [name[0]] + name[1..];
    }
  }

  lemma EscapeInjective(v: string, w: string)
    requires Escape(v) == Escape(w)
    ensures v == w
  {
    ReadEscape(v, "");
    ReadEscape(w, "");
  }

  lemma IsAsPrinted(v: string, name: string)
    requires KeyName(name) && Escape(v) == name
    ensures v == name
  {
    NamePrintsItself(name);
    EscapeInjective(v, name);
  }

  lemma EndsMore(x: string, y: string, z: string)
    requires |z| <= |y|
    ensures EndsWith(x + y, z) <==> EndsWith(y, z)
  {
    assert (x + y)[|x + y| - |z|..] == y[|y| - |z|..];
  }

  lemma EscapeStep(v: string)
    requires v != ""
    ensures v == [v[0]] + v[1..] && Escape(v) == EscapeChar(v[0]) + Escape(v[1..])
  {
  }

  // A printed value ends with a quote and a name only when the value does.
  lemma {:induction false} EndsAsPrinted(v: string, name: string)
    requires KeyName(name) && EndsWith(Escape(v), "\"" + name)
    ensures EndsWith(v, "\"" + name)
  {
    hide EscapeChar, KeyName, EndsWith, Escape;
    EndsNotEmpty(v, name);
    EscapeStep(v);
    var z := "\"" + name;
    var w := Escape(v[1..]);
    if |w| >= |z| {
      EndsMore(EscapeChar(v[0]), w, z);
      EndsAsPrinted(v[1..], name);
      EndsSame([v[0]], v[1..], z);
    } else {
      QuoteInHead(v[0], w, name);
      IsAsPrinted(v[1..], name);
      EndsWhole(z);
    }
  }

  lemma EndsNotEmpty(v: string, name: string)
    requires EndsWith(Escape(v), "\"" + name)
    ensures v != ""
  {
  }

  lemma EndsSame(x: string, y: string, z: string)
    requires EndsWith(y, z)
    ensures EndsWith(x + y, z)
  {
    EndsMore(x, y, z);
  }

  lemma EndsWhole(z: string)
    ensures EndsWith(z, z)
  {
  }

  lemma QuoteInHead(c: char, w: string, name: string)
    requires |w| <= |name| && EndsWith(EscapeChar(c) + w, "\"" + name)
    ensures c == '\"' && w == name
  {
    hide EscapeChar;
    var t := EscapeChar(c) + w;
    var n := |t| - |name| - 1;
    assert t[n..][0] == '\"';
    assert t[n] == EscapeChar(c)[n];
    QuoteInChar(c, n);
    assert t[n..][1..] == w && ("\"" + name)[1..] == name;
  }

  lemma QuoteInChar(c: char, i: nat)
    requires i < |EscapeChar(c)| && EscapeChar(c)[i] == '\"'
    ensures c == '\"' && i == |EscapeChar(c)| - 1
  {
  }

  lemma EndsSplit(v: string, z: string) returns (x: string)
    requires EndsWith(v, z)
    ensures v == x + z
  {
    x := v[..|v| - |z|];
  }

  lemma QuotedPrints(name: string)
    requires KeyName(name)
    ensures Escape("\"" + name) == "\\" + ("\"" + name)
  {
    NamePrintsItself(name);
    assert ("\"" + name)[1..] == name;
  }

  lemma NameEndsPrinted(v: string, name: string)
    requires KeyName(name) && NameAtEnd(v, name)
    ensures NameAtEnd(Escape(v), name)
  {
    NamePrintsItself(name);
    hide Escape, EndsWith;
    if v != name {
      var z := "\"" + name;
      var x := EndsSplit(v, z);
      EscapeAppend(x, z);
      QuotedPrints(name);
      EndsWhole(z);
      EndsSame("\\", z, z);
      EndsSame(Escape(x), "\\" + z, z);
    }
  }

  // ----- where the quoted name occurs -----

  lemma {:induction false} AfterSkip(x: string, t: string, k: string)
    requires forall j: nat :: j < |x| ==> !OccursAt(x + t, k, j)
    requires k != ""
    ensures After(x + t, k) == After(t, k)
  {
    hide OccursAt;
    if x == "" {
      assert x + t == t;
    } else {
      var s := x + t;
      assert s[1..] == x[1..] + t;
      OccursFirst(s, k);
      forall j: nat | j < |x[1..]| ensures !OccursAt(x[1..] + t, k, j) {
        OccursLater(s, k, j);
      }
      AfterSkip(x[1..], t, k);
      if |s| < |k| { assert After(t, k) == None; }
    }
  }

  lemma SkipTo(x: string, t: string, name: string)
    requires forall j: nat :: j < |x| ==> !OccursAt(x + t, Quoted(name), j)
    ensures ClientField(x + t, name) == ClientField(t, name)
  {
    AfterSkip(x, t, Quoted(name));
  }

  // A match starts and ends with a quote and has no other, nor any character that a name has not.
  lemma MatchLooks(s: string, name: string, j: nat)
    requires KeyName(name) && OccursAt(s, Quoted(name), j)
    ensures var e := j + 1 + |name|;
            && e < |s| && s[j] == '\"' && s[e] == '\"' && s[j + 1..e] == name
            && forall i :: j < i < e ==> 'a' <= s[i] <= 'z' || s[i] == '_'
  {
    var k := Quoted(name);
    var m := s[j..j + |k|];
    assert m == k && s[j] == m[0] && s[j + 1 + |name|] == m[1 + |name|];
    assert m[0] == '\"' && m[1 + |name|] == '\"';
    forall i | j < i < j + 1 + |name| ensures s[i] == name[i - j - 1] {
      assert m[i - j] == k[i - j];
    }
    assert s[j + 1..j + 1 + |name|] == name;
  }

  lemma NotInName(name: string, other: string, t: string, j: nat)
    requires KeyName(name) && KeyName(other) && name != other && j < |other| + 3
    ensures !OccursAt(Quoted(other) + ":" + t, Quoted(name), j)
  {
    var s := Quoted(other) + ":" + t;
    assert s[0] == '\"' && s[1 + |other|] == '\"' && s[2 + |other|] == ':' && s[1..1 + |other|] == other;
    forall i | 0 < i < 1 + |other| ensures s[i] == other[i - 1] {
    }
    if OccursAt(s, Quoted(name), j) { MatchLooks(s, name, j); }
  }

  // The same for a printed value in its quotes, with a comma or a brace behind: a match ends with the closing quote.
  lemma ValueLooks(e: string, t: string)
    requires t != "" && t[0] in ",}"
    ensures var s := "\"" + e + "\"" + t;
            && |s| > |e| + 2 && s[0] == '\"' && s[|e| + 1] == '\"' && (s[|e| + 2] == ',' || s[|e| + 2] == '}') && s[1..|e| + 1] == e
            && forall i :: 0 < i < |e| + 1 ==> s[i] == e[i - 1]
  {
  }

  lemma MatchEnds(e: string, t: string, name: string, j: nat)
    requires KeyName(name) && t != "" && t[0] in ",}" && QuotesEscaped(e)
    requires j < |e| + 2 && OccursAt("\"" + e + "\"" + t, Quoted(name), j)
    ensures j + |name| == |e| && e[j..] == name && (j > 0 ==> e[j - 1] == '\"')
  {
    hide OccursAt, Quoted, QuotesEscaped;
    var s := "\"" + e + "\"" + t;
    MatchLooks(s, name, j);
    ValueLooks(e, t);
    var last := j + 1 + |name|;
    if last < |e| + 1 {
      QuotesEscapedAt(e, last - 1);
    }
    assert last == |e| + 1;
    assert e[j..] == s[1..|e| + 1][j..] == s[j + 1..last];
  }

  lemma MatchInValue(v: string, t: string, name: string, j: nat)
    requires KeyName(name) && t != "" && t[0] in ",}"
    requires j < |Escape(v)| + 2 && OccursAt("\"" + Escape(v) + "\"" + t, Quoted(name), j)
    ensures j + |name| == |Escape(v)| && NameAtEnd(v, name)
  {
    hide OccursAt, Quoted, KeyName, QuotesEscaped;
    var e := Escape(v);
    EscapeQuotes(v);
    MatchEnds(e, t, name, j);
    if j == 0 {
      IsAsPrinted(v, name);
    } else {
      assert e[|e| - |name| - 1..] == "\"" + name;
      EndsAsPrinted(v, name);
    }
  }

  // ----- what is read -----

  lemma ColonThenValue(x: string, v: string, t: string)
    requires ':' !in x
    ensures var s := x + ":\"" + Escape(v) + "\"" + t;
            exists b, c :: After(s, ":") == Some(b) && After(b, "\"") == Some(c) && ReadString(c) == Some(v)
  {
    hide Escape, ReadString, After;
    var c := Escape(v) + "\"" + t;
    var b := "\"" + c;
    assert x + ":\"" + Escape(v) + "\"" + t == x + ":" + b;
    CharFound(x, ':', b);
    assert "" + "\"" + c == b;
    CharFound("", '\"', c);
    ReadEscape(v, t);
  }

  lemma OwnField(f: Field, t: string)
    ensures ClientField(Quoted(f.name) + ":\"" + Escape(f.value) + "\"" + t, f.name) == Some(f.value)
  {
    var k := Quoted(f.name);
    var a := ":\"" + Escape(f.value) + "\"" + t;
    var s := k + ":\"" + Escape(f.value) + "\"" + t;
    assert s == k + a && (k + a)[..|k|] == k && (k + a)[|k|..] == a;
    ColonThenValue("", f.value, t);
    assert "" + ":\"" + Escape(f.value) + "\"" + t == a;
  }

  // Behind a value that looks like the name, the next field's value is read.
  lemma ValueTaken(v: string, next: Field, t: string, name: string)
    requires KeyName(name) && KeyName(next.name) && NameAtEnd(v, name)
    ensures ClientField("\"" + Escape(v) + "\"" + ("," + Quoted(next.name) + ":\"" + Escape(next.value) + "\"" + t), name)
            == Some(next.value)
  {
    var e := Escape(v);
    var rest := "," + Quoted(next.name) + ":\"" + Escape(next.value) + "\"" + t;
    var s := "\"" + e + "\"" + rest;
    var k := Quoted(name);
    var i := |e| - |name|;
    NameEndsPrinted(v, name);
    assert s[i..i + |k|] == k && s[i + |k|..] == rest by { NameLast(e, rest, name); }
    forall j: nat | j < i ensures !OccursAt(s, k, j) {
      if OccursAt(s, k, j) { MatchInValue(v, rest, name, j); }
    }
    AfterIsFirst(s, k, i);
    assert ':' !in "," + Quoted(next.name);
    ColonThenValue("," + Quoted(next.name), next.value, t);
  }

  lemma NameLast(e: string, rest: string, name: string)
    requires NameAtEnd(e, name)
    ensures var s := "\"" + e + "\"" + rest; var i := |e| - |name|; var n := |Quoted(name)|;
            i + n <= |s| && s[i..i + n] == Quoted(name) && s[i + n..] == rest
  {
    var s := "\"" + e + "\"" + rest;
    var i := |e| - |name|;
    if e != name {
      assert e == e[..i - 1] + ("\"" + name);
      assert s == ("\"" + e[..i - 1]) + (Quoted(name) + rest);
    } else {
      assert s == Quoted(name) + rest;
    }
  }

  lemma ValuePassed(v: string, t: string, name: string)
    requires KeyName(name) && !NameAtEnd(v, name) && t != "" && t[0] in ",}"
    ensures ClientField("\"" + Escape(v) + "\"" + t, name) == ClientField(t, name)
  {
    var x := "\"" + Escape(v) + "\"";
    forall j: nat | j < |x| ensures !OccursAt(x + t, Quoted(name), j) {
      if OccursAt(x + t, Quoted(name), j) { MatchInValue(v, t, name, j); }
    }
    SkipTo(x, t, name);
  }

  lemma NamePassed(other: string, t: string, name: string)
    requires KeyName(name) && KeyName(other) && name != other
    ensures ClientField(Quoted(other) + ":" + t, name) == ClientField(t, name)
  {
    var x := Quoted(other) + ":";
    forall j: nat | j < |x| ensures !OccursAt(x + t, Quoted(name), j) {
      NotInName(name, other, t, j);
    }
    SkipTo(x, t, name);
  }

  // An opening without a quote cannot be part of a match.
  lemma PlainOpening(front: string, t: string, name: string)
    requires '\"' !in front
    ensures ClientField(front + t, name) == ClientField(t, name)
  {
    var k := Quoted(name);
    forall j: nat | j < |front| ensures !OccursAt(front + t, k, j) {
      assert (front + t)[j] == front[j] && front[j] in front;
      assert j + |k| <= |front + t| ==> (front + t)[j..j + |k|][0] == front[j];
    }
    SkipTo(front, t, name);
  }

  /** Of any printed object, with any number of fields and any values, the client reads a field exactly as found here. */
  lemma {:induction false} PrintedReads(fs: seq<Field>, tail: string, name: string)
    requires fs != [] && KeyName(name) && (forall f :: f in fs ==> KeyName(f.name)) && tail != "" && tail[0] in ",}"
    requires Found(fs, name).Some?
    ensures ClientField(Printed(fs, tail), name) == Found(fs, name)
  {
    hide ClientField, Escape, Quoted, KeyName, NameAtEnd;
    var f := fs[0];
    var rest := if |fs| == 1 then tail else "," + Printed(fs[1..], tail);
    var value := "\"" + Escape(f.value) + "\"" + rest;
    assert Printed(fs, tail) == Quoted(f.name) + ":\"" + Escape(f.value) + "\"" + rest;
    assert Printed(fs, tail) == Quoted(f.name) + ":" + value;
    if f.name == name {
      OwnField(f, rest);
    } else {
      assert fs[1..] != [];
      NamePassed(f.name, value, name);
      if NameAtEnd(f.value, name) {
        var g := fs[1];
        var t := if |fs| == 2 then tail else "," + Printed(fs[2..], tail);
        assert fs[1..][1..] == fs[2..];
        assert "," + (Quoted(g.name) + ":\"" + Escape(g.value) + "\"" + t) == "," + Quoted(g.name) + ":\"" + Escape(g.value) + "\"" + t;
        ValueTaken(f.value, g, t, name);
      } else {
        ValuePassed(f.value, rest, name);
        PlainOpening(",", Printed(fs[1..], tail), name);
        PrintedReads(fs[1..], tail, name);
      }
    }
  }

  // A match that starts before a comma ends before it.
  lemma InsideOpening(front: string, t: string, name: string, j: nat)
    requires front != "" && front[|front| - 1] == ',' && KeyName(name) && j < |front| && OccursAt(front + t, Quoted(name), j)
    ensures OccursAt(front, Quoted(name), j)
  {
    hide OccursAt, Quoted, KeyName;
    var s := front + t;
    MatchLooks(s, name, j);
    assert s[|front| - 1] == ',' && s[..|front|] == front;
    NameQuoted(name);
    InPrefix(s, |front|, Quoted(name), j);
  }

  lemma NameQuoted(name: string)
    ensures |Quoted(name)| == |name| + 2
  {
  }

  // The same behind an opening that holds no match.
  lemma OpenedReads(front: string, fs: seq<Field>, tail: string, name: string)
    requires fs != [] && KeyName(name) && (forall f :: f in fs ==> KeyName(f.name)) && tail != "" && tail[0] in ",}"
    requires Found(fs, name).Some? && (forall j: nat :: !OccursAt(front, Quoted(name), j))
    requires front != "" && front[|front| - 1] == ','
    ensures ClientField(front + Printed(fs, tail), name) == Found(fs, name)
  {
    hide Printed, ClientField, OccursAt;
    var t := Printed(fs, tail);
    forall j: nat | j < |front| ensures !OccursAt(front + t, Quoted(name), j) {
      if OccursAt(front + t, Quoted(name), j) { InsideOpening(front, t, name, j); }
    }
    SkipTo(front, t, name);
    PrintedReads(fs, tail, name);
  }
}
