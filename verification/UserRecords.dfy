/** The user file: one JSON object a line, written on registration and read back at start-up. */
module UserRecords {
  import opened Wrappers
  import opened Json

  datatype StoredUser = StoredUser(username: string, role: string, salt: string, passwordHash: string)

  function PrintField(name: string, value: string): string {
    "\"" + name + "\":\"" + Escape(value) + "\""
  }

  function PrintUser(u: StoredUser): string {
    "{" + PrintField("username", u.username) +
    ("," + PrintField("role", u.role) +
     ("," + PrintField("salt", u.salt) +
      ("," + PrintField("password_hash", u.passwordHash) + "}")))
  }

  function ParseUser(line: string): Option<StoredUser> {
    match (CodecField(line, "username"), CodecField(line, "role"), CodecField(line, "salt"), CodecField(line, "password_hash"))
    case (Some(username), Some(role), Some(salt), Some(hash)) => Some(StoredUser(username, role, salt, hash))
    case _ => None
  }

  // ----- texts without characters that JSON or the search treats specially -----

  predicate Plain(s: string) {
    forall c :: c in s ==> c !in "\"\\\n\r\t:"
  }

  lemma {:induction false} EscapePlain(s: string)
    requires Plain(s)
    ensures Escape(s) == s
  {
    if s != "" {
      assert s[0] in s && s == [s[0]] + s[1..];
      EscapePlain(s[1..]);
    }
  }

  lemma {:induction false} ReadPlain(s: string, rest: string)
    requires Plain(s)
    ensures ReadString(s + "\"" + rest) == Some(s)
  {
    EscapePlain(s);
    ReadEscape(s, rest);
  }

  // ----- text as pieces between quotes -----

  function Join(p: seq<string>): string
    requires p != []
  {
    if |p| == 1 then p[0] else p[0] + "\"" + Join(p[1..])
  }

  predicate QuoteFree(s: string) {
    '\"' !in s
  }

  lemma {:induction false} SkipQuoteFree(x: string, t: string, k: string)
    requires QuoteFree(x) && k != "" && k[0] == '\"'
    ensures After(x + t, k) == After(t, k)
  {
    if x == "" {
      assert x + t == t;
    } else {
      SkipQuoteFree(x[1..], t, k);
      assert (x + t)[1..] == x[1..] + t;
      assert (x + t)[0] == x[0] && x[0] in x;
      if |k| <= |x + t| { assert (x + t)[..|k|][0] == (x + t)[0]; }
      if |x + t| < |k| { AfterShort(t, k); }
    }
  }

  lemma AfterShort(t: string, k: string)
    requires |t| < |k|
    ensures After(t, k) == None
  {
  }

  // "q" followed by a quote starts with "field" followed by a quote only when they are equal.
  lemma SamePiece(q: string, rest: string, field: string)
    requires QuoteFree(q) && QuoteFree(field)
    requires |field| + 1 <= |q + "\"" + rest| && (q + "\"" + rest)[..|field| + 1] == field + "\""
    ensures q == field
  {
    var t := q + "\"" + rest;
    forall i | 0 <= i < |q| ensures t[i] != '\"' {
      assert t[i] == q[i] && q[i] in q;
    }
    forall i | 0 <= i < |field| ensures t[i] != '\"' {
      assert t[i] == t[..|field| + 1][i] == field[i] && field[i] in field;
    }
    assert t[|q|] == '\"' && t[..|field| + 1][|field|] == '\"';
    assert t[..|field| + 1][..|field|] == field;
  }

  // A quoted name occurs exactly where a whole piece, with a quote on either side, equals it.
  lemma AfterPiece(p: seq<string>, field: string)
    requires p != [] && QuoteFree(field) && forall i :: 0 <= i < |p| ==> QuoteFree(p[i])
    ensures After(Join(p), Quoted(field)) ==
            if |p| < 3 then None
            else if p[1] == field then Some(Join(p[2..]))
            else After(Join(p[1..]), Quoted(field))
  {
    hide After, QuoteFree, Join;
    var k := Quoted(field);
    assert k[0] == '\"';
    if |p| == 1 {
      JoinOne(p[0]);
      NoneInEmpty(k);
      SkipQuoteFree(p[0], "", k);
      assert p == [p[0]] && p[0] + "" == p[0];
    } else {
      var j := Join(p[1..]);
      var t := "\"" + j;
      JoinStep(p);
      SkipQuoteFree(p[0], t, k);
      if |p| == 2 {
        JoinOne(p[1]);
        assert p[1..] == [p[1]];
        OnePiece(p[1], field);
      } else {
        JoinStep(p[1..]);
        assert p[1..][1..] == p[2..];
        KeyOrNot(p[1], Join(p[2..]), field);
      }
    }
  }

  lemma JoinStep(p: seq<string>)
    requires |p| > 1
    ensures Join(p) == p[0] + ("\"" + Join(p[1..])) == p[0] + "\"" + Join(p[1..])
  {
  }

  lemma JoinOne(s: string)
    ensures Join([s]) == s
  {
  }

  lemma NoneInEmpty(k: string)
    requires k != ""
    ensures After("", k) == None
  {
  }

  lemma OnePiece(q: string, field: string)
    requires QuoteFree(q)
    ensures After("\"" + q, Quoted(field)) == None
  {
    var k := Quoted(field);
    var t := "\"" + q;
    if |k| <= |t| {
      assert t[..|k|][|k| - 1] == q[|k| - 2] && q[|k| - 2] in q;
    }
    assert t[1..] == q;
    SkipQuoteFree(q, "", k);
    assert q + "" == q;
  }

  lemma KeyOrNot(q: string, rest: string, field: string)
    requires QuoteFree(q) && QuoteFree(field)
    ensures var j := q + "\"" + rest;
            After("\"" + j, Quoted(field)) == if q == field then Some(rest) else After(j, Quoted(field))
  {
    var k := Quoted(field);
    var j := q + "\"" + rest;
    var t := "\"" + j;
    assert t[1..] == j;
    if q == field {
      assert t[..|k|] == k && t[|k|..] == rest;
    } else if |k| <= |t| {
      if t[..|k|] == k {
        assert j[..|field| + 1] == t[..|k|][1..] == k[1..] == field + "\"";
        SamePiece(q, rest, field);
      }
    } else {
      AfterShort(j, k);
    }
  }

  // What follows the first quoted occurrence of the name, and what follows the first colon after that.

  lemma {:induction false} AfterName(p: seq<string>, field: string, j: nat)
    requires 0 < j < |p| - 1 && QuoteFree(field) && forall i :: 0 <= i < |p| ==> QuoteFree(p[i])
    requires p[j] == field && forall i :: 0 < i < j ==> p[i] != field
    ensures After(Join(p), Quoted(field)) == Some(Join(p[j + 1..]))
  {
    AfterPiece(p, field);
    if j > 1 {
      AfterName(p[1..], field, j - 1);
      assert p[1..][j..] == p[j + 1..];
    }
  }

  lemma {:induction false} SkipColonFree(x: string, t: string)
    requires ':' !in x
    ensures After(x + t, ":") == After(t, ":")
  {
    if x == "" {
      assert x + t == t;
    } else {
      SkipColonFree(x[1..], t);
      assert (x + t)[1..] == x[1..] + t;
      assert (x + t)[..1] == [x[0]] && x[0] in x;
    }
  }

  lemma {:induction false} AfterColon(p: seq<string>, k: nat)
    requires k < |p| - 1 && p[k] == ":" && forall i :: 0 <= i < k ==> ':' !in p[i]
    ensures After(Join(p), ":") == Some("\"" + Join(p[k + 1..]))
  {
    var t := "\"" + Join(p[1..]);
    assert Join(p) == p[0] + t;
    if k == 0 {
      assert (":" + t)[..1] == ":" && (":" + t)[1..] == t;
    } else {
      AfterColon(p[1..], k - 1);
      assert p[1..][k..] == p[k + 1..];
      assert p[0] + t == (p[0] + "\"") + Join(p[1..]);
      SkipColonFree(p[0] + "\"", Join(p[1..]));
    }
  }

  /** In text made of quote-free pieces, the codec reads the piece after the first colon that follows
      the first whole piece equal to the name. */
  lemma FieldFromPieces(p: seq<string>, field: string, j: nat, k: nat)
    requires QuoteFree(field) && forall i :: 0 <= i < |p| ==> QuoteFree(p[i])
    requires 0 < j < k < |p| - 2
    requires p[j] == field && forall i :: 0 < i < j ==> p[i] != field
    requires p[k] == ":" && forall i :: j < i < k ==> ':' !in p[i]
    requires Plain(p[k + 1])
    ensures CodecField(Join(p), field) == Some(p[k + 1])
  {
    hide *;
    AfterName(p, field, j);
    ColonFrom(p, j + 1, k);
    var v := p[k + 1..];
    assert |v| >= 2 && v[0] == p[k + 1];
    CodecFrom(Join(p), field, Join(p[j + 1..]), v);
  }

  lemma ColonFrom(p: seq<string>, n: nat, k: nat)
    requires n <= k < |p| - 1 && p[k] == ":" && forall i :: n <= i < k ==> ':' !in p[i]
    ensures After(Join(p[n..]), ":") == Some("\"" + Join(p[k + 1..]))
  {
    var q := p[n..];
    forall i | 0 <= i < k - n ensures ':' !in q[i] {
      assert q[i] == p[n + i];
    }
    AfterColon(q, k - n);
    assert q[k - n + 1..] == p[k + 1..];
  }

  lemma CodecFrom(json: string, field: string, a: string, v: seq<string>)
    requires |v| >= 2 && Plain(v[0])
    requires After(json, Quoted(field)) == Some(a) && After(a, ":") == Some("\"" + Join(v))
    ensures CodecField(json, field) == Some(v[0])
  {
    hide After, Quoted;
    ReadFirst(v);
  }

  lemma ReadFirst(v: seq<string>)
    requires |v| >= 2 && Plain(v[0])
    ensures var c := SkipSpace("\"" + Join(v)); c != "" && c[0] == '\"' && ReadString(c[1..]) == Some(v[0])
  {
    assert Join(v) == v[0] + "\"" + Join(v[1..]);
    ReadPlain(v[0], Join(v[1..]));
    assert ("\"" + Join(v))[1..] == Join(v);
  }

  // ----- a user line -----

  predicate PlainUser(u: StoredUser) {
    Plain(u.username) && Plain(u.role) && Plain(u.salt) && Plain(u.passwordHash)
  }

  // The pieces of a printed user behind the first, which is a brace.
  function Tail(u: StoredUser): seq<string> {
    ["username", ":", u.username, ",", "role", ":", u.role, ",",
     "salt", ":", u.salt, ",", "password_hash", ":", u.passwordHash, "}"]
  }

  lemma PlainIsQuoteFree(s: string)
    requires Plain(s)
    ensures QuoteFree(s) && ':' !in s
  {
  }

  // What the reader makes of a printed user: a username that is itself a later key name captures that field.
  function Misread(u: StoredUser): StoredUser {
    StoredUser(u.username, u.role,
               if u.username == "salt" then u.role else u.salt,
               if u.username == "password_hash" then u.role else u.passwordHash)
  }

  lemma TailQuoteFree(u: StoredUser)
    requires PlainUser(u)
    ensures forall i :: 0 <= i < |Tail(u)| ==> QuoteFree(Tail(u)[i])
    ensures ':' !in u.username && ':' !in u.role
  {
    PlainIsQuoteFree(u.username);
    PlainIsQuoteFree(u.role);
    PlainIsQuoteFree(u.salt);
    PlainIsQuoteFree(u.passwordHash);
  }

  // Pieces that may stand before a printed user on its line without disturbing the reader.
  ghost predicate Harmless(front: seq<string>) {
    && front != []
    && (forall i :: 0 <= i < |front| ==> QuoteFree(front[i]) && ':' !in front[i])
    && (forall i :: 0 < i < |front| ==> front[i] != "role" && front[i] != "salt" && front[i] != "password_hash")
    && (forall i :: 1 < i < |front| ==> front[i] != "username")
  }

  lemma WholeQuoteFree(front: seq<string>, u: StoredUser)
    requires PlainUser(u) && Harmless(front)
    ensures var p := front + Tail(u); forall i :: 0 <= i < |p| ==> QuoteFree(p[i])
  {
    hide QuoteFree;
    TailQuoteFree(u);
    var p := front + Tail(u);
    forall i | 0 <= i < |p| ensures QuoteFree(p[i]) {
      if i >= |front| { assert p[i] == Tail(u)[i - |front|]; }
    }
  }

  lemma NamesQuoteFree()
    ensures QuoteFree("username") && QuoteFree("role") && QuoteFree("salt") && QuoteFree("password_hash")
  {
  }

  // Field number f of the tail, read from piece m on, where its name first stands at piece j.
  lemma ReadField(front: seq<string>, u: StoredUser, field: string, j: nat, k: nat)
    requires PlainUser(u) && Harmless(front) && QuoteFree(field)
    requires var p := front + Tail(u);
             && 0 < j < |front| + k && k < 14 && p[j] == field && (forall i :: 0 < i < j ==> p[i] != field)
             && Tail(u)[k] == ":" && (forall i :: j < i < |front| + k ==> ':' !in p[i]) && Plain(Tail(u)[k + 1])
    ensures CodecField(Join(front + Tail(u)), field) == Some(Tail(u)[k + 1])
  {
    hide CodecField, Join, Plain, QuoteFree, Tail;
    WholeQuoteFree(front, u);
    TailSize(u);
    var p := front + Tail(u);
    assert p[|front| + k] == Tail(u)[k] && p[|front| + k + 1] == Tail(u)[k + 1];
    FieldFromPieces(p, field, j, |front| + k);
  }

  lemma TailSize(u: StoredUser)
    ensures |Tail(u)| == 16
  {
  }

  lemma ReadName(front: seq<string>, u: StoredUser)
    requires PlainUser(u) && u.role == "user" && Harmless(front)
    ensures CodecField(Join(front + Tail(u)), "username") == Some(u.username)
  {
    hide CodecField, Join, Plain, QuoteFree;
    NamesQuoteFree();
    var p, n := front + Tail(u), |front|;
    assert p[n] == "username";
    ReadField(front, u, "username", if n > 1 && front[1] == "username" then 1 else n, 1);
  }

  lemma ReadRole(front: seq<string>, u: StoredUser)
    requires PlainUser(u) && u.role == "user" && Harmless(front)
    ensures CodecField(Join(front + Tail(u)), "role") == Some(u.role)
  {
    hide CodecField, Join, Plain, QuoteFree;
    NamesQuoteFree();
    TailQuoteFree(u);
    var p, n := front + Tail(u), |front|;
    assert p[n..] == Tail(u);
    TailFrom(front, u, n + 5);
    ReadField(front, u, "role", if u.username == "role" then n + 2 else n + 4, 5);
  }

  // The first pieces of the whole, by number.
  lemma TailFrom(front: seq<string>, u: StoredUser, m: nat)
    requires m <= |front| + 16
    ensures var p := front + Tail(u); forall i :: |front| <= i < m ==> p[i] == Tail(u)[i - |front|]
  {
  }

  lemma ReadSalt(front: seq<string>, u: StoredUser)
    requires PlainUser(u) && u.role == "user" && Harmless(front)
    ensures CodecField(Join(front + Tail(u)), "salt") == Some(Misread(u).salt)
  {
    hide CodecField, Join, Plain, QuoteFree;
    NamesQuoteFree();
    TailQuoteFree(u);
    var n := |front|;
    TailFrom(front, u, n + 10);
    if u.username == "salt" {
      ReadField(front, u, "salt", n + 2, 5);
    } else {
      ReadField(front, u, "salt", n + 8, 9);
    }
  }

  lemma ReadHash(front: seq<string>, u: StoredUser)
    requires PlainUser(u) && u.role == "user" && u.salt != "password_hash" && Harmless(front)
    ensures CodecField(Join(front + Tail(u)), "password_hash") == Some(Misread(u).passwordHash)
  {
    hide CodecField, Join, Plain, QuoteFree;
    NamesQuoteFree();
    TailQuoteFree(u);
    var n := |front|;
    TailFrom(front, u, n + 14);
    if u.username == "password_hash" {
      ReadField(front, u, "password_hash", n + 2, 5);
    } else {
      ReadField(front, u, "password_hash", n + 12, 13);
    }
  }

  lemma JoinField(front: string, name: string, value: string, tail: seq<string>)
    requires tail != [] && Plain(value)
    ensures Join([front, name, ":", value] + tail) == front + PrintField(name, value) + Join(tail)
  {
    hide Join;
    EscapePlain(value);
    var p3 := [value] + tail;
    var p2 := [":"] + p3;
    var p1 := [name] + p2;
    JoinCons(value, tail);
    JoinCons(":", p3);
    JoinCons(name, p2);
    JoinCons(front, p1);
    assert [front, name, ":", value] + tail == [front] + p1;
    FieldText(front, name, value, Join(tail));
  }

  lemma JoinCons(x: string, tail: seq<string>)
    requires tail != []
    ensures Join([x] + tail) == x + "\"" + Join(tail)
  {
    assert ([x] + tail)[1..] == tail;
  }

  lemma FieldText(front: string, name: string, value: string, rest: string)
    requires Plain(value) && Escape(value) == value
    ensures front + "\"" + (name + "\"" + (":" + "\"" + (value + "\"" + rest))) == front + PrintField(name, value) + rest
  {
    hide Plain, Escape;
  }

  lemma PrintIsPieces(u: StoredUser)
    requires PlainUser(u)
    ensures PrintUser(u) == Join(["{"] + Tail(u)) == "{\"" + Join(Tail(u))
  {
    hide Join, PrintField;
    var p4 := [",", "password_hash", ":", u.passwordHash] + ["}"];
    var p3 := [",", "salt", ":", u.salt] + p4;
    var p2 := [",", "role", ":", u.role] + p3;
    JoinOne("}");
    JoinField(",", "password_hash", u.passwordHash, ["}"]);
    JoinField(",", "salt", u.salt, p4);
    JoinField(",", "role", u.role, p3);
    JoinField("{", "username", u.username, p2);
    var whole := ["{"] + Tail(u);
    assert whole == ["{", "username", ":", u.username] + p2;
    JoinStep(whole);
    assert whole[1..] == Tail(u);
  }

  /** A printed user behind harmless pieces is read back as misread. */
  lemma ReadAfter(front: seq<string>, u: StoredUser)
    requires PlainUser(u) && u.role == "user" && u.salt != "password_hash" && Harmless(front)
    ensures ParseUser(Join(front + Tail(u))) == Some(Misread(u))
  {
    hide CodecField, Join, Plain, Tail;
    ReadName(front, u);
    ReadRole(front, u);
    ReadSalt(front, u);
    ReadHash(front, u);
  }

  lemma ReadPieces(u: StoredUser)
    requires PlainUser(u) && u.role == "user" && u.salt != "password_hash"
    ensures ParseUser(PrintUser(u)) == Some(Misread(u))
  {
    hide Join, Plain, PrintUser, ParseUser, Tail, Misread;
    PrintIsPieces(u);
    ReadAfter(["{"], u);
  }

  // ----- a line that begins with part of another -----

  lemma {:induction false} JoinAppend(a: seq<string>, b: seq<string>)
    requires a != [] && b != []
    ensures Join(a + b) == Join(a) + "\"" + Join(b)
  {
    if |a| == 1 {
      assert (a + b)[1..] == b;
    } else {
      JoinAppend(a[1..], b);
      assert (a + b)[1..] == a[1..] + b;
    }
  }

  // The pieces that the first n characters of a printed user and the brace of the next make, up to its first key.
  function FrontOf(n: nat): seq<string>
    requires 0 < n <= 11
  {
    if n == 1 then ["{{"]
    else if n <= 10 then ["{", "username"[..n - 2] + "{"]
    else ["{", "username", "{"]
  }

  lemma FrontHarmless(n: nat)
    requires 0 < n <= 11
    ensures Harmless(FrontOf(n)) && Join(FrontOf(n)) == "{\"username\""[..n] + "{"
  {
    hide Join, Harmless;
    if n == 1 {
      FrontOne();
    } else if n == 11 {
      FrontEleven();
    } else {
      FrontPart(n);
    }
  }

  lemma FrontOne()
    ensures Harmless(["{{"]) && Join(["{{"]) == "{\"username\""[..1] + "{"
  {
  }

  lemma FrontPart(n: nat)
    requires 2 <= n <= 10
    ensures var front := ["{", "username"[..n - 2] + "{"];
            Harmless(front) && Join(front) == "{\"username\""[..n] + "{"
  {
    var part := "username"[..n - 2];
    PartPlain(part, n);
    JoinTwo("{", part + "{");
    hide Join;
  }

  lemma FrontEleven()
    ensures var front := ["{", "username", "{"];
            Harmless(front) && Join(front) == "{\"username\""[..11] + "{"
  {
    var front := ["{", "username", "{"];
    assert front[1..] == ["username", "{"];
    JoinTwo("username", "{");
    JoinStep(front);
    hide Join;
  }

  lemma PartPlain(part: string, n: nat)
    requires part == if 2 <= n <= 10 then "username"[..n - 2] else ""
    ensures QuoteFree(part + "{") && ':' !in part + "{" && '{' in part + "{"
    ensures 2 <= n <= 10 ==> "{\"username\""[..n] == "{\"" + part
  {
    assert (part + "{")[|part|] == '{';
    assert forall c :: c in part ==> c in "username";
    assert '\"' !in "username" && ':' !in "username";
  }

  lemma JoinTwo(a: string, b: string)
    ensures Join([a, b]) == a + "\"" + b
  {
    assert [a, b][1..] == [b];
  }

  lemma PrintStarts(u: StoredUser)
    ensures |PrintUser(u)| >= 13 && PrintUser(u)[..13] == "{\"username\":\""
    ensures PrintUser(u)[..11] == "{\"username\""
  {
    hide Escape;
    var rest := Escape(u.username) + "\"" + ("," + PrintField("role", u.role) + ("," + PrintField("salt", u.salt) +
                ("," + PrintField("password_hash", u.passwordHash) + "}")));
    assert PrintUser(u) == "{\"username\":\"" + rest;
  }

  /** Behind at most eleven characters of another line, that is before its first colon, a user is read back as usual. */
  lemma ReadAfterFew(u: StoredUser, v: StoredUser, n: nat)
    requires n <= 11 && PlainUser(v) && v.role == "user" && v.salt != "password_hash"
    ensures n <= |PrintUser(u)| && ParseUser(PrintUser(u)[..n] + PrintUser(v)) == Some(Misread(v))
  {
    hide Join, Plain, PrintUser, ParseUser, Tail, Misread, FrontOf;
    PrintStarts(u);
    var p, t := PrintUser(u)[..n], PrintUser(v);
    if n == 0 {
      assert p + t == t;
      ReadPieces(v);
    } else {
      assert p == PrintUser(u)[..11][..n];
      FrontHarmless(n);
      PrintIsPieces(v);
      TailSize(v);
      JoinAppend(FrontOf(n), Tail(v));
      assert p + ("{\"" + Join(Tail(v))) == p + "{" + "\"" + Join(Tail(v));
      ReadAfter(FrontOf(n), v);
    }
  }

  // A line's first key.
  lemma FirstKey(after: string)
    ensures After("{\"username\"" + after, Quoted("username")) == Some(after)
  {
    hide After;
    NamesQuoteFree();
    KeyOrNot("username", after, "username");
    var text := "\"" + ("username" + "\"" + after);
    assert "{\"username\"" + after == "{" + text;
    SkipQuoteFree("{", text, Quoted("username"));
  }

  lemma ColonFirst(s: string)
    ensures After(":" + s, ":") == Some(s)
  {
    assert (":" + s)[..1] == ":" && (":" + s)[1..] == s;
  }

  // A name behind the first key of a line, with its closing quote.
  lemma NameRead(w: string, rest: string)
    requires Plain(w)
    ensures CodecField("{\"username\":\"" + w + "\"" + rest, "username") == Some(w)
  {
    hide After, Quoted, ReadString, Plain;
    var value := w + "\"" + rest;
    FirstKey(":\"" + value);
    assert "{\"username\":\"" + w + "\"" + rest == "{\"username\"" + (":\"" + value);
    ColonFirst("\"" + value);
    assert ":\"" + value == ":" + ("\"" + value) && ("\"" + value)[1..] == value;
    ReadPlain(w, rest);
  }

  // A first key whose colon is followed by a brace.
  lemma NameBroken(rest: string)
    ensures CodecField("{\"username\":{" + rest, "username") == None
  {
    hide After, Quoted, ReadString;
    FirstKey(":{" + rest);
    assert "{\"username\":{" + rest == "{\"username\"" + (":{" + rest);
    ColonFirst("{" + rest);
    assert ":{" + rest == ":" + ("{" + rest);
  }

  /** Behind twelve characters or more, but no line break, the line is not read as that user: it is not read at all,
      or under a name that is broken or the other's. */
  lemma LostAfterMore(u: StoredUser, v: StoredUser, n: nat)
    requires 12 <= n <= |PrintUser(u)| && PlainUser(u) && PlainUser(v)
    requires '{' !in v.username && u.username != v.username
    ensures CodecField(PrintUser(u)[..n] + PrintUser(v), "username") != Some(v.username)
  {
    hide CodecField, PrintUser, Join, Plain;
    PrintIsPieces(v);
    var t, rest := PrintUser(v), Join(Tail(v));
    var p := PrintUser(u)[..n];
    PrintStarts(u);
    if n == 12 {
      assert p == PrintUser(u)[..13][..12];
      NameBroken("\"" + rest);
      assert p + t == "{\"username\":{" + ("\"" + rest);
    } else {
      var more := NameThenMore(u);
      var m := n - 13;
      var w := u.username;
      if m <= |w| {
        assert p == "{\"username\":\"" + w[..m];
        PlainPart(w, m);
        NameRead(w[..m] + "{", rest);
        assert p + t == "{\"username\":\"" + (w[..m] + "{") + "\"" + rest;
        assert (w[..m] + "{")[m] == '{';
      } else {
        var behind := more[..m - |w| - 1];
        assert p == "{\"username\":\"" + w + "\"" + behind;
        NameRead(w, behind + t);
        assert p + t == "{\"username\":\"" + w + "\"" + (behind + t);
      }
    }
  }

  lemma NameThenMore(u: StoredUser) returns (more: string)
    requires PlainUser(u)
    ensures PrintUser(u) == "{\"username\":\"" + u.username + "\"" + more
  {
    EscapePlain(u.username);
    hide Escape, Plain;
    more := "," + PrintField("role", u.role) + ("," + PrintField("salt", u.salt) +
            ("," + PrintField("password_hash", u.passwordHash) + "}"));
  }

  lemma PlainPart(w: string, m: nat)
    requires Plain(w) && m <= |w|
    ensures Plain(w[..m] + "{")
  {
    assert forall c :: c in w[..m] ==> c in w;
  }
}
