/** How the file of users is cut into lines, and what loading them makes of it. */
module UserFiles {
  import opened Wrappers
  import opened Json
  import opened JsonTable
  import opened JsonFields
  import opened UserRecords
  import opened UserStores

  // ----- lines -----

  function Unlines(lines: seq<string>): string {
    if lines == [] then "" else lines[0] + "\n" + Unlines(lines[1..])
  }

  /** The lines have no line break in them, and each followed by one they are the text, except that the last line of the text
      may lack its own. */
  lemma {:induction false} LinesAreText(s: string)
    ensures forall i :: 0 <= i < |Lines(s)| ==> '\n' !in Lines(s)[i]
    ensures Unlines(Lines(s)) == if s == "" || s[|s| - 1] == '\n' then s else s + "\n"
    decreases |s|
  {
    if s != "" {
      match After(s, "\n")
      case None => WholeLine(s);
      case Some(rest) =>
        var b := CharSplit(s, '\n');
        assert b == s[..|s| - |rest| - 1];
        LinesAreText(rest);
        assert Lines(s)[1..] == Lines(rest);
        assert rest != "" ==> rest[|rest| - 1] == s[|s| - 1];
        if rest == "" {
          assert s == b + ['\n'];
        } else if s[|s| - 1] != '\n' {
          assert b + "\n" + (rest + "\n") == s + "\n";
        }
    }
  }

  lemma BreakFound(s: string)
    ensures '\n' in s ==> After(s, "\n").Some?
  {
    if '\n' in s {
      var i :| 0 <= i < |s| && s[i] == '\n';
      assert s[i..i + 1] == "\n" && OccursAt(s, "\n", i);
      var j := FirstMatch(s, "\n", i);
      AfterIsFirst(s, "\n", j);
    }
  }

  lemma WholeLine(s: string)
    requires s != "" && After(s, "\n") == None
    ensures '\n' !in s && Lines(s) == [s] && Unlines([s]) == s + "\n" && s[|s| - 1] != '\n'
  {
    hide After;
    BreakFound(s);
    OneLine(s);
  }

  lemma OneLine(s: string)
    ensures Unlines([s]) == s + "\n"
  {
    assert [s][1..] == [];
    assert s + "\n" + "" == s + "\n";
  }

  // ----- loading -----

  // The user that a line holds; a line of spaces holds none.
  function Holds(line: string): Option<StoredUser> {
    if exists c :: c in line && !IsSpace(c) then ParseUser(line) else None
  }

  // A line that stops the loading.
  predicate Bad(line: string) {
    (exists c :: c in line && !IsSpace(c)) && ParseUser(line) == None
  }

  // The user of this name that the last of the lines holds.
  function LastNamed(lines: seq<string>, name: string): Option<StoredUser> {
    if lines == [] then None
    else
      var n := |lines| - 1;
      var u := Holds(lines[n]);
      if u.Some? && u.value.username == name then u else LastNamed(lines[..n], name)
  }

  function UserNamed(users: map<string, StoredUser>, name: string): Option<StoredUser> {
    if name in users then Some(users[name]) else None
  }

  lemma LoadOne(line: string, rest: seq<string>, users: map<string, StoredUser>)
    ensures LoadLines([line] + rest, users)
            == if Bad(line) then (false, users)
               else LoadLines(rest, if Holds(line).Some? then users[Holds(line).value.username := Holds(line).value] else users)
  {
    hide ParseUser, IsSpace;
    assert ([line] + rest)[0] == line && ([line] + rest)[1..] == rest;
    assert Blank(line) <==> !exists c :: c in line && !IsSpace(c);
  }

  lemma {:induction false} LoadMore(lines: seq<string>, more: seq<string>, users: map<string, StoredUser>)
    requires forall i :: 0 <= i < |lines| ==> !Bad(lines[i])
    ensures LoadLines(lines, users).0
    ensures LoadLines(lines + more, users) == LoadLines(more, LoadLines(lines, users).1)
  {
    hide Bad, Holds, LoadLines;
    if lines == [] {
      LoadNone(users);
      assert lines + more == more;
    } else {
      var rest := lines[1..];
      assert lines == [lines[0]] + rest && lines + more == [lines[0]] + (rest + more);
      LoadOne(lines[0], rest, users);
      LoadOne(lines[0], rest + more, users);
      LoadMore(rest, more, if Holds(lines[0]).Some? then users[Holds(lines[0]).value.username := Holds(lines[0]).value] else users);
    }
  }

  lemma LoadNone(users: map<string, StoredUser>)
    ensures LoadLines([], users) == (true, users)
  {
  }

  lemma {:induction false} LoadGood(lines: seq<string>, users: map<string, StoredUser>, name: string)
    requires forall i :: 0 <= i < |lines| ==> !Bad(lines[i])
    ensures LoadLines(lines, users).0
    ensures UserNamed(LoadLines(lines, users).1, name) == if LastNamed(lines, name).Some? then LastNamed(lines, name) else UserNamed(users, name)
  {
    hide Bad, Holds, LoadLines;
    if lines == [] {
      LoadNone(users);
    } else {
      var n := |lines| - 1;
      LoadGood(lines[..n], users, name);
      assert lines == lines[..n] + [lines[n]] && [lines[n]] + [] == [lines[n]];
      var before := LoadLines(lines[..n], users).1;
      LoadMore(lines[..n], [lines[n]], users);
      LoadOne(lines[n], [], before);
      LoadNone(if Holds(lines[n]).Some? then before[Holds(lines[n]).value.username := Holds(lines[n]).value] else before);
    }
  }

  /** Loading succeeds if and only if no line is bad. Of the lines before the first bad one, the last that holds a name gives
      its user; a name that none of them holds keeps the user it had. */
  lemma LoadUpTo(lines: seq<string>, users: map<string, StoredUser>, n: nat, name: string)
    requires n <= |lines| && (forall i :: 0 <= i < n ==> !Bad(lines[i])) && (n == |lines| || Bad(lines[n]))
    ensures LoadLines(lines, users).0 <==> n == |lines|
    ensures var last := LastNamed(lines[..n], name);
            UserNamed(LoadLines(lines, users).1, name) == if last.Some? then last else UserNamed(users, name)
  {
    hide Bad, Holds, LoadLines, LastNamed;
    assert lines == lines[..n] + lines[n..];
    LoadMore(lines[..n], lines[n..], users);
    LoadGood(lines[..n], users, name);
    var before := LoadLines(lines[..n], users).1;
    if n < |lines| {
      assert lines[n..] == [lines[n]] + lines[n + 1..];
      LoadOne(lines[n], lines[n + 1..], before);
    } else {
      LoadNone(before);
    }
  }

  // ----- a line by itself -----

  function UserFields(u: StoredUser): seq<Field> {
    [Field("username", u.username), Field("role", u.role), Field("salt", u.salt), Field("password_hash", u.passwordHash)]
  }

  lemma LineIsPrinted(u: StoredUser)
    ensures PrintUser(u) == "{" + Printed(UserFields(u), "}")
  {
    hide Escape, Printed;
    var fs := UserFields(u);
    FourPrinted(fs[0], fs[1], fs[2], fs[3], "}");
    assert forall name, value :: PrintField(name, value) == Start(name) + Escape(value) + "\"" by {
      forall name, value ensures PrintField(name, value) == Start(name) + Escape(value) + "\"" {
        assert "\"" + name + "\":\"" == Start(name);
      }
    }
    hide Start, PrintField;
    LinePieces(Start("username") + Escape(u.username), Start("role") + Escape(u.role), Start("salt") + Escape(u.salt),
               Start("password_hash") + Escape(u.passwordHash));
  }

  lemma LinePieces(a: string, b: string, c: string, d: string)
    ensures "{" + (a + "\"") + ("," + (b + "\"") + ("," + (c + "\"") + ("," + (d + "\"") + "}")))
            == "{" + (a + "\"," + (b + "\"," + (c + "\"," + (d + "\"" + "}"))))
  {
    var last := d + "\"" + "}";
    var third := c + "\"," + last;
    assert "," + (d + "\"") + "}" == "," + last;
    assert "," + (c + "\"") + ("," + last) == "," + third;
    assert "," + (b + "\"") + ("," + third) == "," + (b + "\"," + third);
  }

  /** Of the line of any user, with whatever in its fields, the client reads each of the four fields as it is, unless one
      before it is or ends with the quoted name; then the one behind that. */
  lemma LineReads(u: StoredUser, name: string)
    requires name == "username" || name == "role" || name == "salt" || name == "password_hash"
    ensures Found(UserFields(u), name).Some? && ClientField(PrintUser(u), name) == Found(UserFields(u), name)
  {
    hide Escape, Printed, ClientField, NameAtEnd, PrintUser;
    LineIsPrinted(u);
    var fs := UserFields(u);
    var three, two, one := [fs[1], fs[2], fs[3]], [fs[2], fs[3]], [fs[3]];
    assert fs[1..] == three && three[1..] == two && two[1..] == one;
    assert Found(one, "password_hash").Some?;
    assert name != "username" && name != "role" ==> Found(two, name).Some?;
    assert name != "username" ==> Found(three, name).Some?;
    UserNames(u);
    PlainOpening("{", Printed(fs, "}"), name);
    PrintedReads(fs, "}", name);
  }

  lemma UserNames(u: StoredUser)
    ensures KeyName("username") && KeyName("role") && KeyName("salt") && KeyName("password_hash")
    ensures forall f :: f in UserFields(u) ==> KeyName(f.name)
  {
  }
}
