/** Registrations and restarts in any order, and a restart behind an append that broke off. */
module UserRestarts {
  import opened Wrappers
  import opened Json
  import opened UserRecords
  import opened UserStores
  import opened UserTheorems

  // ----- registrations and restarts interleaved -----

  datatype Event = Attempt(q: Request) | Restart

  // A new process reads the file; the limiter starts afresh.
  function Reload(s: Store): Store {
    s.(users := LoadLines(Lines(Content(s.disk)), map[]).1, attempts := map[])
  }

  function Live(s: Store, events: seq<Event>): Store {
    if events == [] then s
    else
      var t := Live(s, events[..|events| - 1]);
      match events[|events| - 1]
      case Attempt(q) => Register(t, q).0
      case Restart => Reload(t)
  }

  // Everybody registered so far, in order.
  function Registered(s: Store, events: seq<Event>): seq<StoredUser> {
    if events == [] then []
    else
      var n := |events| - 1;
      var earlier := Registered(s, events[..n]);
      match events[n]
      case Attempt(q) => if Register(Live(s, events[..n]), q).1.Registered? then earlier + [UserOf(q)] else earlier
      case Restart => earlier
  }

  // How many of them were registered before the last restart.
  function Reloaded(s: Store, events: seq<Event>): nat {
    if events == [] then 0
    else
      var n := |events| - 1;
      if events[n].Restart? then |Registered(s, events[..n])| else Reloaded(s, events[..n])
  }

  predicate Special(u: StoredUser) {
    u.username == "salt" || u.username == "password_hash"
  }

  // What the process knows of them: the first j as misread from the file, the others as registered.
  function Known(regs: seq<StoredUser>, j: nat): seq<StoredUser> {
    if regs == [] then []
    else
      var n := |regs| - 1;
      Known(regs[..n], j) + [if n < j then Misread(regs[n]) else regs[n]]
  }

  lemma {:induction false} KnownAt(regs: seq<StoredUser>, j: nat)
    ensures |Known(regs, j)| == |regs|
    ensures forall i :: 0 <= i < |regs| ==> Known(regs, j)[i] == if i < j then Misread(regs[i]) else regs[i]
  {
    hide Misread;
    if regs != [] { KnownAt(regs[..|regs| - 1], j); }
  }

  lemma KnownDistinct(regs: seq<StoredUser>, j: nat)
    requires DistinctNames(regs)
    ensures DistinctNames(Known(regs, j))
  {
    KnownAt(regs, j);
    hide Known;
  }

  ghost predicate Lived(s: Store, regs: seq<StoredUser>, j: nat) {
    && j <= |regs| && DistinctNames(regs)
    && (forall i :: 0 <= i < |regs| ==> GoodUser(regs[i]))
    && s.users == ToMap(Known(regs, j))
    && Content(s.disk) == PrintAll(regs)
  }

  lemma KnownSnoc(regs: seq<StoredUser>, j: nat, u: StoredUser)
    requires j <= |regs|
    ensures ToMap(Known(regs + [u], j)) == ToMap(Known(regs, j))[u.username := u]
  {
    assert (regs + [u])[..|regs|] == regs;
    KnownAt(regs, j);
    assert (Known(regs, j) + [u])[..|regs|] == Known(regs, j);
  }

  // A name that is free in the map was never registered.
  lemma FreeIsNew(s: Store, regs: seq<StoredUser>, j: nat, u: StoredUser)
    requires Lived(s, regs, j) && u.username !in s.users
    ensures DistinctNames(regs + [u])
  {
    hide GoodUser, Misread, ToMap, Known, PrintAll;
    KnownAt(regs, j);
    KnownDistinct(regs, j);
    ToMapAt(Known(regs, j));
    forall i | 0 <= i < |regs| ensures regs[i].username != u.username {
      assert Known(regs, j)[i].username in s.users;
      MisreadName(regs[i]);
    }
  }

  lemma AttemptLives(s: Store, q: Request, regs: seq<StoredUser>, j: nat)
    requires Lived(s, regs, j) && Clean(q)
    ensures var (t, r) := Register(s, q);
            Lived(t, if r.Registered? then regs + [UserOf(q)] else regs, j)
  {
    hide PrintUser, Register, GoodUser, Clean, Misread, ToMap, Known, PrintAll, DistinctNames;
    RegisterAdds(s, q);
    if Register(s, q).1.Registered? {
      var u := UserOf(q);
      PrintAllSnoc(regs, u);
      FreeIsNew(s, regs, j, u);
      KnownSnoc(regs, j, u);
    }
  }

  lemma MisreadName(u: StoredUser)
    ensures Misread(u).username == u.username
  {
  }

  lemma RestartLives(s: Store, regs: seq<StoredUser>, j: nat)
    requires Lived(s, regs, j)
    ensures Lived(Reload(s), regs, |regs|)
  {
    hide LoadLines, Lines, PrintAll, GoodUser, Misread;
    LoadPrinted(regs, map[]);
    RereadAt(regs, map[]);
    KnownAt(regs, |regs|);
    KnownDistinct(regs, |regs|);
    ToMapAt(Known(regs, |regs|));
    SameMap(regs, Reread(regs, map[]), ToMap(Known(regs, |regs|)));
  }

  lemma SameMap(regs: seq<StoredUser>, a: map<string, StoredUser>, b: map<string, StoredUser>)
    requires forall i :: 0 <= i < |regs| ==> regs[i].username in a && a[regs[i].username] == Misread(regs[i])
    requires forall i :: 0 <= i < |regs| ==> Misread(regs[i]).username in b && b[Misread(regs[i]).username] == Misread(regs[i])
    requires forall k :: k in a ==> exists i :: 0 <= i < |regs| && regs[i].username == k
    requires forall k :: k in b ==> exists i :: 0 <= i < |regs| && Misread(regs[i]).username == k
    ensures a == b
  {
    forall i | 0 <= i < |regs| ensures Misread(regs[i]).username == regs[i].username {
      MisreadName(regs[i]);
    }
    hide Misread;
  }

  ghost predicate CleanEvents(events: seq<Event>) {
    forall i :: 0 <= i < |events| && events[i].Attempt? ==> Clean(events[i].q)
  }

  lemma {:induction false} LivesOn(s: Store, events: seq<Event>)
    requires s.users == map[] && s.disk == None && CleanEvents(events)
    ensures Lived(Live(s, events), Registered(s, events), Reloaded(s, events))
  {
    hide Lived, Register, Reload, Clean;
    if events == [] {
      NothingYet(s);
    } else {
      var n := |events| - 1;
      LivesOn(s, events[..n]);
      var t, regs, j := Live(s, events[..n]), Registered(s, events[..n]), Reloaded(s, events[..n]);
      match events[n]
      case Attempt(q) => AttemptLives(t, q, regs, j);
      case Restart => RestartLives(t, regs, j);
    }
  }

  lemma NothingYet(s: Store)
    requires s.users == map[] && s.disk == None
    ensures Lived(s, [], 0)
  {
  }

  /** After registrations and restarts in any order, the users are exactly those registered if and only if nobody called
      "salt" or "password_hash" was registered before the last restart. */
  lemma RestartsIff(s: Store, events: seq<Event>)
    requires s.users == map[] && s.disk == None && CleanEvents(events)
    ensures var regs := Registered(s, events);
            && Reloaded(s, events) <= |regs|
            && (Live(s, events).users == ToMap(regs)
                <==> forall i :: 0 <= i < Reloaded(s, events) ==> !Special(regs[i]))
  {
    hide Live, Registered, Reloaded;
    LivesOn(s, events);
    KnownSameIff(Registered(s, events), Reloaded(s, events));
    hide Lived;
  }

  lemma KnownSameIff(regs: seq<StoredUser>, j: nat)
    requires j <= |regs| && DistinctNames(regs) && forall i :: 0 <= i < |regs| ==> GoodUser(regs[i])
    ensures ToMap(Known(regs, j)) == ToMap(regs) <==> forall i :: 0 <= i < j ==> !Special(regs[i])
  {
    hide ToMap, Known, Misread, GoodUser;
    KnownAt(regs, j);
    KnownDistinct(regs, j);
    ToMapAt(regs);
    ToMapAt(Known(regs, j));
    forall i | 0 <= i < |regs| ensures Misread(regs[i]).username == regs[i].username && (Misread(regs[i]) == regs[i] <==> !Special(regs[i])) {
      MisreadName(regs[i]);
      MisreadIff(regs[i]);
    }
    if forall i :: 0 <= i < j ==> !Special(regs[i]) {
      assert Known(regs, j) == regs;
    } else {
      var i :| 0 <= i < j && Special(regs[i]);
      assert Known(regs, j)[i] == Misread(regs[i]) != regs[i];
      assert ToMap(Known(regs, j))[regs[i].username] != ToMap(regs)[regs[i].username];
    }
  }

  /** Without those two names the users survive any number of restarts. */
  lemma {:induction false} SurvivesRestarts(s: Store, events: seq<Event>)
    requires s.users == map[] && s.disk == None && CleanEvents(events)
    requires forall i :: 0 <= i < |events| && events[i].Attempt? ==> !Special(UserOf(events[i].q))
    ensures Live(s, events).users == ToMap(Registered(s, events))
  {
    NobodySpecial(s, events);
    RestartsIff(s, events);
  }

  lemma {:induction false} NobodySpecial(s: Store, events: seq<Event>)
    requires forall i :: 0 <= i < |events| && events[i].Attempt? ==> !Special(UserOf(events[i].q))
    ensures forall i :: 0 <= i < |Registered(s, events)| ==> !Special(Registered(s, events)[i])
  {
    hide Special, Register, UserOf;
    if events != [] { NobodySpecial(s, events[..|events| - 1]); }
  }

  // ----- an append that broke off -----

  // The reload of a file whose torn line is followed by another user's.
  lemma TornLine(u: StoredUser, n: nat, v: StoredUser)
    requires GoodUser(u) && GoodUser(v) && u.username != v.username && n <= |PrintUser(u)|
    ensures var line := PrintUser(u)[..n] + PrintUser(v);
            && '\n' !in line && !Blank(line)
            && (n <= 11 ==> ParseUser(line) == Some(Misread(v)))
            && (n > 11 ==> ParseUser(line) == None || ParseUser(line).value.username != v.username)
  {
    hide GoodUser, PrintUser, ParseUser, Blank, Misread, CodecField;
    TornLineText(u, n, v);
    GoodRole(u);
    GoodRole(v);
    if n <= 11 {
      ReadAfterFew(u, v, n);
    } else {
      GoodHasNoBrace(v);
      LostAfterMore(u, v, n);
      ParsedName(PrintUser(u)[..n] + PrintUser(v));
    }
  }

  lemma TornLineText(u: StoredUser, n: nat, v: StoredUser)
    requires n <= |PrintUser(u)|
    ensures var line := PrintUser(u)[..n] + PrintUser(v); '\n' !in line && !Blank(line)
  {
    hide PrintUser;
    PrintedLine(u);
    PrintedLine(v);
    var line := PrintUser(u)[..n] + PrintUser(v);
    assert forall c :: c in PrintUser(u)[..n] ==> c in PrintUser(u);
    var c :| c in PrintUser(v) && !IsSpace(c);
    assert c in line;
  }

  lemma GoodHasNoBrace(v: StoredUser)
    requires GoodUser(v)
    ensures '{' !in v.username
  {
    forall c | c in v.username ensures NameChar(c) {
    }
  }

  lemma ParsedName(line: string)
    ensures ParseUser(line).Some? ==> CodecField(line, "username") == Some(ParseUser(line).value.username)
  {
    hide CodecField;
  }

  // Behind the torn line everything is read as usual, if the line itself is read.
  lemma TornLoad(u: StoredUser, n: nat, later: seq<StoredUser>, users: map<string, StoredUser>)
    requires GoodUser(u) && n <= |PrintUser(u)| && later != [] && DistinctNames([u] + later)
    requires forall i :: 0 <= i < |later| ==> GoodUser(later[i]) && later[i].username !in users
    ensures var loaded := LoadLines(Lines(PrintUser(u)[..n] + PrintAll(later)), users).1;
            && (n <= 11 ==> loaded == Reread(later, users))
            && (n > 11 ==> later[0].username !in loaded)
  {
    hide GoodUser, PrintUser, ParseUser, Blank, Misread, LoadLines, Lines;
    var v, more := later[0], later[1..];
    var line := PrintUser(u)[..n] + PrintUser(v);
    assert ([u] + later)[0] == u && ([u] + later)[1] == v;
    assert forall i :: 0 <= i < |later| ==> ([u] + later)[i + 1] == later[i];
    TornLine(u, n, v);
    assert PrintUser(u)[..n] + (PrintUser(v) + "\n" + PrintAll(more)) == line + "\n" + PrintAll(more);
    LoadLine(line, PrintAll(more), users);
    if ParseUser(line).Some? {
      var x := ParseUser(line).value;
      LoadPrinted(more, users[x.username := x]);
      if n <= 11 {
        MisreadName(v);
      } else {
        NotAmong(later, users[x.username := x]);
      }
    }
  }

  lemma NotAmong(later: seq<StoredUser>, users: map<string, StoredUser>)
    requires later != [] && DistinctNames(later) && later[0].username !in users
    ensures later[0].username !in Reread(later[1..], users)
  {
    var more := later[1..];
    assert forall i :: 0 <= i < |more| ==> more[i] == later[i + 1];
    RereadAt(more, users);
  }

  // The file after regs were written, n characters of u's line, and later.
  function TornFile(regs: seq<StoredUser>, u: StoredUser, n: nat, later: seq<StoredUser>): string
    requires n <= |PrintUser(u)| + 1
  {
    PrintAll(regs) + (PrintUser(u) + "\n")[..n] + PrintAll(later)
  }

  ghost predicate AllFound(later: seq<StoredUser>, loaded: map<string, StoredUser>) {
    forall i :: 0 <= i < |later| ==> later[i].username in loaded && loaded[later[i].username] == later[i]
  }

  /** A reload finds everybody written after the torn line, as registered, if and only if nobody was, or the line was
      cut before its first colon or not at all. */
  lemma TornFileIff(regs: seq<StoredUser>, u: StoredUser, n: nat, later: seq<StoredUser>)
    requires n <= |PrintUser(u)| + 1 && DistinctNames(regs + [u] + later)
    requires forall i :: 0 <= i < |regs + [u] + later| ==> GoodUser((regs + [u] + later)[i])
    requires forall i :: 0 <= i < |later| ==> !Special(later[i])
    ensures AllFound(later, LoadLines(Lines(TornFile(regs, u, n, later)), map[]).1)
            <==> later == [] || n <= 11 || n == |PrintUser(u)| + 1
  {
    hide GoodUser, PrintUser, LoadLines, Lines, Misread, Special;
    Parts(regs, u, later);
    if n == |PrintUser(u)| + 1 {
      WholeLine(regs, u, later);
    } else {
      var rest := PrintUser(u)[..n] + PrintAll(later);
      assert (PrintUser(u) + "\n")[..n] == PrintUser(u)[..n];
      assert TornFile(regs, u, n, later) == PrintAll(regs) + rest;
      LoadPrintedThen(regs, rest, map[]);
      if later != [] {
        OthersAbsent(regs, u, later);
        TornLoad(u, n, later, Reread(regs, map[]));
        if n <= 11 { FoundWhenReread(later, Reread(regs, map[])); }
      }
    }
  }

  lemma Parts(regs: seq<StoredUser>, u: StoredUser, later: seq<StoredUser>)
    requires DistinctNames(regs + [u] + later)
    requires forall i :: 0 <= i < |regs + [u] + later| ==> GoodUser((regs + [u] + later)[i])
    ensures DistinctNames(regs) && DistinctNames([u] + later) && DistinctNames(later) && GoodUser(u)
    ensures forall i :: 0 <= i < |regs| ==> GoodUser(regs[i])
    ensures forall i :: 0 <= i < |later| ==> GoodUser(later[i])
  {
    hide GoodUser, DistinctNames;
    var all, m := regs + [u] + later, |regs|;
    assert all[0..m] == regs && all[m..|all|] == [u] + later && all[m + 1..|all|] == later;
    DistinctPart(all, 0, m);
    DistinctPart(all, m, |all|);
    DistinctPart(all, m + 1, |all|);
    assert all[m] == u;
    assert forall i :: 0 <= i < m ==> all[i] == regs[i];
    assert forall i :: 0 <= i < |later| ==> all[m + 1 + i] == later[i];
  }

  lemma DistinctPart(all: seq<StoredUser>, a: nat, b: nat)
    requires a <= b <= |all| && DistinctNames(all)
    ensures DistinctNames(all[a..b])
  {
  }

  lemma OthersAbsent(regs: seq<StoredUser>, u: StoredUser, later: seq<StoredUser>)
    requires DistinctNames(regs + [u] + later)
    ensures forall i :: 0 <= i < |later| ==> later[i].username !in Reread(regs, map[])
  {
    var all := regs + [u] + later;
    assert forall i :: 0 <= i < |regs| ==> all[i] == regs[i];
    assert forall i :: 0 <= i < |later| ==> all[|regs| + 1 + i] == later[i];
    RereadAt(regs, map[]);
    hide Reread;
  }

  lemma FoundWhenReread(later: seq<StoredUser>, users: map<string, StoredUser>)
    requires DistinctNames(later) && forall i :: 0 <= i < |later| ==> GoodUser(later[i]) && !Special(later[i])
    ensures AllFound(later, Reread(later, users))
  {
    RereadAt(later, users);
    hide Reread, Misread, GoodUser;
    forall i | 0 <= i < |later| ensures Misread(later[i]) == later[i] {
      MisreadIff(later[i]);
    }
  }

  lemma WholeLine(regs: seq<StoredUser>, u: StoredUser, later: seq<StoredUser>)
    requires DistinctNames(regs + [u] + later)
    requires forall i :: 0 <= i < |regs + [u] + later| ==> GoodUser((regs + [u] + later)[i])
    requires forall i :: 0 <= i < |later| ==> !Special(later[i])
    ensures AllFound(later, LoadLines(Lines(TornFile(regs, u, |PrintUser(u)| + 1, later)), map[]).1)
  {
    hide GoodUser, PrintUser, LoadLines, Lines, Misread, Special, Reread, DistinctNames;
    Parts(regs, u, later);
    var line := PrintUser(u) + "\n";
    assert line[..|line|] == line;
    var rest := line + PrintAll(later);
    assert TornFile(regs, u, |line|, later) == PrintAll(regs) + rest;
    LoadPrintedThen(regs, rest, map[]);
    assert PrintAll([u] + later) == rest by {
      assert ([u] + later)[1..] == later && ([u] + later)[0] == u;
    }
    assert forall i :: 0 <= i < |[u] + later| ==> GoodUser(([u] + later)[i]);
    LoadPrinted([u] + later, Reread(regs, map[]));
    RereadFirst(u, later, Reread(regs, map[]));
    FoundWhenReread(later, Reread(regs, map[])[u.username := Misread(u)]);
  }

  lemma RereadFirst(u: StoredUser, later: seq<StoredUser>, users: map<string, StoredUser>)
    ensures Reread([u] + later, users) == Reread(later, users[u.username := Misread(u)])
  {
    assert ([u] + later)[1..] == later;
  }

  // ----- the same for the running server -----

  // Users registered behind a torn line.
  ghost predicate Behind(s: Store, front: string, regs: seq<StoredUser>, u: StoredUser, later: seq<StoredUser>) {
    && DistinctNames(regs + [u] + later)
    && (forall i :: 0 <= i < |regs + [u] + later| ==> GoodUser((regs + [u] + later)[i]))
    && s.users == ToMap(regs + later) && Content(s.disk) == front + PrintAll(later)
  }

  // What the request leaves in the file when its append breaks off.
  function TornPart(q: Request): string
    requires q.write.Torn?
  {
    var line := PrintUser(UserOf(q)) + "\n";
    if q.write.n < |line| then line[..q.write.n] else line
  }

  // The append of the request broke off.
  predicate BrokeOff(s: Store, q: Request) {
    q.write.Torn? && Register(s, q).1 == Denied("failed to write user data file")
  }

  lemma TornRegister(s: Store, q: Request, regs: seq<StoredUser>)
    requires Recorded(s, regs) && BrokeOff(s, q) && IsHex(q.salt) && IsHex(q.hash)
    ensures Behind(Register(s, q).0, PrintAll(regs) + TornPart(q), regs, UserOf(q), [])
  {
    hide PrintUser, Limit, PrintAll, ToMap, IsHex;
    var u, t := UserOf(q), Register(s, q).0;
    TornDenied(s, q);
    ToMapAt(regs);
    hide Register, UsernameError, GoodUser;
    assert regs + [] == regs && regs + [u] + [] == regs + [u];
    assert PrintAll([]) == "" by { NothingPrinted(); }
    assert PrintAll(regs) + TornPart(q) + "" == PrintAll(regs) + TornPart(q);
  }

  lemma NothingPrinted()
    ensures PrintAll([]) == ""
  {
  }

  lemma TornDenied(s: Store, q: Request)
    requires BrokeOff(s, q) && IsHex(q.salt) && IsHex(q.hash)
    ensures var t := Register(s, q).0;
            && t.users == s.users && q.username !in s.users && GoodUser(UserOf(q))
            && Content(t.disk) == Content(s.disk) + TornPart(q)
  {
    hide PrintUser, Limit, IsHex;
    assert PasswordError(q.password) != Some("failed to write user data file");
  }

  lemma BehindRegister(s: Store, front: string, regs: seq<StoredUser>, u: StoredUser, later: seq<StoredUser>, q: Request)
    returns (longer: seq<StoredUser>)
    requires Behind(s, front, regs, u, later) && Clean(q) && q.username != u.username
    ensures Behind(Register(s, q).0, front, regs, u, longer)
    ensures longer == later || longer == later + [UserOf(q)]
  {
    hide PrintUser, Register, GoodUser, Clean, ToMap, PrintAll;
    RegisterAdds(s, q);
    longer := later;
    if Register(s, q).1.Registered? {
      var v := UserOf(q);
      longer := later + [v];
      PrintAllSnoc(later, v);
      assert front + (PrintAll(later) + (PrintUser(v) + "\n")) == front + PrintAll(later) + (PrintUser(v) + "\n");
      ToMapSnoc(regs + later, v);
      assert regs + longer == regs + later + [v];
      FreeBehind(s, front, regs, u, later, v);
      assert regs + [u] + longer == regs + [u] + later + [v];
    }
  }

  lemma ToMapSnoc(regs: seq<StoredUser>, v: StoredUser)
    ensures ToMap(regs + [v]) == ToMap(regs)[v.username := v]
  {
    assert (regs + [v])[..|regs|] == regs;
  }

  lemma FreeBehind(s: Store, front: string, regs: seq<StoredUser>, u: StoredUser, later: seq<StoredUser>, v: StoredUser)
    requires Behind(s, front, regs, u, later) && v.username !in s.users && v.username != u.username
    ensures DistinctNames(regs + [u] + later + [v])
  {
    hide GoodUser, ToMap, PrintAll;
    WithoutTorn(regs, u, later);
    ToMapAt(regs + later);
    var all, n := regs + [u] + later, |regs|;
    forall i | 0 <= i < |all| ensures all[i].username != v.username {
      if i < n {
        assert (regs + later)[i] == all[i];
      } else if i > n {
        assert (regs + later)[i - 1] == all[i];
      }
    }
  }

  lemma WithoutTorn(regs: seq<StoredUser>, u: StoredUser, later: seq<StoredUser>)
    requires DistinctNames(regs + [u] + later)
    ensures DistinctNames(regs + later)
  {
    var all, some, n := regs + [u] + later, regs + later, |regs|;
    assert forall i :: 0 <= i < |some| ==> some[i] == all[if i < n then i else i + 1];
  }

  lemma {:induction false} RunBehind(s: Store, front: string, regs: seq<StoredUser>, u: StoredUser, qs: seq<Request>)
    returns (later: seq<StoredUser>)
    requires Behind(s, front, regs, u, [])
    requires forall i :: 0 <= i < |qs| ==> Clean(qs[i]) && qs[i].username != u.username && !Special(UserOf(qs[i]))
    ensures Behind(Run(s, qs), front, regs, u, later)
    ensures forall i :: 0 <= i < |later| ==> !Special(later[i])
  {
    hide Behind, Register, Clean, Special;
    later := [];
    if qs != [] {
      var n := |qs| - 1;
      var earlier := RunBehind(s, front, regs, u, qs[..n]);
      later := BehindRegister(Run(s, qs[..n]), front, regs, u, earlier, qs[n]);
    }
  }

  /** A registration's append breaks off after n characters, others register behind it under names of their own, and the
      server restarts: all of these are found again, as registered, if and only if there are none, or n is at most 11,
      or the whole line was written after all. */
  lemma TornRestartIff(s: Store, before: seq<Request>, q: Request, after: seq<Request>)
    requires s.users == map[] && s.disk == None && forall i :: 0 <= i < |before| ==> Clean(before[i])
    requires BrokeOff(Run(s, before), q) && IsHex(q.salt) && IsHex(q.hash)
    requires forall i :: 0 <= i < |after| ==> Clean(after[i]) && after[i].username != q.username && !Special(UserOf(after[i]))
    ensures var known := Run(s, before).users;
            var t := Run(Register(Run(s, before), q).0, after);
            var loaded := LoadLines(Lines(Content(t.disk)), map[]).1;
            (forall k :: k in t.users && k !in known ==> k in loaded && loaded[k] == t.users[k])
            <==> t.users == known || q.write.n <= 11 || q.write.n > |PrintUser(UserOf(q))|
  {
    hide Run, LoadLines, Lines, PrintAll, TornPart, Recorded, Behind, Register, Clean, Special, PrintUser;
    var regs := RunRecords(s, before);
    TornRegister(Run(s, before), q, regs);
    var later := RunBehind(Register(Run(s, before), q).0, PrintAll(regs) + TornPart(q), regs, UserOf(q), after);
    TornBehindIff(Run(s, before), q, regs, later, Run(Register(Run(s, before), q).0, after));
  }

  // Somebody whose append breaks off after twelve characters, and the next to register.
  const TORN_REQUEST: Request := Request("abc", "password", "", "c", 0, "ab", "cd", Torn(12))
  const NEXT_REQUEST: Request := Request("xyz", "password", "", "d", 0, "ab", "cd", Written)

  lemma TornDenies(limit: nat)
    requires 0 < limit
    ensures var (t, r) := Register(Store("", limit, map[], map[], None), TORN_REQUEST);
            && r == Denied("failed to write user data file") && t.users == map[] && t.disk == Some("" + TornPart(TORN_REQUEST))
            && t.inviteCode == "" && t.limit == limit && "d" !in t.attempts
            && GoodUser(UserOf(TORN_REQUEST)) && UserOf(TORN_REQUEST).username == "abc"
  {
    hide PrintUser;
    assert "abc"[0] == 'a' && "abc"[1] == 'b' && "abc"[2] == 'c';
  }

  lemma NextRegisters(t: Store)
    requires 0 < t.limit && t.users == map[] && t.inviteCode == "" && "d" !in t.attempts
    ensures var v := UserOf(NEXT_REQUEST);
            var (w, r) := Register(t, NEXT_REQUEST);
            && r == AuthResult.Registered("xyz", "user") && w.users == map["xyz" := v]
            && w.disk == Some(Content(t.disk) + (PrintUser(v) + "\n")) && GoodUser(v) && v.username == "xyz"
  {
    hide PrintUser;
    assert "xyz"[0] == 'x' && "xyz"[1] == 'y' && "xyz"[2] == 'z';
  }

  /** The loss is real: an append breaks off, the next user is registered, and a restart does not find him. */
  lemma TornLosesNext(limit: nat)
    requires 0 < limit
    ensures var t := Register(Store("", limit, map[], map[], None), TORN_REQUEST).0;
            var (w, r) := Register(t, NEXT_REQUEST);
            && r == AuthResult.Registered("xyz", "user") && "xyz" in w.users
            && "xyz" !in LoadLines(Lines(Content(w.disk)), map[]).1
  {
    hide PrintUser, LoadLines, Lines, Register, GoodUser;
    TornDenies(limit);
    var t := Register(Store("", limit, map[], map[], None), TORN_REQUEST).0;
    NextRegisters(t);
    var u, v := UserOf(TORN_REQUEST), UserOf(NEXT_REQUEST);
    LongLine(u);
    assert (PrintUser(u) + "\n")[..12] == PrintUser(u)[..12];
    assert [v][1..] == [] && PrintAll([]) == "";
    assert PrintAll([v]) == PrintUser(v) + "\n" + "" == PrintUser(v) + "\n";
    assert "" + PrintUser(u)[..12] + PrintAll([v]) == PrintUser(u)[..12] + PrintAll([v]);
    TornLoad(u, 12, [v], map[]);
  }

  lemma LongLine(u: StoredUser)
    ensures |PrintUser(u)| > 12
  {
  }

  lemma TornBehindIff(s: Store, q: Request, regs: seq<StoredUser>, later: seq<StoredUser>, t: Store)
    requires Recorded(s, regs) && q.write.Torn? && Behind(t, PrintAll(regs) + TornPart(q), regs, UserOf(q), later)
    requires forall i :: 0 <= i < |later| ==> !Special(later[i])
    ensures var loaded := LoadLines(Lines(Content(t.disk)), map[]).1;
            (forall k :: k in t.users && k !in s.users ==> k in loaded && loaded[k] == t.users[k])
            <==> t.users == s.users || q.write.n <= 11 || q.write.n > |PrintUser(UserOf(q))|
  {
    hide GoodUser, PrintUser, LoadLines, Lines, ToMap, PrintAll, Special;
    var u := UserOf(q);
    var n := |TornPart(q)|;
    TornFileIff(regs, u, n, later);
    assert TornPart(q) == (PrintUser(u) + "\n")[..n];
    LaterUsers(regs, u, later);
    hide DistinctNames;
    var loaded := LoadLines(Lines(Content(t.disk)), map[]).1;
    FoundByName(regs, later, loaded);
  }

  // A name of later is in the map of all, and not in that of the first.
  lemma LaterName(regs: seq<StoredUser>, later: seq<StoredUser>, i: nat)
    requires DistinctNames(regs) && DistinctNames(regs + later) && i < |later|
    ensures later[i].username in ToMap(regs + later) && later[i].username !in ToMap(regs)
  {
    var all, n := regs + later, |regs|;
    ToMapAt(all);
    ToMapAt(regs);
    hide ToMap;
    assert all[n + i] == later[i];
    assert forall j :: 0 <= j < n ==> all[j] == regs[j];
  }

  // And a name in the one map and not in the other is one of later.
  lemma NameOfLater(regs: seq<StoredUser>, later: seq<StoredUser>, k: string) returns (i: nat)
    requires DistinctNames(regs) && DistinctNames(regs + later) && k in ToMap(regs + later) && k !in ToMap(regs)
    ensures i < |later| && later[i].username == k
  {
    hide ToMap, DistinctNames;
    var all, n := regs + later, |regs|;
    ToMapAt(all);
    ToMapAt(regs);
    var j :| 0 <= j < |all| && all[j].username == k;
    assert forall m :: 0 <= m < n ==> all[m] == regs[m];
    i := j - n;
  }

  lemma LaterUsers(regs: seq<StoredUser>, u: StoredUser, later: seq<StoredUser>)
    requires DistinctNames(regs + [u] + later)
    ensures DistinctNames(regs) && DistinctNames(regs + later) && (ToMap(regs + later) == ToMap(regs) <==> later == [])
    ensures forall k :: k in ToMap(regs + later) && k !in ToMap(regs) <==> exists i :: 0 <= i < |later| && later[i].username == k
  {
    WithoutTorn(regs, u, later);
    var all, n := regs + later, |regs|;
    assert all[0..n] == regs;
    DistinctPart(all, 0, n);
    hide ToMap, DistinctNames;
    forall i | 0 <= i < |later| ensures later[i].username in ToMap(all) && later[i].username !in ToMap(regs) {
      LaterName(regs, later, i);
    }
    forall k | k in ToMap(all) && k !in ToMap(regs) ensures exists i :: 0 <= i < |later| && later[i].username == k {
      var i := NameOfLater(regs, later, k);
    }
    if later == [] { assert all == regs; }
    if later != [] { LaterName(regs, later, 0); }
  }

  lemma FoundByName(regs: seq<StoredUser>, later: seq<StoredUser>, loaded: map<string, StoredUser>)
    requires DistinctNames(regs + later)
    requires forall k :: k in ToMap(regs + later) && k !in ToMap(regs) <==> exists i :: 0 <= i < |later| && later[i].username == k
    ensures AllFound(later, loaded) <==>
              forall k :: k in ToMap(regs + later) && k !in ToMap(regs) ==> k in loaded && loaded[k] == ToMap(regs + later)[k]
  {
    ToMapAt(regs + later);
    hide ToMap;
    forall i | 0 <= i < |later| ensures later[i].username in ToMap(regs + later) && ToMap(regs + later)[later[i].username] == later[i] {
      assert (regs + later)[|regs| + i] == later[i];
    }
  }
}
