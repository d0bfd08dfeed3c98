/** What a run of registrations leaves behind: the file that start-up reads back, and the limiter's promise. */
module UserTheorems {
  import opened Wrappers
  import opened Json
  import opened UserRecords
  import opened UserStores

  // ----- what is on disk -----

  predicate IsHex(s: string) {
    forall c :: c in s ==> '0' <= c <= '9' || 'a' <= c <= 'f'
  }

  // What registration writes: a valid name, the role user, and hexadecimal salt and hash.
  predicate GoodUser(u: StoredUser) {
    UsernameError(u.username) == None && u.role == "user" && IsHex(u.salt) && IsHex(u.passwordHash)
  }

  lemma GoodIsPlain(u: StoredUser)
    requires GoodUser(u)
    ensures PlainUser(u) && u.salt != "password_hash" && u.salt != "user" && u.passwordHash != "user"
  {
    assert "user"[0] in "user" && "password_hash"[0] in "password_hash";
    forall c | c in u.username ensures NameChar(c) {
    }
  }

  lemma {:induction false} NoNewline(line: string, rest: string)
    requires '\n' !in line
    ensures After(line + "\n" + rest, "\n") == Some(rest)
  {
    var t := line + "\n" + rest;
    if line == "" {
      assert t[..1] == "\n" && t[1..] == rest;
    } else {
      assert t[1..] == line[1..] + "\n" + rest;
      assert t[0] == line[0] && line[0] in line && t[..1] == [t[0]];
      NoNewline(line[1..], rest);
    }
  }

  lemma PrintedField(name: string, value: string)
    requires '\n' !in name
    ensures '\n' !in PrintField(name, value)
  {
    EscapeIsOneLine(value);
    hide Escape;
  }

  /** Any user is printed on one line that is not blank. */
  lemma PrintedLine(u: StoredUser)
    ensures '\n' !in PrintUser(u) && !Blank(PrintUser(u))
  {
    hide PrintField;
    PrintedField("username", u.username);
    PrintedField("role", u.role);
    PrintedField("salt", u.salt);
    PrintedField("password_hash", u.passwordHash);
    BraceFirst(PrintUser(u));
  }

  lemma BraceFirst(line: string)
    requires line != "" && line[0] == '{'
    ensures !Blank(line)
  {
    assert line[0] in line;
  }

  // One whole line at the front of what is read.
  lemma LoadLine(line: string, rest: string, users: map<string, StoredUser>)
    requires '\n' !in line && !Blank(line)
    ensures LoadLines(Lines(line + "\n" + rest), users) ==
            match ParseUser(line)
            case None => (false, users)
            case Some(u) => LoadLines(Lines(rest), users[u.username := u])
  {
    hide ParseUser, Blank;
    var t := line + "\n" + rest;
    NoNewline(line, rest);
    assert t[..|t| - |rest| - 1] == line;
    assert Lines(t)[1..] == Lines(rest);
  }

  // Reading back printed users inserts them one by one, as misread, and goes on behind them.
  lemma {:induction false} LoadPrintedThen(regs: seq<StoredUser>, rest: string, users: map<string, StoredUser>)
    requires forall i :: 0 <= i < |regs| ==> GoodUser(regs[i])
    ensures LoadLines(Lines(PrintAll(regs) + rest), users) == LoadLines(Lines(rest), Reread(regs, users))
  {
    hide PrintUser, GoodUser, ParseUser, Blank, LoadLines, Lines;
    if regs == [] {
      assert PrintAll(regs) + rest == rest;
    } else {
      var u, more := regs[0], PrintAll(regs[1..]) + rest;
      PrintedLine(u);
      assert PrintAll(regs) + rest == PrintUser(u) + "\n" + more;
      LoadLine(PrintUser(u), more, users);
      GoodRole(u);
      ReadPieces(u);
      LoadPrintedThen(regs[1..], rest, users[u.username := Misread(u)]);
    }
  }

  lemma LoadPrinted(regs: seq<StoredUser>, users: map<string, StoredUser>)
    requires forall i :: 0 <= i < |regs| ==> GoodUser(regs[i])
    ensures LoadLines(Lines(PrintAll(regs)), users) == (true, Reread(regs, users))
  {
    hide GoodUser, Reread, PrintAll;
    LoadPrintedThen(regs, "", users);
    assert PrintAll(regs) + "" == PrintAll(regs);
  }

  lemma GoodRole(u: StoredUser)
    requires GoodUser(u)
    ensures PlainUser(u) && u.role == "user" && u.salt != "password_hash"
  {
    GoodIsPlain(u);
  }

  function Reread(regs: seq<StoredUser>, users: map<string, StoredUser>): map<string, StoredUser> {
    if regs == [] then users else Reread(regs[1..], users[regs[0].username := Misread(regs[0])])
  }

  ghost predicate DistinctNames(regs: seq<StoredUser>) {
    forall i, j :: 0 <= i < j < |regs| ==> regs[i].username != regs[j].username
  }

  lemma {:induction false} RereadAt(regs: seq<StoredUser>, users: map<string, StoredUser>)
    requires DistinctNames(regs)
    ensures var m := Reread(regs, users);
            && (forall i :: 0 <= i < |regs| ==> regs[i].username in m && m[regs[i].username] == Misread(regs[i]))
            && (forall k :: k in m ==> k in users || exists i :: 0 <= i < |regs| && regs[i].username == k)
            && (forall k :: k in users && (forall i :: 0 <= i < |regs| ==> regs[i].username != k) ==> k in m && m[k] == users[k])
  {
    if regs != [] {
      var first := users[regs[0].username := Misread(regs[0])];
      RereadAt(regs[1..], first);
      var m := Reread(regs[1..], first);
      forall i | 0 <= i < |regs| ensures regs[i].username in m && m[regs[i].username] == Misread(regs[i]) {
        if i > 0 { assert regs[i] == regs[1..][i - 1]; }
      }
      forall k | k in m && k !in users ensures exists i :: 0 <= i < |regs| && regs[i].username == k {
        if k != regs[0].username {
          var i :| 0 <= i < |regs[1..]| && regs[1..][i].username == k;
          assert regs[i + 1].username == k;
        }
      }
    }
  }
  // ----- runs -----

  function Run(s: Store, qs: seq<Request>): Store {
    if qs == [] then s
    else
      var n := |qs| - 1;
      Register(Run(s, qs[..n]), qs[n]).0
  }

  // Salts and hashes are hexadecimal, and no append breaks off in the middle of a line.
  predicate Clean(q: Request) {
    IsHex(q.salt) && IsHex(q.hash) && !q.write.Torn?
  }

  // The file holds one line for each registered user, in order of registration.
  ghost predicate Recorded(s: Store, regs: seq<StoredUser>) {
    && DistinctNames(regs)
    && (forall i :: 0 <= i < |regs| ==> GoodUser(regs[i]))
    && s.users == ToMap(regs)
    && Content(s.disk) == PrintAll(regs)
  }

  lemma {:induction false} PrintAllSnoc(regs: seq<StoredUser>, u: StoredUser)
    ensures PrintAll(regs + [u]) == PrintAll(regs) + (PrintUser(u) + "\n")
  {
    hide PrintUser;
    var all := regs + [u];
    if regs == [] {
      assert all[1..] == [];
    } else {
      PrintAllSnoc(regs[1..], u);
      assert all[1..] == regs[1..] + [u];
    }
  }

  lemma {:induction false} ToMapAt(regs: seq<StoredUser>)
    requires DistinctNames(regs)
    ensures forall i :: 0 <= i < |regs| ==> regs[i].username in ToMap(regs) && ToMap(regs)[regs[i].username] == regs[i]
    ensures forall k :: k in ToMap(regs) ==> exists i :: 0 <= i < |regs| && regs[i].username == k
  {
    if regs != [] {
      var n := |regs| - 1;
      ToMapAt(regs[..n]);
    }
  }

  // What one request adds to the file and to the map, if no append breaks off.
  lemma RegisterAdds(s: Store, q: Request)
    requires Clean(q)
    ensures var (t, r) := Register(s, q);
            && Content(t.disk) == (if r.Registered? then Content(s.disk) + (PrintUser(UserOf(q)) + "\n") else Content(s.disk))
            && t.users == (if r.Registered? then s.users[q.username := UserOf(q)] else s.users)
            && (r.Registered? ==> GoodUser(UserOf(q)) && q.username !in s.users)
  {
    hide PrintUser, Limit, UsernameError, PasswordError, IsHex;
  }

  lemma RegisterRecords(s: Store, q: Request, regs: seq<StoredUser>) returns (after: seq<StoredUser>)
    requires Recorded(s, regs) && Clean(q)
    ensures Recorded(Register(s, q).0, after)
  {
    hide PrintUser, Register, GoodUser, Clean;
    RegisterAdds(s, q);
    after := regs;
    if Register(s, q).1.Registered? {
      var u := UserOf(q);
      after := regs + [u];
      PrintAllSnoc(regs, u);
      ToMapAt(regs);
      assert after[..|regs|] == regs;
    }
  }

  /** A request registers its user exactly when the name and password are well formed, the limiter lets it past, the
      invitation matches if one is configured, the name is free and the whole line is written; only then do the users
      change, and then by this user alone. */
  lemma RegistersIff(s: Store, q: Request)
    ensures var (t, r) := Register(s, q);
            && (r.Registered? <==>
                 && WellFormed(q) && !Limit(AttemptsOf(s, q.clientId), q.now, s.limit).0
                 && (s.inviteCode == "" || q.inviteCode == s.inviteCode)
                 && q.username !in s.users && q.write == Written)
            && t.users == (if r.Registered? then s.users[q.username := UserOf(q)] else s.users)
            && (r.Registered? ==> t.disk == Some(Content(s.disk) + PrintUser(UserOf(q)) + "\n"))
            && (!WellFormed(q) ==> t == s)
  {
    hide PrintUser, Limit, UsernameError, PasswordError;
    var line := PrintUser(UserOf(q));
    assert Content(s.disk) + (line + "\n") == Content(s.disk) + line + "\n";
  }

  function CountFrom(attempts: seq<int>, start: int): nat {
    |set i | 0 <= i < |attempts| && attempts[i] >= start|
  }

  // How many of the attempts on record lie within the minute before now.
  function Recent(attempts: seq<int>, now: int): nat {
    CountFrom(attempts, now - 60_000_000_000)
  }

  lemma CountLast(attempts: seq<int>, start: int)
    requires attempts != []
    ensures var n := |attempts| - 1;
            CountFrom(attempts, start) == CountFrom(attempts[..n], start) + (if attempts[n] >= start then 1 else 0)
  {
    var n := |attempts| - 1;
    var before := set i | 0 <= i < |attempts[..n]| && attempts[..n][i] >= start;
    assert (set i | 0 <= i < |attempts| && attempts[i] >= start) == if attempts[n] >= start then before + {n} else before;
  }

  lemma {:induction false} KeepCounts(attempts: seq<int>, start: int)
    ensures |Keep(attempts, start)| == CountFrom(attempts, start)
  {
    if attempts != [] {
      hide CountFrom;
      KeepCounts(attempts[..|attempts| - 1], start);
      CountLast(attempts, start);
    }
  }

  lemma LimitedIff(attempts: seq<int>, now: int, limit: nat)
    ensures Limit(attempts, now, limit).0 <==> Recent(attempts, now) >= limit
  {
    KeepCounts(attempts, now - MINUTE);
  }

  /** The rules themselves: a registration succeeds exactly when the name has 3 to 32 characters, all of them letters, digits,
      underscores or hyphens, the password has 8 to 128, fewer than limit attempts of the client lie within the last minute,
      the invitation is right if one is asked for, the name is free and the line is written. */
  lemma RegistersByRules(s: Store, q: Request)
    ensures Register(s, q).1.Registered? <==>
              && 3 <= |q.username| <= 32
              && (forall c :: c in q.username ==> 'a' <= c <= 'z' || 'A' <= c <= 'Z' || '0' <= c <= '9' || c == '_' || c == '-')
              && 8 <= |q.password| <= 128
              && Recent(if q.clientId in s.attempts then s.attempts[q.clientId] else [], q.now) < s.limit
              && (s.inviteCode != "" ==> q.inviteCode == s.inviteCode)
              && q.username !in s.users && q.write == Written
    ensures Register(s, q).1.Registered? ==> Register(s, q).1 == Registered(q.username, "user")
  {
    hide PrintUser, Limit, Recent;
    LimitedIff(AttemptsOf(s, q.clientId), q.now, s.limit);
  }

  // The first rule that a request breaks, in the order in which they are tried.
  datatype Rule = NameLength | NameCharacters | PasswordLength | TooMany | Invitation | NameTaken | NotWritten

  ghost predicate Breaks(s: Store, q: Request, rule: Rule) {
    match rule
    case NameLength => |q.username| < 3 || 32 < |q.username|
    case NameCharacters =>
      exists c :: c in q.username
                  && !('a' <= c <= 'z') && !('A' <= c <= 'Z') && !('0' <= c <= '9') && c != '_' && c != '-'
    case PasswordLength => |q.password| < 8 || 128 < |q.password|
    case TooMany => s.limit <= Recent(if q.clientId in s.attempts then s.attempts[q.clientId] else [], q.now)
    case Invitation => s.inviteCode != "" && q.inviteCode != s.inviteCode
    case NameTaken => q.username in s.users
    case NotWritten => q.write != Written
  }

  function Place(rule: Rule): nat {
    match rule
    case NameLength => 0 case NameCharacters => 1 case PasswordLength => 2 case TooMany => 3
    case Invitation => 4 case NameTaken => 5 case NotWritten => 6
  }

  /** The first broken rule decides the answer, and only an attempt whose name and password are well formed is counted. */
  lemma RefusedByRule(s: Store, q: Request, rule: Rule)
    requires Breaks(s, q, rule) && forall r :: Place(r) < Place(rule) ==> !Breaks(s, q, r)
    ensures var (t, r) := Register(s, q);
            && t.users == s.users
            && (rule != NotWritten ==> t.disk == s.disk)
            && (Place(rule) <= 2 ==> t.attempts == s.attempts)
            && r == match rule
                    case NameLength => Denied("username must be 3 to 32 characters")
                    case NameCharacters => Denied("username can only contain letters, numbers, underscores, and hyphens")
                    case PasswordLength => Denied("password must be 8 to 128 characters")
                    case TooMany => Denied("too many registration attempts")
                    case Invitation => Denied("invalid invite code")
                    case NameTaken => Denied("username already exists")
                    case NotWritten =>
                      Denied(if q.write == NoDirectory then "failed to create user data directory"
                             else if q.write == CannotOpen then "failed to open user data file"
                             else "failed to write user data file")
  {
    hide PrintUser, Limit, Recent;
    LimitedIff(AttemptsOf(s, q.clientId), q.now, s.limit);
    forall r | Place(r) < Place(rule) ensures !Breaks(s, q, r) {
    }
    assert Place(rule) > 0 ==> !Breaks(s, q, NameLength);
    assert Place(rule) > 1 ==> !Breaks(s, q, NameCharacters);
    assert Place(rule) > 2 ==> !Breaks(s, q, PasswordLength);
    assert Place(rule) > 3 ==> !Breaks(s, q, TooMany);
    assert Place(rule) > 4 ==> !Breaks(s, q, Invitation);
    assert Place(rule) > 5 ==> !Breaks(s, q, NameTaken);
  }

  lemma {:induction false} RunRecords(s: Store, qs: seq<Request>) returns (regs: seq<StoredUser>)
    requires s.users == map[] && s.disk == None && forall i :: 0 <= i < |qs| ==> Clean(qs[i])
    ensures Recorded(Run(s, qs), regs)
  {
    regs := [];
    if qs != [] {
      var n := |qs| - 1;
      var r := RunRecords(s, qs[..n]);
      regs := RegisterRecords(Run(s, qs[..n]), qs[n], r);
    }
  }

  /** Start-up after any run reads every line, and rebuilds the users exactly when none of them is called
      "salt" or "password_hash"; all the others are rebuilt in any case. */
  lemma RestartIff(s: Store, qs: seq<Request>)
    requires s.users == map[] && s.disk == None && forall i :: 0 <= i < |qs| ==> Clean(qs[i])
    ensures var t := Run(s, qs);
            var (ok, loaded) := LoadLines(Lines(Content(t.disk)), map[]);
            && ok && loaded.Keys == t.users.Keys
            && (forall k :: k in t.users && k != "salt" && k != "password_hash" ==> loaded[k] == t.users[k])
            && (loaded == t.users <==> "salt" !in t.users && "password_hash" !in t.users)
  {
    hide *;
    var regs := RunRecords(s, qs);
    RecordedReload(Run(s, qs), regs);
  }

  // The request of somebody who wants to be called salt.
  const SALT_REQUEST: Request := Request("salt", "password", "", "client", 0, "ab", "cd", Written)

  lemma SaltRegisters(limit: nat)
    requires 0 < limit
    ensures var u := UserOf(SALT_REQUEST);
            var (t, r) := Register(Store("", limit, map[], map[], None), SALT_REQUEST);
            && r == Registered("salt", "user") && t.users == map["salt" := u] && t.disk == Some("" + (PrintUser(u) + "\n"))
            && GoodUser(u) && u.username == "salt"
  {
    hide PrintUser;
    assert "salt"[0] == 's' && "salt"[1] == 'a' && "salt"[2] == 'l' && "salt"[3] == 't';
  }

  /** The exception is real: the user is registered, and the next start-up gives him the salt "user". */
  lemma SaltIsMisread(limit: nat)
    requires 0 < limit
    ensures var s := Store("", limit, map[], map[], None);
            var (t, r) := Register(s, SALT_REQUEST);
            var loaded := LoadLines(Lines(Content(t.disk)), map[]).1;
            && r == Registered("salt", "user") && "salt" in t.users && t.users["salt"].salt == "ab"
            && "salt" in loaded && loaded["salt"].salt == "user"
  {
    hide PrintUser, LoadLines, Lines, ParseUser, Register, GoodUser;
    SaltRegisters(limit);
    var u := UserOf(SALT_REQUEST);
    LoadPrinted([u], map[]);
    assert [u][1..] == [] && PrintAll([]) == "";
    assert PrintAll([u]) == PrintUser(u) + "\n" + "" == "" + (PrintUser(u) + "\n");
    assert Reread([u], map[]) == Reread([], map["salt" := Misread(u)]) == map["salt" := Misread(u)];
  }

  lemma RecordedReload(t: Store, regs: seq<StoredUser>)
    requires Recorded(t, regs)
    ensures var (ok, loaded) := LoadLines(Lines(Content(t.disk)), map[]);
            && ok && loaded.Keys == t.users.Keys
            && (forall k :: k in t.users && k != "salt" && k != "password_hash" ==> loaded[k] == t.users[k])
            && (loaded == t.users <==> "salt" !in t.users && "password_hash" !in t.users)
  {
    hide LoadLines, PrintAll, Lines, ToMap, Reread, Misread, GoodUser, Content;
    LoadPrinted(regs, map[]);
    SameButMisread(regs);
  }

  lemma SameButMisread(regs: seq<StoredUser>)
    requires DistinctNames(regs) && forall i :: 0 <= i < |regs| ==> GoodUser(regs[i])
    ensures var (users, loaded) := (ToMap(regs), Reread(regs, map[]));
            && loaded.Keys == users.Keys
            && (forall k :: k in users ==> (loaded[k] == users[k] <==> k != "salt" && k != "password_hash"))
  {
    hide Reread, ToMap, Misread, GoodUser;
    ToMapAt(regs);
    RereadAt(regs, map[]);
    var users, loaded := ToMap(regs), Reread(regs, map[]);
    forall k | k in users ensures k in loaded && (loaded[k] == users[k] <==> k != "salt" && k != "password_hash") {
      var i :| 0 <= i < |regs| && regs[i].username == k;
      MisreadIff(regs[i]);
    }
  }

  lemma MisreadIff(u: StoredUser)
    requires GoodUser(u)
    ensures Misread(u) == u <==> u.username != "salt" && u.username != "password_hash"
  {
    GoodIsPlain(u);
  }

  // ----- the limiter over a run -----

  // Requests with a well-formed name and password are the ones the limiter sees.
  predicate WellFormed(q: Request) {
    UsernameError(q.username) == None && PasswordError(q.password) == None
  }

  // When the client was let past the limiter, in a run from s.
  function Admitted(s: Store, qs: seq<Request>, clientId: string): seq<int> {
    if qs == [] then []
    else
      var n := |qs| - 1;
      var (t, q) := (Run(s, qs[..n]), qs[n]);
      var earlier := Admitted(s, qs[..n], clientId);
      if WellFormed(q) && q.clientId == clientId && !Limit(AttemptsOf(t, clientId), q.now, t.limit).0
      then earlier + [q.now] else earlier
  }

  lemma OnRecordLater(attempts: seq<int>, log: seq<int>, before: int, now: int, limit: nat)
    requires before <= now && OnRecord(attempts, log, before, limit)
    ensures OnRecord(attempts, log, now, limit)
  {
  }

  lemma RegisterAttempts(s: Store, q: Request, clientId: string)
    ensures var t := Register(s, q).0;
            && t.limit == s.limit
            && AttemptsOf(t, clientId) == if WellFormed(q) && q.clientId == clientId
                                          then Limit(AttemptsOf(s, clientId), q.now, s.limit).1
                                          else AttemptsOf(s, clientId)
  {
    hide Limit, AppendUser;
  }

  lemma {:induction false} RunOnRecord(s: Store, qs: seq<Request>, clientId: string, now: int)
    requires 0 < s.limit && s.attempts == map[]
    requires forall i, j :: 0 <= i <= j < |qs| ==> qs[i].now <= qs[j].now
    requires qs != [] ==> qs[|qs| - 1].now <= now
    ensures Run(s, qs).limit == s.limit
    ensures OnRecord(AttemptsOf(Run(s, qs), clientId), Admitted(s, qs, clientId), now, s.limit)
  {
    hide OnRecord, Limit, Register, AttemptsOf, WellFormed;
    if qs == [] {
      NothingOnRecord(s, clientId, now);
    } else {
      var n := |qs| - 1;
      var q, t := qs[n], Run(s, qs[..n]);
      RunOnRecord(s, qs[..n], clientId, q.now);
      RegisterAttempts(t, q, clientId);
      var log := Admitted(s, qs[..n], clientId);
      if WellFormed(q) && q.clientId == clientId {
        LimitKeeps(AttemptsOf(t, clientId), log, q.now, q.now, s.limit);
      }
      OnRecordLater(AttemptsOf(Run(s, qs), clientId), Admitted(s, qs, clientId), q.now, now, s.limit);
    }
  }

  lemma NothingOnRecord(s: Store, clientId: string, now: int)
    requires s.attempts == map[]
    ensures OnRecord(AttemptsOf(s, clientId), [], now, s.limit)
  {
    assert [] == Keep([], now - MINUTE);
  }

  /** With a clock that never runs backwards, no client is let past the limiter more than limit times in any
      closed minute, whatever the other clients do and although old attempts are forgotten. */
  lemma LimiterHolds(s: Store, qs: seq<Request>, clientId: string, from: int)
    requires 0 < s.limit && s.attempts == map[]
    requires forall i, j :: 0 <= i <= j < |qs| ==> qs[i].now <= qs[j].now
    ensures InWindow(Admitted(s, qs, clientId), from) <= s.limit
  {
    RunOnRecord(s, qs, clientId, if qs == [] then 0 else qs[|qs| - 1].now);
    WindowBound(Admitted(s, qs, clientId), from, s.limit);
  }

  /** The limiter turns an attempt away only when limit admissions already lie within the minute before it. */
  lemma LimitedOnlyWhenFull(s: Store, qs: seq<Request>, q: Request)
    requires 0 < s.limit && s.attempts == map[]
    requires forall i, j :: 0 <= i <= j < |qs| ==> qs[i].now <= qs[j].now
    requires qs != [] ==> qs[|qs| - 1].now <= q.now
    ensures Register(Run(s, qs), q).1 == Denied("too many registration attempts")
            ==> InWindow(Admitted(s, qs, q.clientId), q.now - MINUTE) >= s.limit
  {
    hide Run, Admitted, OnRecord, InWindow, Keep;
    RunOnRecord(s, qs, q.clientId, q.now);
    FullRecord(Run(s, qs), q, Admitted(s, qs, q.clientId));
  }

  lemma FullRecord(t: Store, q: Request, log: seq<int>)
    requires OnRecord(AttemptsOf(t, q.clientId), log, q.now, t.limit)
    ensures Register(t, q).1 == Denied("too many registration attempts") ==> InWindow(log, q.now - MINUTE) >= t.limit
  {
    hide InWindow, Keep;
    var w :| w <= q.now - MINUTE && AttemptsOf(t, q.clientId) == Keep(log, w);
    KeepTwice(log, w, q.now - MINUTE);
    KeepIsWindow(log, q.now);
  }

  lemma {:induction false} KeepIsWindow(log: seq<int>, now: int)
    requires forall i :: 0 <= i < |log| ==> log[i] <= now
    ensures |Keep(log, now - MINUTE)| == InWindow(log, now - MINUTE)
  {
    if log != [] { KeepIsWindow(log[..|log| - 1], now); }
  }
}
