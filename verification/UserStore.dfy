/** Registration: validation, the per-client limiter, the append-only file, and the reload at start-up. */
module UserStores {
  import opened Wrappers
  import opened Json
  import opened UserRecords

  // ----- the limiter -----

  const MINUTE: int := 60_000_000_000    // nanoseconds of the steady clock

  function Keep(attempts: seq<int>, start: int): seq<int> {
    if attempts == [] then []
    else
      var n := |attempts| - 1;
      Keep(attempts[..n], start) + (if attempts[n] >= start then [attempts[n]] else [])
  }

  // The attempts that stay on record, and whether this one is turned away.
  function Limit(attempts: seq<int>, now: int, limit: nat): (bool, seq<int>) {
    var kept := Keep(attempts, now - MINUTE);
    if |kept| >= limit then (true, kept) else (false, kept + [now])
  }

  method IsRegistrationLimited(attempts: seq<int>, now: int, limit: nat) returns (limited: bool, after: seq<int>)
    ensures (limited, after) == Limit(attempts, now, limit)
  {
    var kept := [];
    for i := 0 to |attempts|
      invariant kept == Keep(attempts[..i], now - MINUTE)
    {
      assert attempts[..i + 1][..i] == attempts[..i];
      if attempts[i] >= now - MINUTE {
        kept := kept + [attempts[i]];
      }
    }
    assert attempts[..|attempts|] == attempts;
    if |kept| >= limit {
      return true, kept;
    }
    return false, kept + [now];
  }

  ghost predicate Sorted(log: seq<int>) {
    forall i, j :: 0 <= i <= j < |log| ==> log[i] <= log[j]
  }

  lemma {:induction false} KeepTwice(log: seq<int>, w: int, start: int)
    requires w <= start
    ensures Keep(Keep(log, w), start) == Keep(log, start)
  {
    if log != [] {
      var n := |log| - 1;
      KeepTwice(log[..n], w, start);
      var k := Keep(log[..n], w);
      if log[n] >= w {
        assert (k + [log[n]])[..|k|] == k;
      } else {
        assert k + [] == k;
      }
    }
  }

  lemma {:induction false} KeepAll(log: seq<int>, w: int, i: nat)
    requires i < |log| && forall j :: i <= j < |log| ==> log[j] >= w
    ensures |Keep(log, w)| >= |log| - i
  {
    var n := |log| - 1;
    if i < n { KeepAll(log[..n], w, i); }
  }

  // Any limit + 1 admissions in a row span more than a minute.
  ghost predicate Spread(log: seq<int>, limit: nat) {
    forall i :: 0 <= i && i + limit < |log| ==> log[i + limit] - log[i] > MINUTE
  }

  // What is on record for a client whose admissions so far are log, up to time now.
  ghost predicate OnRecord(attempts: seq<int>, log: seq<int>, now: int, limit: nat) {
    && Sorted(log) && Spread(log, limit)
    && (forall i :: 0 <= i < |log| ==> log[i] <= now)
    && exists w :: w <= now - MINUTE && attempts == Keep(log, w)
  }

  lemma LimitKeeps(attempts: seq<int>, log: seq<int>, before: int, now: int, limit: nat)
    requires 0 < limit && before <= now && OnRecord(attempts, log, before, limit)
    ensures var (limited, after) := Limit(attempts, now, limit);
            OnRecord(after, if limited then log else log + [now], now, limit)
  {
    hide Spread, Sorted, Keep;
    var w :| w <= before - MINUTE && attempts == Keep(log, w);
    KeepTwice(log, w, now - MINUTE);
    if |Keep(log, now - MINUTE)| < limit {
      AdmitKeeps(log, now, limit);
      KeepNew(log, now);
      assert forall i :: 0 <= i < |log| ==> (log + [now])[i] == log[i];
    }
  }

  lemma KeepNew(log: seq<int>, now: int)
    ensures Keep(log + [now], now - MINUTE) == Keep(log, now - MINUTE) + [now]
  {
    assert (log + [now])[..|log|] == log;
  }

  lemma AdmitKeeps(log: seq<int>, now: int, limit: nat)
    requires 0 < limit && Sorted(log) && Spread(log, limit) && forall i :: 0 <= i < |log| ==> log[i] <= now
    requires |Keep(log, now - MINUTE)| < limit
    ensures Sorted(log + [now]) && Spread(log + [now], limit)
  {
    var i := |log| - limit;
    if 0 <= i && log[i] >= now - MINUTE {
      KeepAll(log, now - MINUTE, i);
    }
  }

  // How many admissions fall in the closed minute that starts at t.
  function InWindow(log: seq<int>, t: int): nat {
    if log == [] then 0
    else
      var n := |log| - 1;
      InWindow(log[..n], t) + (if t <= log[n] <= t + 60_000_000_000 then 1 else 0)
  }

  lemma {:induction false} InWindowTail(log: seq<int>, t: int, m: nat)
    requires m <= |log| && forall i :: 0 <= i < m ==> log[i] < t
    ensures InWindow(log, t) <= |log| - m
  {
    if m < |log| {
      InWindowTail(log[..|log| - 1], t, m);
    } else if log != [] {
      InWindowTail(log[..m - 1], t, m - 1);
    }
  }

  /** Spread admissions never exceed the limit in any closed minute. */
  lemma {:induction false} WindowBound(log: seq<int>, t: int, limit: nat)
    requires 0 < limit && Sorted(log) && Spread(log, limit)
    ensures InWindow(log, t) <= limit
  {
    if log != [] {
      var n := |log| - 1;
      if t <= log[n] <= t + MINUTE {
        var m := if |log| > limit then |log| - limit else 0;
        forall i | 0 <= i < m ensures log[i] < t {
          assert log[n] - log[n - limit] > MINUTE;
          assert log[i] <= log[n - limit];
        }
        InWindowTail(log, t, m);
      } else {
        assert Sorted(log[..n]) && Spread(log[..n], limit);
        WindowBound(log[..n], t, limit);
      }
    }
  }

  // ----- the file -----

  // std::getline, until it fails.
  function Lines(s: string): seq<string>
    decreases |s|
  {
    if s == "" then []
    else
      match After(s, "\n")
      case None => [s]
      case Some(rest) => [s[..|s| - |rest| - 1]] + Lines(rest)
  }

  predicate Blank(line: string) {
    forall c :: c in line ==> IsSpace(c)
  }

  // Whether every line parses, and the users read up to the first that does not.
  function LoadLines(lines: seq<string>, users: map<string, StoredUser>): (bool, map<string, StoredUser>) {
    if lines == [] then (true, users)
    else if Blank(lines[0]) then LoadLines(lines[1..], users)
    else
      match ParseUser(lines[0])
      case None => (false, users)
      case Some(u) => LoadLines(lines[1..], users[u.username := u])
  }

  function PrintAll(regs: seq<StoredUser>): string {
    if regs == [] then "" else PrintUser(regs[0]) + "\n" + PrintAll(regs[1..])
  }

  function ToMap(regs: seq<StoredUser>): map<string, StoredUser> {
    if regs == [] then map[]
    else
      var u := regs[|regs| - 1];
      ToMap(regs[..|regs| - 1])[u.username := u]
  }

  // ----- registration -----

  datatype WriteOutcome =
    | NoDirectory
    | CannotOpen
    | Torn(n: nat)    // the stream failed after n characters
    | Written

  datatype Request = Request(
    username: string, password: string, inviteCode: string, clientId: string,
    now: int, salt: string, hash: string, write: WriteOutcome)

  datatype AuthResult = Denied(error: string) | Registered(username: string, role: string)

  datatype Store = Store(
    inviteCode: string,
    limit: nat,
    users: map<string, StoredUser>,
    attempts: map<string, seq<int>>,
    disk: Option<string>)

  predicate NameChar(c: char) {
    'a' <= c <= 'z' || 'A' <= c <= 'Z' || '0' <= c <= '9' || c == '_' || c == '-'
  }

  function UsernameError(username: string): Option<string> {
    if |username| < 3 || |username| > 32 then Some("username must be 3 to 32 characters")
    else if exists c :: c in username && !NameChar(c) then
      Some("username can only contain letters, numbers, underscores, and hyphens")
    else None
  }

  function PasswordError(password: string): Option<string> {
    if |password| < 8 || |password| > 128 then Some("password must be 8 to 128 characters") else None
  }

  function AttemptsOf(s: Store, clientId: string): seq<int> {
    if clientId in s.attempts then s.attempts[clientId] else []
  }

  function UserOf(q: Request): StoredUser {
    StoredUser(q.username, "user", q.salt, q.hash)
  }

  function Content(disk: Option<string>): string {
    match disk case None => "" case Some(s) => s
  }

  function AppendUser(disk: Option<string>, u: StoredUser, write: WriteOutcome): (Option<string>, Option<string>) {
    var line := PrintUser(u) + "\n";
    match write
    case NoDirectory => (disk, Some("failed to create user data directory"))
    case CannotOpen => (disk, Some("failed to open user data file"))
    case Torn(n) => (Some(Content(disk) + (if n < |line| then line[..n] else line)), Some("failed to write user data file"))
    case Written => (Some(Content(disk) + line), None)
  }

  function Register(s: Store, q: Request): (Store, AuthResult) {
    if UsernameError(q.username).Some? then (s, Denied(UsernameError(q.username).value))
    else if PasswordError(q.password).Some? then (s, Denied(PasswordError(q.password).value))
    else
      var (limited, after) := Limit(AttemptsOf(s, q.clientId), q.now, s.limit);
      var t := s.(attempts := s.attempts[q.clientId := after]);
      if limited then (t, Denied("too many registration attempts"))
      else if s.inviteCode != "" && q.inviteCode != s.inviteCode then (t, Denied("invalid invite code"))
      else if q.username in s.users then (t, Denied("username already exists"))
      else
        var (disk, error) := AppendUser(s.disk, UserOf(q), q.write);
        if error.Some? then (t.(disk := disk), Denied(error.value))
        else (t.(disk := disk, users := s.users[q.username := UserOf(q)]), Registered(q.username, "user"))
  }

  method ValidateUsername(username: string) returns (error: Option<string>)
    ensures error == UsernameError(username)
  {
    if |username| < 3 || |username| > 32 {
      return Some("username must be 3 to 32 characters");
    }
    for i := 0 to |username|
      invariant forall j :: 0 <= j < i ==> NameChar(username[j])
    {
      if !NameChar(username[i]) {
        return Some("username can only contain letters, numbers, underscores, and hyphens");
      }
    }
    return None;
  }

  class UserStore {
    const inviteCode: string
    const limit: nat
    var users: map<string, StoredUser>
    var attempts: map<string, seq<int>>
    var disk: Option<string>    // the content of the file at path_, if there is one

    function Model(): Store
      reads this
    {
      Store(inviteCode, limit, users, attempts, disk)
    }

    constructor (inviteCode: string, limit: nat, disk: Option<string>)
      requires 0 < limit
      ensures Model() == Store(inviteCode, limit, map[], map[], disk)
    {
      this.inviteCode, this.limit, this.disk := inviteCode, limit, disk;
      users, attempts := map[], map[];
    }

    // The users read so far stay when a line does not parse.
    method Load(directoryOk: bool) returns (error: Option<string>)
      modifies this`users
      ensures !directoryOk ==> users == old(users) && error == Some("failed to create user data directory")
      ensures directoryOk && disk == None ==> users == old(users) && error == None
      ensures directoryOk && disk.Some? ==>
                var (ok, loaded) := LoadLines(Lines(disk.value), old(users));
                users == loaded && error == if ok then None else Some("failed to parse user data file")
    {
      if !directoryOk {
        return Some("failed to create user data directory");
      }
      if disk == None {
        return None;
      }
      hide ParseUser, IsSpace, Lines, Blank;
      var lines := Lines(disk.value);
      ghost var all := LoadLines(lines, users);
      var i := 0;
      while i < |lines|
        invariant i <= |lines| && all == LoadLines(lines[i..], users)
      {
        assert lines[i..][1..] == lines[i + 1..];
        var blank := TrimsToNothing(lines[i]);
        if !blank {
          var user := ReadUser(lines[i]);
          if user == None {
            return Some("failed to parse user data file");
          }
          users := users[user.value.username := user.value];
        }
        i := i + 1;
      }
      return None;
    }

    method AppendUserLocked(u: StoredUser, write: WriteOutcome) returns (error: Option<string>)
      modifies this`disk
      ensures (disk, error) == AppendUser(old(disk), u, write)
      // Success adds the whole line and nothing else; failure adds at most a front part of it; what was there stays.
      ensures error == None <==> write == Written
      ensures Content(old(disk)) <= Content(disk) <= Content(old(disk)) + (PrintUser(u) + "\n")
      ensures error == None ==> disk == Some(Content(old(disk)) + (PrintUser(u) + "\n"))
      ensures write == NoDirectory || write == CannotOpen ==> disk == old(disk)
    {
      hide PrintUser;
      if write == NoDirectory {
        return Some("failed to create user data directory");
      }
      if write == CannotOpen {
        return Some("failed to open user data file");
      }
      var line := PrintUser(u) + "\n";
      var content := Content(disk);
      if write.Torn? {
        disk := Some(content + (if write.n < |line| then line[..write.n] else line));
        return Some("failed to write user data file");
      }
      disk := Some(content + line);
      return None;
    }

    method RegisterUser(q: Request) returns (r: AuthResult)
      modifies this
      ensures (Model(), r) == Register(old(Model()), q)
    {
      var error := ValidateUsername(q.username);
      if error == None {
        error := PasswordError(q.password);
      }
      if error.Some? {
        return Denied(error.value);
      }
      var record := if q.clientId in attempts then attempts[q.clientId] else [];
      var limited, after := IsRegistrationLimited(record, q.now, limit);
      attempts := attempts[q.clientId := after];
      if limited {
        return Denied("too many registration attempts");
      }
      if inviteCode != "" && q.inviteCode != inviteCode {
        return Denied("invalid invite code");
      }
      if q.username in users {
        return Denied("username already exists");
      }
      var user := StoredUser(q.username, "user", q.salt, q.hash);
      error := AppendUserLocked(user, q.write);
      if error.Some? {
        return Denied(error.value);
      }
      users := users[user.username := user];
      return Registered(user.username, user.role);
    }
  }

  method ReadUser(line: string) returns (user: Option<StoredUser>)
    ensures user == ParseUser(line)
  {
    hide CodecField;
    var username := ExtractCodec(line, "username");
    var role := ExtractCodec(line, "role");
    var salt := ExtractCodec(line, "salt");
    var hash := ExtractCodec(line, "password_hash");
    if username == None || role == None || salt == None || hash == None {
      return None;
    }
    return Some(StoredUser(username.value, role.value, salt.value, hash.value));
  }

  method TrimsToNothing(line: string) returns (blank: bool)
    ensures blank <==> Blank(line)
  {
    var trimmed := Trim(line);
    TrimBlank(line, trimmed);
    return trimmed == "";
  }

  lemma TrimBlank(line: string, r: string)
    requires exists b, e :: 0 <= b <= e <= |line| && r == line[b..e]
                            && (forall i :: 0 <= i < b || e <= i < |line| ==> IsSpace(line[i]))
    requires r != "" ==> !IsSpace(r[0])
    ensures Blank(line) <==> r == ""
  {
    var b, e :| 0 <= b <= e <= |line| && r == line[b..e] && (forall i :: 0 <= i < b || e <= i < |line| ==> IsSpace(line[i]));
    if r != "" {
      assert r[0] == line[b] && line[b] in line;
    }
  }
}
