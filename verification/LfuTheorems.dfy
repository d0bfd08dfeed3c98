/** What every run of an LFU slice keeps, and exactly when. */
module LfuTheorems {
  import opened Wrappers
  import opened LfuSpec

  // ----- sums of frequencies -----

  ghost function Sum(entries: map<Key, Entry>): int
    decreases |entries|
  {
    if entries == map[] then 0
    else
      var k :| k in entries;
      assert (entries - {k}).Keys == entries.Keys - {k};
      entries[k].freq + Sum(entries - {k})
  }

  lemma {:induction false} SumRemove(entries: map<Key, Entry>, k: Key)
    requires k in entries
    ensures Sum(entries) == entries[k].freq + Sum(entries - {k})
    decreases |entries|
  {
    var j :| j in entries && Sum(entries) == entries[j].freq + Sum(entries - {j});
    if j != k {
      assert (entries - {j}).Keys == entries.Keys - {j};
      assert (entries - {k}).Keys == entries.Keys - {k};
      SumRemove(entries - {j}, k);
      SumRemove(entries - {k}, j);
      assert entries - {j} - {k} == entries - {k} - {j};
    }
  }

  lemma SumUpdate(entries: map<Key, Entry>, k: Key, e: Entry)
    ensures Sum(entries[k := e]) == Sum(entries) - (if k in entries then entries[k].freq else 0) + e.freq
  {
    SumRemove(entries[k := e], k);
    if k in entries {
      SumRemove(entries, k);
      assert entries[k := e] - {k} == entries - {k};
    } else {
      assert entries[k := e] - {k} == entries;
    }
  }

  lemma {:induction false} SumMonotone(small: map<Key, Entry>, large: map<Key, Entry>)
    requires small.Keys == large.Keys
    requires forall k :: k in small ==> small[k].freq <= large[k].freq
    ensures Sum(small) <= Sum(large)
    decreases |small|
  {
    if small == map[] {
      assert large == map[];
    } else {
      var k :| k in small;
      assert (small - {k}).Keys == small.Keys - {k} == (large - {k}).Keys;
      SumRemove(small, k);
      SumRemove(large, k);
      SumMonotone(small - {k}, large - {k});
    }
  }

  lemma {:induction false} SumAtLeast(entries: map<Key, Entry>, m: int)
    requires forall k :: k in entries ==> m <= entries[k].freq
    ensures m * |entries| <= Sum(entries)
    decreases |entries|
  {
    if entries != map[] {
      var k :| k in entries;
      var rest := entries - {k};
      assert rest.Keys == entries.Keys - {k};
      assert |rest| == |entries| - 1;
      SumRemove(entries, k);
      SumAtLeast(rest, m);
      MulSucc(m, |rest|);
    }
  }

  lemma MulSucc(m: int, n: int)
    ensures m * (n + 1) == m * n + m
  {
  }

  lemma AtMostAverage(least: int, n: int, total: int)
    requires n > 0 && least * n <= total
    ensures least <= total / n
  {
    var q := total / n;
    assert n * q + total % n == total;
    MulStrict(q, least, n);
    MulSucc(n, q);
  }

  lemma MulStrict(q: int, m: int, n: int)
    requires n > 0
    ensures q < m ==> (q + 1) * n <= m * n
  {
  }

  // ----- aging -----

  lemma {:induction false} AgeKeysAt(entries: map<Key, Entry>, order: seq<Key>, half: int, clock: nat, k: Key)
    requires forall j :: j in order ==> j in entries
    requires forall i, j :: 0 <= i < j < |order| ==> order[i] != order[j]
    requires k in entries
    ensures var aged := AgeKeys(entries, order, half, clock);
            && (k !in order ==> aged[k] == entries[k])
            && (forall i :: 0 <= i < |order| && order[i] == k ==>
                  aged[k] == Entry(entries[k].value, AgedFreq(entries[k].freq, half), clock + i))
  {
    if order != [] {
      var n := |order| - 1;
      AgeKeysAt(entries, order[..n], half, clock, k);
      assert order == order[..n] + [order[n]];
      if order[n] == k {
        assert k !in order[..n];
      }
    }
  }

  // Each frequency drops, each value stays, and the new stamp is the place in the walk.
  ghost predicate AgedFrom(aged: map<Key, Entry>, entries: map<Key, Entry>, order: seq<Key>, half: int, clock: nat) {
    && aged.Keys == entries.Keys
    && (forall k :: k in entries ==> AgedAt(aged, entries, order, half, clock, k))
  }

  lemma AgeAll(entries: map<Key, Entry>, order: seq<Key>, half: int, clock: nat)
    requires Enumerates(order, entries.Keys)
    ensures AgedFrom(AgeKeys(entries, order, half, clock), entries, order, half, clock)
  {
    hide AgeKeys, AgedFreq;
    forall k | k in entries
      ensures AgedAt(AgeKeys(entries, order, half, clock), entries, order, half, clock, k)
    {
      AgeOne(entries, order, half, clock, k);
    }
  }

  ghost predicate AgedAt(aged: map<Key, Entry>, entries: map<Key, Entry>, order: seq<Key>, half: int, clock: nat, k: Key)
    requires k in entries && k in aged
  {
    && aged[k].value == entries[k].value
    && aged[k].freq == AgedFreq(entries[k].freq, half)
    && clock <= aged[k].stamp < clock + |order|
    && order[aged[k].stamp - clock] == k
  }

  lemma AgeOne(entries: map<Key, Entry>, order: seq<Key>, half: int, clock: nat, k: Key)
    requires Enumerates(order, entries.Keys) && k in entries
    ensures AgedAt(AgeKeys(entries, order, half, clock), entries, order, half, clock, k)
  {
    hide AgeKeys, AgedFreq;
    AgeKeysAt(entries, order, half, clock, k);
    var i :| 0 <= i < |order| && order[i] == k;
  }

  // ----- the invariant -----

  ghost predicate StampsOk(entries: map<Key, Entry>, clock: nat) {
    && (forall k :: k in entries ==> entries[k].stamp < clock)
    && (forall j, k :: j in entries && k in entries && j != k ==> entries[j].stamp != entries[k].stamp)
  }

  // Frequencies are positive and the running total bounds their sum from above.
  ghost predicate CountsOk(entries: map<Key, Entry>, total: int) {
    && (forall k :: k in entries ==> 1 <= entries[k].freq)
    && Sum(entries) <= total
  }

  // maxAverage values for which aging works: it must lower something, and never leave 127 as the least frequency.
  ghost predicate InRange(maxAverage: int) {
    2 <= maxAverage <= 250
  }

  ghost predicate MinOk(c: Cache) {
    c.entries != map[] ==> IsLeast(c.minFreq, c.entries)
  }

  ghost predicate Inv(c: Cache) {
    && StampsOk(c.entries, c.clock)
    && CountsOk(c.entries, c.total)
    && MinOk(c)
    && 1 <= c.minFreq
    && (c.entries != map[] ==> c.minFreq <= c.maxAverage)
    && (0 <= c.capacity ==> |c.entries| <= c.capacity)
  }

  lemma InitInv(capacity: int, maxAverage: int)
    ensures Inv(Init(capacity, maxAverage))
  {
    assert Sum(map[]) == 0;
  }

  lemma LeastUnique(m: int, entries: map<Key, Entry>)
    requires IsLeast(m, entries)
    ensures entries != map[] && LeastFreq(entries) == m
  {
  }

  lemma LeastPositive(m: int, entries: map<Key, Entry>, total: int)
    requires IsLeast(m, entries) && CountsOk(entries, total)
    ensures 1 <= m && entries != map[]
  {
  }

  lemma AgedLeast(aged: map<Key, Entry>, entries: map<Key, Entry>, order: seq<Key>, half: int, clock: nat, least: int)
    requires AgedFrom(aged, entries, order, half, clock) && IsLeast(least, entries)
    ensures IsLeast(AgedFreq(least, half), aged)
  {
    var w :| w in entries && entries[w].freq == least;
    assert w in aged && aged[w].freq == AgedFreq(least, half);
  }

  lemma AgedKeeps(aged: map<Key, Entry>, entries: map<Key, Entry>, order: seq<Key>, half: int, clock: nat, least: int)
    requires AgedFrom(aged, entries, order, half, clock) && IsLeast(least, entries) && 1 <= least && 0 <= half
    ensures StampsOk(aged, clock + |order|)
    ensures forall total :: CountsOk(entries, total) ==> CountsOk(aged, total)
    ensures IsLeast(AgedFreq(least, half), aged)
  {
    SumMonotone(aged, entries);
    AgedLeast(aged, entries, order, half, clock, least);
  }

  /** Counting one access brings the least frequency (now) back under the limit, whether or not the
      access ages the cache: without aging the average bounds it, with aging the halving does. */
  lemma AddFreqNumKeeps(c: Cache, order: seq<Key>, least: int) returns (now: int)
    requires InRange(c.maxAverage) && Enumerates(order, c.entries.Keys)
    requires StampsOk(c.entries, c.clock) && CountsOk(c.entries, c.total + 1)
    requires IsLeast(least, c.entries) && least <= c.maxAverage + 1
    ensures var d := AddFreqNum(c, order);
            && d.entries.Keys == c.entries.Keys && d.capacity == c.capacity && d.maxAverage == c.maxAverage
            && StampsOk(d.entries, d.clock) && CountsOk(d.entries, d.total)
            && IsLeast(now, d.entries) && 1 <= now <= least && now <= c.maxAverage
            && (d.minFreq == now || (d.minFreq == c.minFreq && now == least))
  {
    hide IsLeast, AgedFrom, StampsOk, CountsOk, AgeKeys;
    LeastPositive(least, c.entries, c.total + 1);
    if AverageOf(c.total + 1, c.entries) > c.maxAverage {
      var half := Half(c.maxAverage);
      var aged := AgeKeys(c.entries, order, half, c.clock);
      AgeAll(c.entries, order, half, c.clock);
      AgedKeeps(aged, c.entries, order, half, c.clock, least);
      now := AgedFreq(least, half);
      LeastUnique(now, aged);
    } else {
      now := least;
      LeastUnderAverage(c.entries, least, c.total + 1);
    }
  }

  lemma LeastUnderAverage(entries: map<Key, Entry>, least: int, total: int)
    requires IsLeast(least, entries) && CountsOk(entries, total)
    ensures least <= AverageOf(total, entries)
  {
    SumAtLeast(entries, least);
    AtMostAverage(least, |entries|, total);
  }

  lemma PromoteLeast(c: Cache, k: Key)
    requires k in c.entries && IsLeast(c.minFreq, c.entries)
    ensures IsLeast(Promote(c, k).minFreq, Promote(c, k).entries)
    ensures c.minFreq <= Promote(c, k).minFreq <= c.minFreq + 1
  {
    var e := c.entries[k];
    var moved := c.entries[k := Entry(e.value, e.freq + 1, c.clock)];
    assert forall j :: j in moved <==> j in c.entries;
    if e.freq != c.minFreq {
      var w :| w in c.entries && c.entries[w].freq == c.minFreq;
      assert w in moved && moved[w].freq == c.minFreq;
    } else if !HasFreq(moved, e.freq) {
      assert k in moved && moved[k].freq == e.freq + 1;
    }
  }

  lemma StampNew(entries: map<Key, Entry>, k: Key, e: Entry, clock: nat)
    requires StampsOk(entries, clock) && e.stamp == clock
    ensures StampsOk(entries[k := e], clock + 1)
  {
  }

  lemma PromoteKeeps(c: Cache, k: Key)
    requires StampsOk(c.entries, c.clock) && CountsOk(c.entries, c.total) && k in c.entries
    ensures var d := Promote(c, k);
            && d.entries.Keys == c.entries.Keys && StampsOk(d.entries, d.clock)
            && CountsOk(d.entries, d.total + 1)
  {
    hide StampsOk;
    var e := c.entries[k];
    SumUpdate(c.entries, k, Entry(e.value, e.freq + 1, c.clock));
    StampNew(c.entries, k, Entry(e.value, e.freq + 1, c.clock), c.clock);
  }

  lemma SameKeys(a: map<Key, Entry>, b: map<Key, Entry>)
    requires a.Keys == b.Keys
    ensures |a| == |b| && (a == map[] <==> b == map[])
  {
    assert |a.Keys| == |b.Keys|;
  }

  lemma TouchKeeps(c: Cache, k: Key, order: seq<Key>)
    requires InRange(c.maxAverage) && Inv(c) && k in c.entries && Enumerates(order, c.entries.Keys)
    ensures Inv(Touch(c, k, order))
  {
    hide IsLeast, HasFreq, Enumerates, StampsOk, CountsOk, AddFreqNum;
    var d := Promote(c, k);
    PromoteKeeps(c, k);
    PromoteLeast(c, k);
    var now := AddFreqNumKeeps(d, order, d.minFreq);
    SameKeys(Touch(c, k, order).entries, c.entries);
  }

  lemma KickOutKeeps(c: Cache)
    requires StampsOk(c.entries, c.clock) && CountsOk(c.entries, c.total) && HasFreq(c.entries, c.minFreq)
    ensures var d := KickOut(c);
            && d.entries.Keys == c.entries.Keys - {Victim(c)}
            && StampsOk(d.entries, d.clock) && CountsOk(d.entries, d.total) && |d.entries| == |c.entries| - 1
  {
    SumRemove(c.entries, Victim(c));
    assert KickOut(c).entries.Keys == c.entries.Keys - {Victim(c)};
  }

  lemma InsertKeeps(c: Cache, k: Key, v: Value)
    requires StampsOk(c.entries, c.clock) && CountsOk(c.entries, c.total) && k !in c.entries
    ensures var d := Insert(c, k, v);
            && d.entries.Keys == c.entries.Keys + {k} && |d.entries| == |c.entries| + 1
            && StampsOk(d.entries, d.clock) && CountsOk(d.entries, d.total + 1) && IsLeast(1, d.entries)
  {
    hide StampsOk;
    var d := Insert(c, k, v);
    SumUpdate(c.entries, k, Entry(v, 1, c.clock));
    StampNew(c.entries, k, Entry(v, 1, c.clock), c.clock);
    assert d.entries.Keys == c.entries.Keys + {k};
    assert d.entries[k].freq == 1;
  }

  lemma PutNewKeeps(c: Cache, k: Key, v: Value, order: seq<Key>)
    requires InRange(c.maxAverage) && Inv(c) && c.capacity != 0
    requires k !in c.entries && Enumerates(order, MakeRoom(c).entries.Keys + {k})
    ensures Inv(PutNew(c, k, v, order))
    ensures PutNew(c, k, v, order).entries.Keys == MakeRoom(c).entries.Keys + {k}
  {
    hide IsLeast, HasFreq, Enumerates, StampsOk, CountsOk, AddFreqNum;
    if |c.entries| == c.capacity {
      EvictionDefined(c);
      KickOutKeeps(c);
    }
    var room := MakeRoom(c);
    var added := Insert(room, k, v);
    InsertKeeps(room, k, v);
    var now := AddFreqNumKeeps(added, order, 1);
    SameKeys(PutNew(c, k, v, order).entries, added.entries);
  }

  lemma WithValueKeeps(c: Cache, k: Key, v: Value)
    requires Inv(c) && k in c.entries
    ensures Inv(WithValue(c, k, v)) && WithValue(c, k, v).entries.Keys == c.entries.Keys
  {
    var d := WithValue(c, k, v);
    SumUpdate(c.entries, k, c.entries[k].(value := v));
    SameLeast(c.entries, d.entries, c.minFreq);
    SameKeys(c.entries, d.entries);
  }

  lemma SameLeast(a: map<Key, Entry>, b: map<Key, Entry>, m: int)
    requires IsLeast(m, a) && a.Keys == b.Keys && forall k :: k in a ==> a[k].freq == b[k].freq
    ensures IsLeast(m, b)
  {
    var w :| w in a && a[w].freq == m;
    assert w in b && b[w].freq == m;
  }

  lemma EmptyKeeps(entries: map<Key, Entry>, total: int, clock: nat)
    requires CountsOk(entries, total)
    ensures StampsOk(map[], clock) && CountsOk(map[], total)
  {
    SumAtLeast(entries, 0);
  }

  lemma StepKeeps(c: Cache, op: Op)
    requires InRange(c.maxAverage) && Inv(c) && Legal(c, op)
    ensures Inv(Step(c, op))
    ensures Step(c, op).maxAverage == c.maxAverage && Step(c, op).capacity == c.capacity
  {
    hide IsLeast, HasFreq, Enumerates, StampsOk, CountsOk;
    match op
    case Put(k, v, order) =>
      if c.capacity != 0 {
        if k in c.entries {
          WithValueKeeps(c, k, v);
          TouchKeeps(WithValue(c, k, v), k, order);
        } else {
          PutNewKeeps(c, k, v, order);
        }
      }
    case Get(k, order) =>
      if k in c.entries { TouchKeeps(c, k, order); }
    case Purge =>
      EmptyKeeps(c.entries, c.total, c.clock);
  }

  // ----- the stamps alone, whatever the limit -----

  lemma AgedStamps(aged: map<Key, Entry>, entries: map<Key, Entry>, order: seq<Key>, half: int, clock: nat)
    requires AgedFrom(aged, entries, order, half, clock)
    ensures StampsOk(aged, clock + |order|)
  {
  }

  lemma AddFreqNumStamps(c: Cache, order: seq<Key>)
    requires Enumerates(order, c.entries.Keys) && StampsOk(c.entries, c.clock)
    ensures StampsOk(AddFreqNum(c, order).entries, AddFreqNum(c, order).clock)
  {
    hide StampsOk, AgedFrom, AgeKeys;
    var half := Half(c.maxAverage);
    AgeAll(c.entries, order, half, c.clock);
    AgedStamps(AgeKeys(c.entries, order, half, c.clock), c.entries, order, half, c.clock);
  }

  lemma TouchStamps(c: Cache, k: Key, order: seq<Key>)
    requires StampsOk(c.entries, c.clock) && k in c.entries && Enumerates(order, c.entries.Keys)
    ensures StampsOk(Touch(c, k, order).entries, Touch(c, k, order).clock)
  {
    hide StampsOk, AddFreqNum, Enumerates;
    var e := c.entries[k];
    StampNew(c.entries, k, Entry(e.value, e.freq + 1, c.clock), c.clock);
    assert Promote(c, k).entries.Keys == c.entries.Keys;
    AddFreqNumStamps(Promote(c, k), order);
  }

  lemma StampsSubset(entries: map<Key, Entry>, k: Key, clock: nat)
    requires StampsOk(entries, clock)
    ensures StampsOk(entries - {k}, clock)
  {
  }

  lemma PutNewStamps(c: Cache, k: Key, v: Value, order: seq<Key>)
    requires StampsOk(c.entries, c.clock) && k !in c.entries
    requires Enumerates(order, MakeRoom(c).entries.Keys + {k})
    ensures StampsOk(PutNew(c, k, v, order).entries, PutNew(c, k, v, order).clock)
  {
    hide StampsOk, AddFreqNum, Enumerates, HasFreq;
    if HasFreq(c.entries, c.minFreq) { StampsSubset(c.entries, Victim(c), c.clock); }
    var room := MakeRoom(c);
    StampNew(room.entries, k, Entry(v, 1, room.clock), room.clock);
    assert Insert(room, k, v).entries.Keys == room.entries.Keys + {k};
    AddFreqNumStamps(Insert(room, k, v), order);
  }

  lemma SameStamps(a: map<Key, Entry>, b: map<Key, Entry>, clock: nat)
    requires StampsOk(a, clock) && b.Keys == a.Keys && forall k :: k in a ==> b[k].stamp == a[k].stamp
    ensures StampsOk(b, clock)
  {
  }

  lemma EmptyStamps(clock: nat)
    ensures StampsOk(map[], clock)
  {
  }

  // Every call keeps the stamps apart and behind the clock, for any maxAverage.
  lemma StepStamps(c: Cache, op: Op)
    requires StampsOk(c.entries, c.clock) && Legal(c, op)
    ensures StampsOk(Step(c, op).entries, Step(c, op).clock)
  {
    hide StampsOk, Enumerates, HasFreq, Touch, PutNew, MakeRoom;
    match op
    case Put(k, v, order) =>
      if c.capacity != 0 {
        if k in c.entries {
          var d := WithValue(c, k, v);
          assert d.entries.Keys == c.entries.Keys;
          SameStamps(c.entries, d.entries, c.clock);
          TouchStamps(d, k, order);
        } else {
          PutNewStamps(c, k, v, order);
        }
      }
    case Get(k, order) => if k in c.entries { TouchStamps(c, k, order); }
    case Purge => EmptyStamps(c.clock);
  }

  // ----- frequencies and minFreq are positive, whatever the limit -----

  ghost predicate Positive(c: Cache) {
    1 <= c.minFreq && forall k :: k in c.entries ==> 1 <= c.entries[k].freq
  }

  lemma AddFreqNumPositive(c: Cache, order: seq<Key>)
    requires Enumerates(order, c.entries.Keys) && Positive(c)
    ensures Positive(AddFreqNum(c, order))
  {
    hide AgedFrom, AgeKeys, UpdatedMin;
    var half := Half(c.maxAverage);
    AgeAll(c.entries, order, half, c.clock);
    AgedPositive(AgeKeys(c.entries, order, half, c.clock), c.entries, order, half, c.clock);
  }

  lemma AgedPositive(aged: map<Key, Entry>, entries: map<Key, Entry>, order: seq<Key>, half: int, clock: nat)
    requires AgedFrom(aged, entries, order, half, clock)
    ensures (forall k :: k in aged ==> 1 <= aged[k].freq) && 1 <= UpdatedMin(aged)
  {
  }

  lemma TouchPositive(c: Cache, k: Key, order: seq<Key>)
    requires Positive(c) && k in c.entries && Enumerates(order, c.entries.Keys)
    ensures Positive(Touch(c, k, order))
  {
    hide AddFreqNum, Enumerates, HasFreq;
    assert Promote(c, k).entries.Keys == c.entries.Keys;
    AddFreqNumPositive(Promote(c, k), order);
  }

  lemma PutNewPositive(c: Cache, k: Key, v: Value, order: seq<Key>)
    requires Positive(c) && k !in c.entries && Enumerates(order, MakeRoom(c).entries.Keys + {k})
    ensures Positive(PutNew(c, k, v, order)) && PutNew(c, k, v, order).minFreq == 1
  {
    hide AddFreqNum, Enumerates, HasFreq;
    var added := Insert(MakeRoom(c), k, v);
    assert added.entries.Keys == MakeRoom(c).entries.Keys + {k};
    AddFreqNumPositive(added, order);
  }

  lemma StepPositive(c: Cache, op: Op)
    requires Positive(c) && Legal(c, op)
    ensures Positive(Step(c, op))
  {
    hide Enumerates, HasFreq, Touch, PutNew, MakeRoom;
    match op
    case Put(k, v, order) =>
      if c.capacity != 0 {
        if k in c.entries {
          assert WithValue(c, k, v).entries.Keys == c.entries.Keys;
          TouchPositive(WithValue(c, k, v), k, order);
        } else {
          PutNewPositive(c, k, v, order);
        }
      }
    case Get(k, order) => if k in c.entries { TouchPositive(c, k, order); }
    case Purge =>
  }

  // ----- every run -----

  /** In every state reachable by put, get and purge, minFreq is the least frequency present and at
      most maxAverage, total bounds the sum of frequencies, and the size is within capacity. */
  lemma {:induction false} RunKeeps(capacity: int, maxAverage: int, ops: seq<Op>)
    requires InRange(maxAverage) && LegalRun(Init(capacity, maxAverage), ops)
    ensures var c := Run(Init(capacity, maxAverage), ops);
            Inv(c) && c.maxAverage == maxAverage && c.capacity == capacity
    decreases |ops|
  {
    if ops == [] {
      InitInv(capacity, maxAverage);
    } else {
      var n := |ops| - 1;
      RunKeeps(capacity, maxAverage, ops[..n]);
      StepKeeps(Run(Init(capacity, maxAverage), ops[..n]), ops[n]);
    }
  }

  // Hence a full cache always finds a node to evict.
  lemma EvictionDefined(c: Cache)
    requires Inv(c)
    ensures c.entries != map[] ==> HasFreq(c.entries, c.minFreq)
    ensures forall k :: CanPut(c, k)
  {
    if |c.entries| == c.capacity != 0 { assert c.entries != map[]; }
  }

  /** A put of a new key into a full cache drops exactly one entry: the one that is least by frequency
      and, among those, by the time it reached that frequency. */
  lemma EvictionIsLfu(c: Cache, k: Key, v: Value, order: seq<Key>) returns (out: Key)
    requires InRange(c.maxAverage) && Inv(c) && 0 < c.capacity == |c.entries| && k !in c.entries
    requires Legal(c, Put(k, v, order))
    ensures out in c.entries
    ensures forall j :: j in c.entries && j != out ==>
              c.entries[out].freq < c.entries[j].freq
              || (c.entries[out].freq == c.entries[j].freq && c.entries[out].stamp < c.entries[j].stamp)
    ensures var d := Step(c, Put(k, v, order));
            && d.entries.Keys == c.entries.Keys - {out} + {k}
            && d.entries[k].value == v
            && (forall j :: j in c.entries && j != out ==> d.entries[j].value == c.entries[j].value)
  {
    hide StampsOk, CountsOk, HasFreq, AddFreqNum, Enumerates;
    out := Victim(c);
    PutNewValues(c, k, v, order);
    VictimLeast(c, out);
    assert KickOut(c).entries.Keys == c.entries.Keys - {out};
  }

  lemma VictimLeast(c: Cache, out: Key)
    requires StampsOk(c.entries, c.clock) && MinOk(c) && IsVictim(c, out)
    ensures forall j :: j in c.entries && j != out ==>
              c.entries[out].freq < c.entries[j].freq
              || (c.entries[out].freq == c.entries[j].freq && c.entries[out].stamp < c.entries[j].stamp)
  {
  }

  // ----- values -----

  lemma AddFreqNumValues(c: Cache, order: seq<Key>)
    requires Enumerates(order, c.entries.Keys)
    ensures var d := AddFreqNum(c, order);
            && d.capacity == c.capacity && d.maxAverage == c.maxAverage && d.entries.Keys == c.entries.Keys
            && (forall k :: k in c.entries ==> d.entries[k].value == c.entries[k].value)
  {
    AgeAll(c.entries, order, Half(c.maxAverage), c.clock);
  }

  lemma PutNewValues(c: Cache, k: Key, v: Value, order: seq<Key>)
    requires k !in c.entries && Enumerates(order, MakeRoom(c).entries.Keys + {k})
    ensures var d := PutNew(c, k, v, order);
            && d.entries.Keys == MakeRoom(c).entries.Keys + {k} && d.entries[k].value == v
            && (forall j :: j in MakeRoom(c).entries ==> j in c.entries && d.entries[j].value == c.entries[j].value)
  {
    var added := Insert(MakeRoom(c), k, v);
    assert added.entries.Keys == MakeRoom(c).entries.Keys + {k};
    AddFreqNumValues(added, order);
  }

  lemma StepSettings(c: Cache, op: Op)
    requires Legal(c, op)
    ensures Step(c, op).capacity == c.capacity && Step(c, op).maxAverage == c.maxAverage
    ensures c.capacity == 0 && c.entries == map[] ==> Step(c, op).entries == map[]
  {
    hide HasFreq, Enumerates, AgeKeys, UpdatedMin, AddFreqNum;
    match op
    case Put(k, v, order) =>
      if c.capacity != 0 && k in c.entries {
        var w := WithValue(c, k, v);
        assert w.entries.Keys == c.entries.Keys == Promote(w, k).entries.Keys;
        AddFreqNumValues(Promote(w, k), order);
      } else if c.capacity != 0 {
        assert Insert(MakeRoom(c), k, v).entries.Keys == MakeRoom(c).entries.Keys + {k};
        AddFreqNumValues(Insert(MakeRoom(c), k, v), order);
      }
    case Get(k, order) =>
      if k in c.entries {
        assert Promote(c, k).entries.Keys == c.entries.Keys;
        AddFreqNumValues(Promote(c, k), order);
      }
    case Purge =>
  }

  // One call: k keeps its value, or takes the one put, or goes.
  lemma StepValues(c: Cache, op: Op, k: Key)
    requires Legal(c, op)
    requires k in Step(c, op).entries
    ensures if op.Put? && op.key == k && c.capacity != 0 then Step(c, op).entries[k].value == op.value
            else k in c.entries && Step(c, op).entries[k].value == c.entries[k].value
    ensures !op.Purge?
  {
    hide AddFreqNum, HasFreq, MakeRoom;
    match op
    case Put(key, v, order) =>
      if c.capacity != 0 {
        if key in c.entries {
          var w := WithValue(c, key, v);
          assert w.entries.Keys == c.entries.Keys;
          AddFreqNumValues(Promote(w, key), order);
        } else {
          PutNewValues(c, key, v, order);
          assert k == key || k in MakeRoom(c).entries;
        }
      }
    case Get(key, order) =>
      if key in c.entries {
        assert Promote(c, key).entries.Keys == c.entries.Keys;
        AddFreqNumValues(Promote(c, key), order);
      }
    case Purge =>
  }

  /** A put key is cached, with its value. */
  lemma PutIsCached(c: Cache, k: Key, v: Value, order: seq<Key>)
    requires c.capacity != 0 && Legal(c, Put(k, v, order))
    ensures Lookup(Step(c, Put(k, v, order)), k) == Some(v)
  {
    hide AddFreqNum, HasFreq, MakeRoom;
    if k in c.entries {
      var w := WithValue(c, k, v);
      assert w.entries.Keys == c.entries.Keys;
      AddFreqNumValues(Promote(w, k), order);
    } else {
      PutNewValues(c, k, v, order);
    }
  }

  /** A cached key goes exactly when the cache is purged, or when it is the victim of a new key put into a full cache. */
  lemma GoneIff(c: Cache, op: Op, k: Key)
    requires Legal(c, op) && k in c.entries
    ensures k !in Step(c, op).entries <==>
              op.Purge? || (op.Put? && c.capacity != 0 && op.key !in c.entries && |c.entries| == c.capacity
                            && HasFreq(c.entries, c.minFreq) && k == Victim(c))
  {
    hide AddFreqNum, HasFreq;
    match op
    case Put(key, v, order) =>
      if c.capacity != 0 {
        if key in c.entries {
          var w := WithValue(c, key, v);
          assert w.entries.Keys == c.entries.Keys;
          AddFreqNumValues(Promote(w, key), order);
        } else {
          PutNewValues(c, key, v, order);
        }
      }
    case Get(key, order) =>
      if key in c.entries {
        assert Promote(c, key).entries.Keys == c.entries.Keys;
        AddFreqNumValues(Promote(c, key), order);
      }
    case Purge =>
  }

  // The value most recently put for k, if any.
  function LastPut(ops: seq<Op>, k: Key): Option<Value> {
    if ops == [] then None
    else
      var op := ops[|ops| - 1];
      if op.Put? && op.key == k then Some(op.value) else LastPut(ops[..|ops| - 1], k)
  }

  /** Transparency, for every maxAverage: a hit returns the value last put for that key. */
  lemma {:induction false} HitIsLastPut(capacity: int, maxAverage: int, ops: seq<Op>, k: Key)
    requires LegalRun(Init(capacity, maxAverage), ops)
    ensures var c := Run(Init(capacity, maxAverage), ops);
            && c.capacity == capacity
            && (capacity == 0 ==> c.entries == map[])
            && (Lookup(c, k).Some? ==> Lookup(c, k) == LastPut(ops, k))
    decreases |ops|
  {
    hide HasFreq, Legal, Step;
    if ops != [] {
      var n := |ops| - 1;
      var c := Run(Init(capacity, maxAverage), ops[..n]);
      HitIsLastPut(capacity, maxAverage, ops[..n], k);
      StepSettings(c, ops[n]);
      if k in Step(c, ops[n]).entries { StepValues(c, ops[n], k); }
    }
  }

  // ----- outside the range -----

  const K: Key := "k"

  // put(k, v), then n gets of it.
  function PutThenGets(n: nat): seq<Op> {
    if n == 0 then [Put(K, "v", [K])] else PutThenGets(n - 1) + [Get(K, [K])]
  }

  lemma SingleLeast(e: Entry)
    ensures IsLeast(e.freq, map[K := e]) && LeastFreq(map[K := e]) == e.freq
  {
    assert K in map[K := e];
    LeastUnique(e.freq, map[K := e]);
  }

  lemma CountSingle(c: Cache, e: Entry)
    requires c.entries == map[K := e]
    ensures Enumerates([K], c.entries.Keys)
    ensures var d := AddFreqNum(c, [K]);
            && d.total == c.total + 1 && d.maxAverage == c.maxAverage && d.capacity == c.capacity
            && (c.total + 1 <= c.maxAverage ==> d.entries == c.entries && d.minFreq == c.minFreq)
            && (c.total + 1 > c.maxAverage ==>
                  var aged := Entry(e.value, AgedFreq(e.freq, Half(c.maxAverage)), c.clock);
                  d.entries == map[K := aged] && d.minFreq == (if aged.freq >= SENTINEL then 1 else aged.freq))
  {
    var half := Half(c.maxAverage);
    var aged := Entry(e.value, AgedFreq(e.freq, half), c.clock);
    assert |c.entries| == 1;
    assert AgeKeys(c.entries, [], half, c.clock) == c.entries;
    assert [K][..0] == [];
    assert AgeKeys(c.entries, [K], half, c.clock) == map[K := aged];
    SingleLeast(aged);
  }

  lemma PromoteSingle(c: Cache, e: Entry)
    requires c.entries == map[K := e]
    ensures var d := Promote(c, K);
            && d.entries == map[K := Entry(e.value, e.freq + 1, c.clock)]
            && d.minFreq == (if e.freq == c.minFreq then c.minFreq + 1 else c.minFreq)
            && d.total == c.total && d.maxAverage == c.maxAverage && d.capacity == c.capacity
  {
  }

  lemma LegalSnoc(c: Cache, ops: seq<Op>, op: Op)
    requires LegalRun(c, ops) && Legal(Run(c, ops), op)
    ensures LegalRun(c, ops + [op]) && Run(c, ops + [op]) == Step(Run(c, ops), op)
  {
    assert (ops + [op])[..|ops|] == ops;
  }

  // The state after the single-key run, for both ways out of the range.
  ghost predicate SingleState(c: Cache, capacity: int, maxAverage: int, n: nat, f: int) {
    && c.entries.Keys == {K} && c.entries[K].freq == f
    && c.capacity == capacity && c.maxAverage == maxAverage && c.total == n + 1
    && n + 1 <= f
    && (1 < maxAverage && n < maxAverage ==> f == n + 1 && c.minFreq == f)
    && (maxAverage <= 1 && 1 <= n && SENTINEL <= f ==> c.minFreq == 1)
  }

  lemma FirstPut(capacity: int, maxAverage: int) returns (f: int)
    requires capacity != 0
    ensures LegalRun(Init(capacity, maxAverage), PutThenGets(0))
    ensures SingleState(Run(Init(capacity, maxAverage), PutThenGets(0)), capacity, maxAverage, 0, f)
  {
    var c := Init(capacity, maxAverage);
    var op := Put(K, "v", [K]);
    assert LegalRun(c, []) && Run(c, []) == c;
    assert MakeRoom(c) == c && KeysAfter(c, op) == {K};
    LegalSnoc(c, [], op);
    assert [] + [op] == PutThenGets(0);
    var e := Entry("v", 1, 0);
    assert Insert(c, K, "v").entries == map[K := e];
    CountSingle(Insert(c, K, "v"), e);
    f := Step(c, op).entries[K].freq;
  }

  lemma NextGet(c: Cache, n: nat, f: int) returns (d: Cache, g: int)
    requires SingleState(c, c.capacity, c.maxAverage, n, f) && (c.maxAverage <= 1 || n + 1 < c.maxAverage)
    ensures Legal(c, Get(K, [K])) && d == Step(c, Get(K, [K]))
    ensures SingleState(d, c.capacity, c.maxAverage, n + 1, g)
  {
    var e := c.entries[K];
    assert c.entries == map[K := e];
    PromoteSingle(c, e);
    CountSingle(Promote(c, K), Entry(e.value, e.freq + 1, c.clock));
    d := Step(c, Get(K, [K]));
    g := d.entries[K].freq;
  }

  lemma {:induction false} SingleRun(capacity: int, maxAverage: int, n: nat) returns (f: int)
    requires capacity != 0 && (maxAverage <= 1 || n < maxAverage)
    ensures LegalRun(Init(capacity, maxAverage), PutThenGets(n))
    ensures SingleState(Run(Init(capacity, maxAverage), PutThenGets(n)), capacity, maxAverage, n, f)
  {
    hide SingleState, Step, Legal, LegalRun, Run;
    var c := Init(capacity, maxAverage);
    if n == 0 {
      f := FirstPut(capacity, maxAverage);
    } else {
      var g := SingleRun(capacity, maxAverage, n - 1);
      var before := Run(c, PutThenGets(n - 1));
      SingleSettings(before, capacity, maxAverage, n - 1, g);
      var d;
      d, f := NextGet(before, n - 1, g);
      LegalSnoc(c, PutThenGets(n - 1), Get(K, [K]));
    }
  }

  lemma SingleSettings(c: Cache, capacity: int, maxAverage: int, n: nat, f: int)
    requires SingleState(c, capacity, maxAverage, n, f)
    ensures c.capacity == capacity && c.maxAverage == maxAverage
  {
  }

  // The access that first goes over the limit leaves 127 or more behind.
  lemma OverLimit(c: Cache, n: nat, f: int) returns (d: Cache)
    requires c.maxAverage > 250 && n == c.maxAverage - 1 && SingleState(c, c.capacity, c.maxAverage, n, f)
    ensures Legal(c, Get(K, [K])) && d == Step(c, Get(K, [K]))
    ensures d.entries.Keys == {K} && d.entries[K].freq >= SENTINEL && d.minFreq == 1 && d.capacity == c.capacity
  {
    var e := c.entries[K];
    assert c.entries == map[K := e];
    PromoteSingle(c, e);
    CountSingle(Promote(c, K), Entry(e.value, e.freq + 1, c.clock));
    d := Step(c, Get(K, [K]));
  }

  // Outside the range one key and enough gets leave minFreq at 1 while the only entry is at 127 or more.
  lemma OutOfRangeBreaks(capacity: int, maxAverage: int) returns (ops: seq<Op>)
    requires capacity != 0 && !InRange(maxAverage)
    ensures LegalRun(Init(capacity, maxAverage), ops)
    ensures var d := Run(Init(capacity, maxAverage), ops);
            d.entries.Keys == {K} && d.entries[K].freq >= SENTINEL && d.minFreq == 1 && d.capacity == capacity
  {
    hide Step, Legal, LegalRun, Run, PutThenGets;
    var c := Init(capacity, maxAverage);
    if maxAverage <= 1 {
      ops := PutThenGets(126);
      var f := SingleRun(capacity, maxAverage, 126);
    } else {
      var n := maxAverage - 1;
      var f := SingleRun(capacity, maxAverage, n);
      var d := OverLimit(Run(c, PutThenGets(n)), n, f);
      LegalSnoc(c, PutThenGets(n), Get(K, [K]));
      ops := PutThenGets(n) + [Get(K, [K])];
    }
  }

  /** minFreq is exact in every reachable state if and only if 2 <= maxAverage <= 250. */
  lemma MinFreqExactIff(capacity: int, maxAverage: int)
    requires capacity != 0
    ensures InRange(maxAverage) <==>
            forall ops :: LegalRun(Init(capacity, maxAverage), ops) ==> MinOk(Run(Init(capacity, maxAverage), ops))
  {
    if InRange(maxAverage) {
      forall ops | LegalRun(Init(capacity, maxAverage), ops)
        ensures MinOk(Run(Init(capacity, maxAverage), ops))
      {
        RunKeeps(capacity, maxAverage, ops);
      }
    } else {
      var ops := OutOfRangeBreaks(capacity, maxAverage);
      assert K in Run(Init(capacity, maxAverage), ops).entries;
    }
  }

  // What a wrong minFreq costs: a one-entry cache outside the range reaches a full state in which the
  // next new key finds no node in the list of minFreq.
  lemma OutOfRangeCannotEvict(maxAverage: int) returns (ops: seq<Op>)
    requires !InRange(maxAverage)
    ensures LegalRun(Init(1, maxAverage), ops)
    ensures var c := Run(Init(1, maxAverage), ops);
            c.entries.Keys == {K} && c.capacity == 1 && !HasFreq(c.entries, c.minFreq)
  {
    hide LegalRun, Run;
    ops := OutOfRangeBreaks(1, maxAverage);
  }

  // The next put of a new key evicts nothing.
  lemma PutPastFull(c: Cache) returns (op: Op)
    requires c.entries.Keys == {K} && c.capacity == 1 && !HasFreq(c.entries, c.minFreq)
    ensures Legal(c, op) && |Step(c, op).entries| == 2
  {
    hide HasFreq, AddFreqNum;
    var other: Key := "o";
    assert "" != K && other != K;
    assert |c.entries| == |c.entries.Keys| == 1;
    op := Put(other, "v", [K, other]);
    assert KeysAfter(c, op) == {K, other};
    PutNewValues(c, other, "v", op.order);
    assert |Step(c, op).entries| == |Step(c, op).entries.Keys| == |{K, other}|;
  }

  /** The size stays within the capacity in every run of every cache if and only if 2 <= maxAverage <= 250. */
  lemma SizeBoundIff(maxAverage: int)
    ensures InRange(maxAverage) <==>
            forall capacity, ops :: 0 <= capacity && LegalRun(Init(capacity, maxAverage), ops) ==>
              |Run(Init(capacity, maxAverage), ops).entries| <= capacity
  {
    if InRange(maxAverage) {
      forall capacity, ops | 0 <= capacity && LegalRun(Init(capacity, maxAverage), ops)
        ensures |Run(Init(capacity, maxAverage), ops).entries| <= capacity
      {
        RunKeeps(capacity, maxAverage, ops);
      }
    } else {
      hide LegalRun, Run, Legal, Step;
      var ops := OutOfRangeCannotEvict(maxAverage);
      var op := PutPastFull(Run(Init(1, maxAverage), ops));
      LegalSnoc(Init(1, maxAverage), ops, op);
    }
  }
}
