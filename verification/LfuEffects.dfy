/** What each call of the cache does to the frequencies, the counters and the order of arrival, written out. */
module LfuEffects {
  import opened Wrappers
  import opened LfuSpec
  import opened LfuTheorems

  // A frequency after an aging pass: less half the limit, and at least 1. A negative limit raises it.
  function Aged(freq: int, maxAverage: int): int {
    var lowered := if maxAverage >= 0 then freq - maxAverage / 2 else freq + -maxAverage / 2;
    if lowered < 1 then 1 else lowered
  }

  // What counting does to entries and counters: nothing but the count, or one pass over all frequencies.
  ghost predicate Counts(before: map<Key, Entry>, c: Cache, d: Cache) {
    && d.total == c.total + 1 && d.entries.Keys == before.Keys
    && d.average == (if before == map[] then 0 else (c.total + 1) / |before|)
    && (d.average <= c.maxAverage ==> d.entries == before)
    && (d.average > c.maxAverage ==> forall j :: j in before ==>
          d.entries[j].value == before[j].value && d.entries[j].freq == Aged(before[j].freq, c.maxAverage))
  }

  lemma AddCounts(c: Cache, order: seq<Key>)
    requires Enumerates(order, c.entries.Keys)
    ensures Counts(c.entries, c, AddFreqNum(c, order))
  {
    hide AgedFrom, UpdatedMin, Aged, Half;
    AgedIs(c.entries, order, c.maxAverage, c.clock);
  }

  lemma AgedIs(entries: map<Key, Entry>, order: seq<Key>, maxAverage: int, clock: nat)
    requires Enumerates(order, entries.Keys)
    ensures var aged := AgeKeys(entries, order, Half(maxAverage), clock);
            forall j :: j in entries ==>
              j in aged && aged[j].value == entries[j].value && aged[j].freq == Aged(entries[j].freq, maxAverage)
  {
    hide AgeKeys;
    AgeAll(entries, order, Half(maxAverage), clock);
    var aged := AgeKeys(entries, order, Half(maxAverage), clock);
    forall j | j in entries
      ensures j in aged && aged[j].value == entries[j].value && aged[j].freq == Aged(entries[j].freq, maxAverage)
    {
      assert AgedAt(aged, entries, order, Half(maxAverage), clock, j);
    }
  }

  lemma TouchEffect(c: Cache, k: Key, order: seq<Key>)
    requires k in c.entries && Enumerates(order, c.entries.Keys)
    ensures Counts(c.entries[k := Entry(c.entries[k].value, c.entries[k].freq + 1, c.clock)], c, Touch(c, k, order))
  {
    hide AddFreqNum, Enumerates, HasFreq, Counts;
    var p := Promote(c, k);
    assert p.entries.Keys == c.entries.Keys;
    AddCounts(p, order);
    SameCounters(p.entries, p, c, Touch(c, k, order));
  }

  lemma SameCounters(before: map<Key, Entry>, c: Cache, b: Cache, d: Cache)
    requires Counts(before, c, d) && b.total == c.total && b.maxAverage == c.maxAverage
    ensures Counts(before, b, d)
  {
  }

  /** A put of a cached key is an access: the key takes the value, goes up by one, arrives last in its list, and is counted;
      every entry ages if that lifts the average over the limit. */
  lemma PutHit(c: Cache, k: Key, v: Value, order: seq<Key>)
    requires c.capacity != 0 && k in c.entries && Legal(c, Put(k, v, order))
    ensures Counts(c.entries[k := Entry(v, c.entries[k].freq + 1, c.clock)], c, Step(c, Put(k, v, order)))
  {
    hide Touch, Enumerates, Counts, HasFreq;
    var w := WithValue(c, k, v);
    assert w.entries.Keys == c.entries.Keys;
    TouchEffect(w, k, order);
    var e := Entry(v, c.entries[k].freq + 1, c.clock);
    assert w.entries[k := e] == c.entries[k := e];
    SameCounters(c.entries[k := e], w, c, Step(c, Put(k, v, order)));
  }

  /** So is a hit, and the value stays. */
  lemma GetHit(c: Cache, k: Key, order: seq<Key>)
    requires k in c.entries && Legal(c, Get(k, order))
    ensures Counts(c.entries[k := Entry(c.entries[k].value, c.entries[k].freq + 1, c.clock)], c, Step(c, Get(k, order)))
  {
    TouchEffect(c, k, order);
    hide Touch, Enumerates, Counts, HasFreq;
  }

  /** With room left a new key comes in at frequency 1, last in its list, and is counted. */
  lemma PutNewRoom(c: Cache, k: Key, v: Value, order: seq<Key>)
    requires c.capacity != 0 && k !in c.entries && |c.entries| != c.capacity && Legal(c, Put(k, v, order))
    ensures Counts(c.entries[k := Entry(v, 1, c.clock)], c, Step(c, Put(k, v, order)))
  {
    hide AddFreqNum, Enumerates, HasFreq, Counts;
    var added := Insert(c, k, v);
    assert MakeRoom(c) == c && added.entries.Keys == c.entries.Keys + {k};
    AddCounts(added, order);
    MinOnly(added.entries, added, AddFreqNum(added, order), Step(c, Put(k, v, order)));
    SameCounters(added.entries, added, c, Step(c, Put(k, v, order)));
  }

  lemma MinOnly(before: map<Key, Entry>, c: Cache, d: Cache, e: Cache)
    requires Counts(before, c, d) && e == d.(minFreq := e.minFreq)
    ensures Counts(before, c, e)
  {
  }

  /** In a full cache the victim goes first, and its frequency is taken off the total before the new key is counted. */
  lemma PutNewFull(c: Cache, k: Key, v: Value, order: seq<Key>) returns (out: Key)
    requires c.capacity != 0 && k !in c.entries && |c.entries| == c.capacity && HasFreq(c.entries, c.minFreq)
    requires Legal(c, Put(k, v, order))
    ensures out in c.entries && c.entries[out].freq == c.minFreq
    ensures forall j :: j in c.entries && c.entries[j].freq == c.minFreq ==> c.entries[out].stamp <= c.entries[j].stamp
    ensures Counts((c.entries - {out})[k := Entry(v, 1, c.clock)], c.(total := c.total - c.entries[out].freq),
                   Step(c, Put(k, v, order)))
  {
    hide AddFreqNum, Enumerates, HasFreq, Counts;
    out := Victim(c);
    var room := KickOut(c);
    var added := Insert(room, k, v);
    assert MakeRoom(c) == room && added.entries.Keys == room.entries.Keys + {k};
    AddCounts(added, order);
    MinOnly(added.entries, added, AddFreqNum(added, order), Step(c, Put(k, v, order)));
    SameCounters(added.entries, added, c.(total := c.total - c.entries[out].freq), Step(c, Put(k, v, order)));
  }

  /** A miss, and a put into a cache of capacity 0, change nothing; a purge drops the entries and leaves all counters. */
  lemma NoEffect(c: Cache, op: Op)
    requires Legal(c, op)
    ensures (op.Get? && op.key !in c.entries) || (op.Put? && c.capacity == 0) ==> Step(c, op) == c
    ensures op.Purge? ==> var d := Step(c, op);
                          && d.entries == map[] && d.total == c.total && d.average == c.average && d.minFreq == c.minFreq
                          && d.capacity == c.capacity && d.maxAverage == c.maxAverage
  {
    hide Touch, PutNew;
  }

  // ----- over a run -----

  // The call is an access that brings on an aging pass.
  ghost predicate Ages(c: Cache, op: Op)
    requires Legal(c, op)
  {
    && ((op.Put? && c.capacity != 0) || (op.Get? && op.key in c.entries))
    && Step(c, op).average > c.maxAverage
  }

  function Accesses(ops: seq<Op>, k: Key): nat {
    if ops == [] then 0
    else
      var op := ops[|ops| - 1];
      Accesses(ops[..|ops| - 1], k) + (if !op.Purge? && op.key == k then 1 else 0)
  }

  // The call before the j-th finds k cached, and does not age.
  ghost predicate Steady(c: Cache, ops: seq<Op>, j: nat, k: Key)
    requires LegalRun(c, ops) && j < |ops|
  {
    LegalRun(c, ops[..j]) && Legal(Run(c, ops[..j]), ops[j])
    && k in Step(Run(c, ops[..j]), ops[j]).entries && !Ages(Run(c, ops[..j]), ops[j])
  }

  lemma StepFreq(c: Cache, op: Op, k: Key)
    requires Legal(c, op) && c.capacity != 0 && k in c.entries && k in Step(c, op).entries && !Ages(c, op)
    ensures Step(c, op).entries[k].freq == c.entries[k].freq + (if !op.Purge? && op.key == k then 1 else 0)
  {
    hide Touch, PutNew, Step, Legal;
    match op
    case Get(key, order) =>
      if key in c.entries {
        GetHit(c, key, order);
      } else {
        NoEffect(c, op);
      }
    case Put(key, v, order) =>
      if key in c.entries {
        PutHit(c, key, v, order);
      } else {
        PutFreq(c, key, v, order, k);
      }
    case Purge => NoEffect(c, op);
  }

  lemma PutFreq(c: Cache, key: Key, v: Value, order: seq<Key>, k: Key)
    requires Legal(c, Put(key, v, order)) && c.capacity != 0 && key !in c.entries
    requires k in c.entries && k in Step(c, Put(key, v, order)).entries && !Ages(c, Put(key, v, order))
    ensures Step(c, Put(key, v, order)).entries[k].freq == c.entries[k].freq
  {
    hide Step, Legal, HasFreq;
    if |c.entries| != c.capacity {
      PutNewRoom(c, key, v, order);
    } else if HasFreq(c.entries, c.minFreq) {
      var out := PutNewFull(c, key, v, order);
    } else {
      PutNothingOut(c, key, v, order);
    }
  }

  /** Where the list of minFreq is empty nothing goes, and 1 is taken off the total. */
  lemma PutNothingOut(c: Cache, k: Key, v: Value, order: seq<Key>)
    requires c.capacity != 0 && k !in c.entries && |c.entries| == c.capacity && !HasFreq(c.entries, c.minFreq)
    requires Legal(c, Put(k, v, order))
    ensures Counts(c.entries[k := Entry(v, 1, c.clock)], c.(total := c.total - 1), Step(c, Put(k, v, order)))
  {
    hide AddFreqNum, Enumerates, HasFreq, Counts;
    var room := KickOutNothing(c);
    var added := Insert(room, k, v);
    assert MakeRoom(c) == room && added.entries.Keys == room.entries.Keys + {k};
    AddCounts(added, order);
    MinOnly(added.entries, added, AddFreqNum(added, order), Step(c, Put(k, v, order)));
    SameCounters(added.entries, added, c.(total := c.total - 1), Step(c, Put(k, v, order)));
  }

  /** While a key stays cached and no pass ages it, its frequency goes up by one for every put and every hit of it. */
  lemma {:induction false} FrequencyCounts(c: Cache, ops: seq<Op>, k: Key)
    requires LegalRun(c, ops) && c.capacity != 0 && k in c.entries
    requires forall j :: 0 <= j < |ops| ==> Steady(c, ops, j, k)
    ensures k in Run(c, ops).entries && Run(c, ops).capacity == c.capacity
    ensures Run(c, ops).entries[k].freq == c.entries[k].freq + Accesses(ops, k)
  {
    hide Step, Legal, Ages;
    if ops != [] {
      var n := |ops| - 1;
      assert Steady(c, ops, n, k);
      forall j | 0 <= j < n ensures Steady(c, ops[..n], j, k) {
        assert Steady(c, ops, j, k);
        assert ops[..n][..j] == ops[..j];
      }
      FrequencyCounts(c, ops[..n], k);
      StepSettings(Run(c, ops[..n]), ops[n]);
      StepFreq(Run(c, ops[..n]), ops[n], k);
    }
  }
}
