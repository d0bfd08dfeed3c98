/** The cache split over slices by key hash: on values. */
module ShardSpec {
  import opened Wrappers
  import opened LfuSpec
  import opened LfuTheorems

  function SliceOf(hash: Key -> nat, k: Key, n: nat): nat
    requires n > 0
  {
    hash(k) % n
  }

  // ceil(capacity / n)
  function SliceSize(capacity: nat, n: nat): nat
    requires n > 0
  {
    (capacity + n - 1) / n
  }

  function InitShards(capacity: nat, n: nat, maxAverage: int): seq<Cache>
    requires n > 0
  {
    seq(n, i => Init(SliceSize(capacity, n), maxAverage))
  }

  ghost predicate ShardLegal(hash: Key -> nat, s: seq<Cache>, op: Op)
    requires s != []
  {
    op.Purge? || Legal(s[SliceOf(hash, op.key, |s|)], op)
  }

  ghost function ShardStep(hash: Key -> nat, s: seq<Cache>, op: Op): (r: seq<Cache>)
    requires s != [] && ShardLegal(hash, s, op)
    ensures |r| == |s|
  {
    if op.Purge? then seq(|s|, i requires 0 <= i < |s| => Step(s[i], Purge))
    else
      var i := SliceOf(hash, op.key, |s|);
      s[i := Step(s[i], op)]
  }

  function ShardLookup(hash: Key -> nat, s: seq<Cache>, k: Key): Option<Value>
    requires s != []
  {
    Lookup(s[SliceOf(hash, k, |s|)], k)
  }

  ghost predicate ShardLegalRun(hash: Key -> nat, s: seq<Cache>, ops: seq<Op>)
    requires s != []
    decreases |ops|, 0
  {
    ops == [] ||
    var n := |ops| - 1;
    ShardLegalRun(hash, s, ops[..n]) && ShardLegal(hash, ShardRun(hash, s, ops[..n]), ops[n])
  }

  ghost function ShardRun(hash: Key -> nat, s: seq<Cache>, ops: seq<Op>): (r: seq<Cache>)
    requires s != [] && ShardLegalRun(hash, s, ops)
    ensures |r| == |s|
    decreases |ops|, 1
  {
    if ops == [] then s
    else
      var n := |ops| - 1;
      ShardStep(hash, ShardRun(hash, s, ops[..n]), ops[n])
  }

  ghost function Residency(s: seq<Cache>): nat {
    if s == [] then 0 else |s[0].entries| + Residency(s[1..])
  }

  lemma {:induction false} ResidencyBound(s: seq<Cache>, size: nat)
    requires forall i :: 0 <= i < |s| ==> |s[i].entries| <= size
    ensures Residency(s) <= |s| * size
  {
    if s != [] {
      ResidencyBound(s[1..], size);
      MulSucc(size, |s| - 1);
    }
  }

  /** The slices together hold the capacity, and less than one entry more for each slice. */
  lemma CeilBound(capacity: nat, n: nat)
    requires n > 0
    ensures capacity <= n * SliceSize(capacity, n) < capacity + n
  {
    var q := SliceSize(capacity, n);
    assert n * q + (capacity + n - 1) % n == capacity + n - 1;
  }

  /** Each key has one slice, told by the remainder of its hash. */
  lemma SliceOfKey(hash: Key -> nat, k: Key, n: nat)
    requires n > 0
    ensures SliceOf(hash, k, n) < n && exists m: nat :: hash(k) == n * m + SliceOf(hash, k, n)
  {
    assert hash(k) == n * (hash(k) / n) + SliceOf(hash, k, n);
  }

  ghost predicate ShardInv(s: seq<Cache>, size: nat) {
    forall i :: 0 <= i < |s| ==> Inv(s[i]) && InRange(s[i].maxAverage) && s[i].capacity == size
  }

  // While the slices keep their invariant, every key finds room.
  lemma ShardCanPut(hash: Key -> nat, s: seq<Cache>, k: Key, size: nat)
    requires s != [] && ShardInv(s, size)
    ensures CanPut(s[SliceOf(hash, k, |s|)], k)
  {
    EvictionDefined(s[SliceOf(hash, k, |s|)]);
  }

  lemma ShardStepKeeps(hash: Key -> nat, s: seq<Cache>, op: Op, size: nat)
    requires s != [] && ShardInv(s, size) && ShardLegal(hash, s, op)
    ensures ShardInv(ShardStep(hash, s, op), size)
  {
    hide Inv, Step, Legal;
    forall i | 0 <= i < |s| && (op.Purge? || i == SliceOf(hash, op.key, |s|))
      ensures Legal(s[i], op) && Inv(Step(s[i], op))
      ensures Step(s[i], op).maxAverage == s[i].maxAverage && Step(s[i], op).capacity == s[i].capacity
    {
      PurgeLegal(s[i]);
      StepKeeps(s[i], op);
    }
  }

  lemma PurgeLegal(c: Cache)
    ensures Legal(c, Purge)
  {
  }

  /** In every run every slice keeps its invariant, and less than capacity + n entries are resident. */
  lemma {:induction false} ShardRunKeeps(hash: Key -> nat, capacity: nat, n: nat, maxAverage: int, ops: seq<Op>)
    requires n > 0 && InRange(maxAverage) && ShardLegalRun(hash, InitShards(capacity, n, maxAverage), ops)
    ensures var s := ShardRun(hash, InitShards(capacity, n, maxAverage), ops);
            ShardInv(s, SliceSize(capacity, n)) && Residency(s) < capacity + n
    decreases |ops|
  {
    hide Inv, Step, Legal, ShardStep;
    var s0 := InitShards(capacity, n, maxAverage);
    if ops == [] {
      InitInv(SliceSize(capacity, n), maxAverage);
    } else {
      ShardRunKeeps(hash, capacity, n, maxAverage, ops[..|ops| - 1]);
      ShardStepKeeps(hash, ShardRun(hash, s0, ops[..|ops| - 1]), ops[|ops| - 1], SliceSize(capacity, n));
    }
    var s := ShardRun(hash, s0, ops);
    forall i | 0 <= i < |s| ensures |s[i].entries| <= SliceSize(capacity, n) { InvSize(s[i]); }
    ResidencyBound(s, SliceSize(capacity, n));
    CeilBound(capacity, n);
  }

  lemma InvSize(c: Cache)
    requires Inv(c)
    ensures 0 <= c.capacity ==> |c.entries| <= c.capacity
  {
  }

  // The calls that reach slice i: those on its keys, and every purge.
  function Routed(hash: Key -> nat, n: nat, i: nat, ops: seq<Op>): seq<Op>
    requires n > 0
  {
    if ops == [] then []
    else
      var m := |ops| - 1;
      Routed(hash, n, i, ops[..m]) + (if ops[m].Purge? || hash(ops[m].key) % n == i then [ops[m]] else [])
  }

  /** In every run each slice is a cache of its own, of its share of the capacity and the same maxAverageNum, that has met
      just the calls on the keys with its remainder, and the purges, in their order. */
  lemma {:induction false} SliceIsACache(hash: Key -> nat, capacity: nat, n: nat, maxAverage: int, ops: seq<Op>, i: nat)
    requires i < n && ShardLegalRun(hash, InitShards(capacity, n, maxAverage), ops)
    ensures var c := Init(SliceSize(capacity, n), maxAverage);
            && LegalRun(c, Routed(hash, n, i, ops))
            && ShardRun(hash, InitShards(capacity, n, maxAverage), ops)[i] == Run(c, Routed(hash, n, i, ops))
  {
    hide Legal, Step, ShardStep, ShardLegal, SliceSize, SliceOf, Run, LegalRun, Init;
    var c := Init(SliceSize(capacity, n), maxAverage);
    if ops == [] {
      NoCalls(c);
    } else {
      var m := |ops| - 1;
      SliceIsACache(hash, capacity, n, maxAverage, ops[..m], i);
      StepAt(hash, ShardRun(hash, InitShards(capacity, n, maxAverage), ops[..m]), ops[m], i);
      if ops[m].Purge? || hash(ops[m].key) % n == i {
        LegalSnoc(c, Routed(hash, n, i, ops[..m]), ops[m]);
      } else {
        assert Routed(hash, n, i, ops) == Routed(hash, n, i, ops[..m]);
      }
    }
  }

  lemma NoCalls(c: Cache)
    ensures LegalRun(c, []) && Run(c, []) == c
  {
  }

  lemma StepAt(hash: Key -> nat, s: seq<Cache>, op: Op, i: nat)
    requires i < |s| && ShardLegal(hash, s, op)
    ensures var reached := op.Purge? || hash(op.key) % |s| == i;
            && (reached ==> Legal(s[i], op))
            && ShardStep(hash, s, op)[i] == if reached then Step(s[i], op) else s[i]
  {
    hide Legal, Step;
    PurgeLegal(s[i]);
  }

  // Slice i holds values last put, and only for keys that hash to it.
  ghost predicate SliceOk(hash: Key -> nat, s: seq<Cache>, i: nat, ops: seq<Op>)
    requires i < |s|
  {
    && (forall k :: k in s[i].entries ==> SliceOf(hash, k, |s|) == i && LastPut(ops, k) == Some(s[i].entries[k].value))
    && (s[i].capacity == 0 ==> s[i].entries == map[])
  }

  ghost predicate ValuesOk(hash: Key -> nat, s: seq<Cache>, ops: seq<Op>)
    requires s != []
  {
    forall i :: 0 <= i < |s| ==> SliceOk(hash, s, i, ops)
  }

  lemma ShardStepValues(hash: Key -> nat, s: seq<Cache>, ops: seq<Op>)
    requires s != [] && ops != [] && ValuesOk(hash, s, ops[..|ops| - 1]) && ShardLegal(hash, s, ops[|ops| - 1])
    ensures ValuesOk(hash, ShardStep(hash, s, ops[|ops| - 1]), ops)
  {
    hide Legal, Step, ShardStep, ShardLegal, SliceOk;
    var t := ShardStep(hash, s, ops[|ops| - 1]);
    forall i | 0 <= i < |s| ensures SliceOk(hash, t, i, ops) {
      SliceStepOk(hash, s, ops, i);
    }
  }

  lemma SliceStepOk(hash: Key -> nat, s: seq<Cache>, ops: seq<Op>, i: nat)
    requires i < |s| && ops != [] && SliceOk(hash, s, i, ops[..|ops| - 1]) && ShardLegal(hash, s, ops[|ops| - 1])
    ensures SliceOk(hash, ShardStep(hash, s, ops[|ops| - 1]), i, ops)
  {
    hide Legal, Step, ShardStep, ShardLegal;
    var op := ops[|ops| - 1];
    StepAt(hash, s, op, i);
    if op.Purge? || i == SliceOf(hash, op.key, |s|) {
      StepSettings(s[i], op);
      forall k | k in Step(s[i], op).entries
        ensures SliceOf(hash, k, |s|) == i && LastPut(ops, k) == Some(Step(s[i], op).entries[k].value)
      {
        StepValues(s[i], op, k);
      }
    }
  }

  // What a slice holds when a key leaves it other than by purge.
  lemma LeavesFullSlice(hash: Key -> nat, s: seq<Cache>, op: Op, k: Key, size: nat)
    requires s != [] && ShardInv(s, size) && ShardLegal(hash, s, op) && !op.Purge?
    requires ShardLookup(hash, s, k).Some? && ShardLookup(hash, ShardStep(hash, s, op), k) == None
    ensures op.Put? && SliceOf(hash, op.key, |s|) == SliceOf(hash, k, |s|) && ShardLookup(hash, s, op.key) == None
    ensures |s[SliceOf(hash, k, |s|)].entries| == size
  {
    hide Step, Legal, Inv;
    var i := SliceOf(hash, k, |s|);
    if i == SliceOf(hash, op.key, |s|) { GoneIff(s[i], op, k); }
  }

  /** In every run, within 2 to 250, a key leaves other than by purge only for a new key of its own slice, and only when that
      slice holds at least its share of the capacity. */
  lemma LeavesOnlyFull(hash: Key -> nat, capacity: nat, n: nat, maxAverage: int, ops: seq<Op>, op: Op, k: Key)
    requires n > 0 && InRange(maxAverage) && ShardLegalRun(hash, InitShards(capacity, n, maxAverage), ops)
    requires var s := ShardRun(hash, InitShards(capacity, n, maxAverage), ops);
             ShardLegal(hash, s, op) && !op.Purge? && ShardLookup(hash, s, k).Some? && ShardLookup(hash, ShardStep(hash, s, op), k) == None
    ensures var s := ShardRun(hash, InitShards(capacity, n, maxAverage), ops);
            && |s| == n && op.Put? && ShardLookup(hash, s, op.key) == None
            && SliceOf(hash, op.key, n) == SliceOf(hash, k, n)
            && capacity <= n * |s[SliceOf(hash, k, n)].entries|
  {
    hide ShardStep, ShardLookup, SliceOf, Inv;
    ShardRunKeeps(hash, capacity, n, maxAverage, ops);
    CeilBound(capacity, n);
    LeavesFullSlice(hash, ShardRun(hash, InitShards(capacity, n, maxAverage), ops), op, k, SliceSize(capacity, n));
  }

  /** A key just put is cached in its slice, with its value. */
  lemma ShardPutIsCached(hash: Key -> nat, s: seq<Cache>, k: Key, v: Value, order: seq<Key>)
    requires s != [] && s[SliceOf(hash, k, |s|)].capacity != 0 && ShardLegal(hash, s, Put(k, v, order))
    ensures ShardLookup(hash, ShardStep(hash, s, Put(k, v, order)), k) == Some(v)
  {
    hide Step, Legal;
    PutIsCached(s[SliceOf(hash, k, |s|)], k, v, order);
  }

  /** What a lookup of any key finds after a step on another key, if anything, is what it found before; a get changes no
      lookup at all. */
  lemma ShardOthersKeep(hash: Key -> nat, s: seq<Cache>, op: Op, k: Key)
    requires s != [] && ShardLegal(hash, s, op) && !op.Purge?
    ensures var (before, after) := (ShardLookup(hash, s, k), ShardLookup(hash, ShardStep(hash, s, op), k));
            && (op.Get? ==> after == before)
            && (op.Put? && op.key != k && after.Some? ==> after == before)
  {
    hide Step, Legal;
    var i := SliceOf(hash, k, |s|);
    if i == SliceOf(hash, op.key, |s|) {
      if op.Get? {
        GetKeepsLookups(s[i], op, k);
      } else if k in Step(s[i], op).entries {
        StepValues(s[i], op, k);
      }
    }
  }

  lemma GetKeepsLookups(c: Cache, op: Op, k: Key)
    requires op.Get? && Legal(c, op)
    ensures Lookup(Step(c, op), k) == Lookup(c, k)
  {
    hide Step, Legal;
    if k in c.entries { GoneIff(c, op, k); }
    if k in Step(c, op).entries { StepValues(c, op, k); }
  }

  lemma HitIsRecorded(hash: Key -> nat, s: seq<Cache>, history: seq<Op>, key: Key)
    requires s != [] && ValuesOk(hash, s, history)
    ensures ShardLookup(hash, s, key).Some? ==> ShardLookup(hash, s, key) == LastPut(history, key)
  {
    assert SliceOk(hash, s, SliceOf(hash, key, |s|), history);
  }

  /** Transparency of the sharded cache: in every run a hit returns the value last put for that key. */
  lemma {:induction false} ShardHitIsLastPut(hash: Key -> nat, capacity: nat, n: nat, maxAverage: int, ops: seq<Op>, k: Key)
    requires n > 0 && ShardLegalRun(hash, InitShards(capacity, n, maxAverage), ops)
    ensures var s := ShardRun(hash, InitShards(capacity, n, maxAverage), ops);
            && ValuesOk(hash, s, ops)
            && (ShardLookup(hash, s, k).Some? ==> ShardLookup(hash, s, k) == LastPut(ops, k))
    decreases |ops|
  {
    hide ShardStep, ShardLegal, ShardLookup;
    if ops != [] {
      ShardHitIsLastPut(hash, capacity, n, maxAverage, ops[..|ops| - 1], k);
      ShardStepValues(hash, ShardRun(hash, InitShards(capacity, n, maxAverage), ops[..|ops| - 1]), ops);
    }
    HitIsRecorded(hash, ShardRun(hash, InitShards(capacity, n, maxAverage), ops), ops, k);
  }
}
