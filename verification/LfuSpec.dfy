/**
  What one LFU slice computes, on values.

  A cached entry carries its access frequency and a stamp: the logical time at
  which it was last appended to a frequency list.  The frequency list of `f` is
  then the set of entries of frequency `f` in stamp order, and its first node is
  the one with the smallest stamp.  LfuCache.dfy proves that the linked lists of
  the implementation are exactly that.

  Aging walks a hash map, so the order of the walk is an input (`order`).
 */
module LfuSpec {
  import opened Wrappers

  type Key = string
  type Value = string

  datatype Entry = Entry(value: Value, freq: int, stamp: nat)

  datatype Cache = Cache(
    capacity: int,
    maxAverage: int,
    minFreq: int,
    average: int,
    total: int,
    clock: nat,
    entries: map<Key, Entry>)

  // INT8_MAX, the start value of minFreq and the sentinel of UpdateMinFreq.
  const SENTINEL: int := 127

  function Init(capacity: int, maxAverage: int): Cache {
    Cache(capacity, maxAverage, SENTINEL, 0, 0, 0, map[])
  }

  // Integer division by two that truncates toward zero.
  function Half(n: int): int {
    if n >= 0 then n / 2 else -((-n) / 2)
  }

  function AgedFreq(freq: int, half: int): int {
    if freq - half < 1 then 1 else freq - half
  }

  ghost predicate Enumerates(order: seq<Key>, keys: set<Key>) {
    && (forall i, j :: 0 <= i < j < |order| ==> order[i] != order[j])
    && (forall k :: k in keys <==> k in order)
  }

  ghost predicate HasFreq(entries: map<Key, Entry>, f: int) {
    exists k :: k in entries && entries[k].freq == f
  }

  ghost predicate IsLeast(m: int, entries: map<Key, Entry>) {
    && HasFreq(entries, m)
    && forall k :: k in entries ==> m <= entries[k].freq
  }

  lemma {:induction false} LeastExists(entries: map<Key, Entry>)
    requires entries != map[]
    ensures exists m :: IsLeast(m, entries)
    decreases |entries|
  {
    var k :| k in entries;
    var rest := entries - {k};
    if rest == map[] {
      assert forall j :: j in entries ==> j == k || j in rest;
      assert IsLeast(entries[k].freq, entries);
    } else {
      assert rest.Keys == entries.Keys - {k};
      LeastExists(rest);
      var m :| IsLeast(m, rest);
      var w :| w in rest && rest[w].freq == m;
      assert forall j :: j in entries ==> j == k || j in rest;
      if entries[k].freq < m {
        assert IsLeast(entries[k].freq, entries);
      } else {
        assert w in entries && entries[w].freq == m;
        assert IsLeast(m, entries);
      }
    }
  }

  ghost function LeastFreq(entries: map<Key, Entry>): (m: int)
    requires entries != map[]
    ensures IsLeast(m, entries)
  {
    LeastExists(entries);
    var m :| IsLeast(m, entries);
    m
  }

  // Among keys, k is the one of frequency f that reached it earliest.
  ghost predicate Earliest(entries: map<Key, Entry>, f: int, keys: set<Key>, k: Key)
    requires keys <= entries.Keys
  {
    && k in keys && entries[k].freq == f
    && forall j :: j in keys && entries[j].freq == f ==> entries[k].stamp <= entries[j].stamp
  }

  lemma {:induction false} EarliestExists(entries: map<Key, Entry>, f: int, keys: set<Key>, k: Key)
    requires keys <= entries.Keys && k in keys && entries[k].freq == f
    ensures exists w :: Earliest(entries, f, keys, w)
    decreases keys
  {
    if j :| j in keys && entries[j].freq == f && entries[j].stamp < entries[k].stamp {
      EarliestExists(entries, f, keys - {k}, j);
      var w :| Earliest(entries, f, keys - {k}, w);
      assert entries[w].stamp <= entries[j].stamp;
      assert Earliest(entries, f, keys, w);
    } else {
      assert Earliest(entries, f, keys, k);
    }
  }

  // The entry at the head of the list of minFreq.
  ghost predicate IsVictim(c: Cache, k: Key) {
    Earliest(c.entries, c.minFreq, c.entries.Keys, k)
  }

  ghost function Victim(c: Cache): (k: Key)
    requires HasFreq(c.entries, c.minFreq)
    ensures IsVictim(c, k)
  {
    var j :| j in c.entries && c.entries[j].freq == c.minFreq;
    EarliestExists(c.entries, c.minFreq, c.entries.Keys, j);
    var k :| IsVictim(c, k);
    k
  }

  // ----- the operations -----

  function AgeKeys(entries: map<Key, Entry>, order: seq<Key>, half: int, clock: nat): (aged: map<Key, Entry>)
    requires forall k :: k in order ==> k in entries
    ensures aged.Keys == entries.Keys
  {
    if order == [] then entries
    else
      var n := |order| - 1;
      var before := AgeKeys(entries, order[..n], half, clock);
      var e := before[order[n]];
      before[order[n] := Entry(e.value, AgedFreq(e.freq, half), clock + n)]
  }

  ghost function UpdatedMin(entries: map<Key, Entry>): int {
    if entries == map[] || LeastFreq(entries) >= SENTINEL then 1 else LeastFreq(entries)
  }

  ghost function HandleOverMax(c: Cache, order: seq<Key>): Cache
    requires Enumerates(order, c.entries.Keys)
  {
    if c.entries == map[] then c
    else
      var aged := AgeKeys(c.entries, order, Half(c.maxAverage), c.clock);
      c.(entries := aged, clock := c.clock + |order|, minFreq := UpdatedMin(aged))
  }

  function AverageOf(total: int, entries: map<Key, Entry>): int {
    if entries == map[] then 0 else total / |entries|
  }

  ghost function AddFreqNum(c: Cache, order: seq<Key>): Cache
    requires Enumerates(order, c.entries.Keys)
  {
    var counted := c.(total := c.total + 1, average := AverageOf(c.total + 1, c.entries));
    if counted.average > c.maxAverage then HandleOverMax(counted, order) else counted
  }

  // Moves k to the next frequency list.
  ghost function Promote(c: Cache, k: Key): Cache
    requires k in c.entries
  {
    var e := c.entries[k];
    var moved := c.(entries := c.entries[k := Entry(e.value, e.freq + 1, c.clock)], clock := c.clock + 1);
    if e.freq == c.minFreq && !HasFreq(moved.entries, e.freq) then moved.(minFreq := c.minFreq + 1) else moved
  }

  ghost function Touch(c: Cache, k: Key, order: seq<Key>): Cache
    requires k in c.entries && Enumerates(order, c.entries.Keys)
  {
    assert c.entries[k := c.entries[k]].Keys == c.entries.Keys;
    AddFreqNum(Promote(c, k), order)
  }

  ghost function KickOut(c: Cache): Cache
    requires HasFreq(c.entries, c.minFreq)
  {
    var k := Victim(c);
    var rest := c.entries - {k};
    var total := c.total - c.entries[k].freq;
    c.(entries := rest, total := total, average := AverageOf(total, rest))
  }

  // With the list of minFreq empty its tail sentinel is taken for the victim. It stays where it is, its key, the empty
  // string, names no entry, and its frequency 1 is deducted.
  function KickOutNothing(c: Cache): Cache {
    c.(total := c.total - 1, average := AverageOf(c.total - 1, c.entries))
  }

  ghost function MakeRoom(c: Cache): Cache {
    if |c.entries| != c.capacity then c
    else if HasFreq(c.entries, c.minFreq) then KickOut(c)
    else KickOutNothing(c)
  }

  ghost function Insert(c: Cache, k: Key, v: Value): Cache {
    c.(entries := c.entries[k := Entry(v, 1, c.clock)], clock := c.clock + 1)
  }

  function WithValue(c: Cache, k: Key, v: Value): Cache
    requires k in c.entries
  {
    c.(entries := c.entries[k := c.entries[k].(value := v)])
  }

  datatype Op =
    | Put(key: Key, value: Value, order: seq<Key>)
    | Get(key: Key, order: seq<Key>)
    | Purge

  // Taking the tail sentinel for the victim would erase an entry whose key is the empty string, but not its node.
  ghost predicate CanPut(c: Cache, k: Key) {
    c.capacity != 0 && k !in c.entries && |c.entries| == c.capacity ==> HasFreq(c.entries, c.minFreq) || "" !in c.entries
  }

  ghost function KeysAfter(c: Cache, op: Op): set<Key> {
    match op
    case Put(k, _, _) =>
      if c.capacity == 0 || k in c.entries then c.entries.Keys else MakeRoom(c).entries.Keys + {k}
    case Get(_, _) => c.entries.Keys
    case Purge => {}
  }

  // The call is covered and the supplied aging order is one its hash map could have.
  ghost predicate Legal(c: Cache, op: Op) {
    && (op.Put? ==> CanPut(c, op.key))
    && (!op.Purge? ==> Enumerates(op.order, KeysAfter(c, op)))
  }

  ghost function PutNew(c: Cache, k: Key, v: Value, order: seq<Key>): Cache
    requires k !in c.entries && Enumerates(order, MakeRoom(c).entries.Keys + {k})
  {
    var added := Insert(MakeRoom(c), k, v);
    assert added.entries.Keys == MakeRoom(c).entries.Keys + {k};
    var counted := AddFreqNum(added, order);
    counted.(minFreq := if counted.minFreq < 1 then counted.minFreq else 1)
  }

  ghost function Step(c: Cache, op: Op): Cache
    requires Legal(c, op)
  {
    match op
    case Put(k, v, order) =>
      if c.capacity == 0 then c
      else if k in c.entries then
        assert WithValue(c, k, v).entries.Keys == c.entries.Keys;
        Touch(WithValue(c, k, v), k, order)
      else PutNew(c, k, v, order)
    case Get(k, order) => if k in c.entries then Touch(c, k, order) else c
    case Purge => c.(entries := map[])
  }

  function Lookup(c: Cache, k: Key): Option<Value> {
    if k in c.entries then Some(c.entries[k].value) else None
  }

  // ----- runs -----

  ghost predicate LegalRun(c: Cache, ops: seq<Op>)
    decreases |ops|, 0
  {
    ops == [] ||
    var n := |ops| - 1;
    LegalRun(c, ops[..n]) && Legal(Run(c, ops[..n]), ops[n])
  }

  ghost function Run(c: Cache, ops: seq<Op>): Cache
    requires LegalRun(c, ops)
    decreases |ops|, 1
  {
    if ops == [] then c
    else
      var n := |ops| - 1;
      Step(Run(c, ops[..n]), ops[n])
  }
}
