/** The LFU slice as the source builds it: a key map over linked lists, one list per frequency. */
module LfuCaches {
  import opened Wrappers
  import opened LfuSpec
  import opened LfuTheorems
  import opened FreqLists

  // ----- which keys are in which list -----

  // keys are the entries of frequency f in the order they reached it (those not loose).
  ghost predicate FiledUnder(entries: map<Key, Entry>, f: int, keys: seq<Key>) {
    && (forall i :: 0 <= i < |keys| ==> keys[i] in entries && entries[keys[i]].freq == f)
    && (forall i, j :: 0 <= i < j < |keys| ==> entries[keys[i]].stamp < entries[keys[j]].stamp)
  }

  // Every entry but the loose ones is in the list of its own frequency; lists hold nothing else.
  ghost predicate Filed(entries: map<Key, Entry>, order: map<int, seq<Key>>, loose: set<Key>) {
    && (forall f :: f in order ==> FiledUnder(entries, f, order[f]))
    && (forall k :: k in entries && k !in loose ==> entries[k].freq in order && k in order[entries[k].freq])
    && (forall f, k :: f in order && k in order[f] ==> k !in loose)
  }

  /** A cached key is in exactly one list, at exactly one place. */
  lemma FiledOnce(entries: map<Key, Entry>, order: map<int, seq<Key>>, k: Key)
    requires Filed(entries, order, {}) && k in entries
    ensures exists i :: entries[k].freq in order && 0 <= i < |order[entries[k].freq]| && order[entries[k].freq][i] == k
    ensures forall f, i, g, j :: (f in order && 0 <= i < |order[f]| && order[f][i] == k
                                  && g in order && 0 <= j < |order[g]| && order[g][j] == k) ==> f == g && i == j
  {
    forall f, i, g, j | f in order && 0 <= i < |order[f]| && order[f][i] == k
                        && g in order && 0 <= j < |order[g]| && order[g][j] == k
      ensures f == g && i == j
    {
      assert FiledUnder(entries, f, order[f]) && FiledUnder(entries, g, order[g]);
    }
  }

  lemma Unfile(entries: map<Key, Entry>, order: map<int, seq<Key>>, f: int, i: nat)
    requires Filed(entries, order, {}) && f in order && i < |order[f]|
    ensures Filed(entries, order[f := Without(order[f], i)], {order[f][i]})
  {
    hide Without, FiledUnder;
    var k := order[f][i];
    WithoutFiled(entries, f, order[f], i);
    forall g | g in order && k in order[g] ensures g == f {
      SameList(entries, order, f, g, k);
    }
  }

  lemma WithoutFiled(entries: map<Key, Entry>, f: int, keys: seq<Key>, i: nat)
    requires FiledUnder(entries, f, keys) && i < |keys|
    ensures FiledUnder(entries, f, Without(keys, i))
    ensures forall j :: j in Without(keys, i) <==> j in keys && j != keys[i]
  {
    hide Without;
    var rest := Without(keys, i);
    forall j | j in keys && j != keys[i] ensures j in rest {
      var n :| 0 <= n < |keys| && keys[n] == j;
      assert rest[if n < i then n else n - 1] == j;
    }
  }

  lemma SameList(entries: map<Key, Entry>, order: map<int, seq<Key>>, f: int, g: int, k: Key)
    requires f in order && FiledUnder(entries, f, order[f]) && k in order[f]
    requires g in order && FiledUnder(entries, g, order[g]) && k in order[g]
    ensures f == g
  {
  }

  lemma Refile(entries: map<Key, Entry>, order: map<int, seq<Key>>, k: Key, e: Entry)
    requires Filed(entries, order, {k}) && k in entries && e.freq in order
    requires forall j :: j in entries && j != k ==> entries[j].stamp < e.stamp
    ensures Filed(entries[k := e], order[e.freq := order[e.freq] + [k]], {})
  {
    var entries' := entries[k := e];
    forall f | f in order ensures FiledUnder(entries', f, order[f]) {
      assert FiledUnder(entries, f, order[f]);
    }
    assert FiledUnder(entries', e.freq, order[e.freq] + [k]);
    assert k in order[e.freq] + [k];
    forall j | j in entries && j != k && entries[j].freq == e.freq ensures j in order[e.freq] + [k] {
      assert j in order[e.freq];
    }
  }

  lemma LooseChange(entries: map<Key, Entry>, order: map<int, seq<Key>>, k: Key, e: Entry)
    requires Filed(entries, order, {k}) && k in entries
    ensures Filed(entries[k := e], order, {k})
  {
    forall f | f in order ensures FiledUnder(entries[k := e], f, order[f]) {
      assert FiledUnder(entries, f, order[f]);
    }
  }

  // A lower bound over the lists is one over the entries.
  lemma NoSmaller(entries: map<Key, Entry>, order: map<int, seq<Key>>, m: int)
    requires Filed(entries, order, {}) && m <= SENTINEL && (m == SENTINEL || HasFreq(entries, m))
    requires forall f :: f in order && HasFreq(entries, f) ==> m <= f
    ensures UpdatedMin(entries) == if m == SENTINEL then 1 else m
  {
    forall k | k in entries ensures m <= entries[k].freq {
      assert HasFreq(entries, entries[k].freq);
    }
    if m != SENTINEL {
      LeastUnique(m, entries);
    }
  }

  lemma AgeOneMore(entries: map<Key, Entry>, walk: seq<Key>, k: Key, half: int, clock: nat)
    requires (forall j :: j in walk ==> j in entries) && k in entries && k !in walk
    ensures var before := AgeKeys(entries, walk, half, clock);
            && before[k] == entries[k]
            && AgeKeys(entries, walk + [k], half, clock)
               == before[k := Entry(before[k].value, AgedFreq(before[k].freq, half), clock + |walk|)]
  {
    assert (walk + [k])[..|walk|] == walk;
  }

  lemma EnumerateNone(entries: map<Key, Entry>, half: int, clock: nat)
    ensures Enumerates([], {}) && AgeKeys(entries, [], half, clock) == entries
  {
  }

  lemma {:induction false} SomeOrder(keys: set<Key>) returns (order: seq<Key>)
    ensures Enumerates(order, keys)
    decreases keys
  {
    order := [];
    if keys != {} {
      var k :| k in keys;
      order := SomeOrder(keys - {k});
      EnumerateMore(order, keys - {k}, k);
      assert keys - {k} + {k} == keys;
      order := order + [k];
    }
  }

  lemma EnumerateMore(walk: seq<Key>, done: set<Key>, k: Key)
    requires Enumerates(walk, done) && k !in done
    ensures Enumerates(walk + [k], done + {k}) && k !in walk
  {
  }

  lemma EraseKeeps(entries: map<Key, Entry>, order: map<int, seq<Key>>, k: Key)
    requires Filed(entries, order, {k})
    ensures Filed(entries - {k}, order, {})
  {
    forall f | f in order ensures FiledUnder(entries - {k}, f, order[f]) {
      assert FiledUnder(entries, f, order[f]);
    }
  }

  lemma NewKeeps(entries: map<Key, Entry>, order: map<int, seq<Key>>, k: Key, e: Entry)
    requires Filed(entries, order, {}) && k !in entries
    ensures Filed(entries[k := e], order, {k})
  {
    forall f | f in order ensures FiledUnder(entries[k := e], f, order[f]) {
      assert FiledUnder(entries, f, order[f]);
    }
    forall f | f in order ensures k !in order[f] {
      assert FiledUnder(entries, f, order[f]);
    }
  }

  lemma SameFreqKeeps(entries: map<Key, Entry>, order: map<int, seq<Key>>, k: Key, e: Entry)
    requires Filed(entries, order, {}) && k in entries && e.freq == entries[k].freq && e.stamp == entries[k].stamp
    ensures Filed(entries[k := e], order, {})
  {
    forall f | f in order ensures FiledUnder(entries[k := e], f, order[f]) {
      assert FiledUnder(entries, f, order[f]);
    }
  }

  lemma EmptyListKeeps(entries: map<Key, Entry>, order: map<int, seq<Key>>, f: int, loose: set<Key>)
    requires Filed(entries, order, loose) && f !in order
    ensures Filed(entries, order[f := []], loose)
  {
  }

  lemma ListIsFreq(entries: map<Key, Entry>, order: map<int, seq<Key>>, f: int)
    requires Filed(entries, order, {})
    ensures HasFreq(entries, f) <==> f in order && order[f] != []
  {
    if f in order && order[f] != [] {
      assert FiledUnder(entries, f, order[f]);
      assert order[f][0] in entries && entries[order[f][0]].freq == f;
    }
  }

  /** The head of the list of minFreq is the entry LFU evicts. */
  lemma HeadIsVictim(c: Cache, order: map<int, seq<Key>>)
    requires Filed(c.entries, order, {}) && StampsOk(c.entries, c.clock) && HasFreq(c.entries, c.minFreq)
    ensures c.minFreq in order && order[c.minFreq] != [] && order[c.minFreq][0] == Victim(c)
  {
    ListIsFreq(c.entries, order, c.minFreq);
    var keys := order[c.minFreq];
    assert FiledUnder(c.entries, c.minFreq, keys);
    assert Victim(c) in keys;
    var i :| 0 <= i < |keys| && keys[i] == Victim(c);
  }

  lemma InsertKeys(c: Cache, k: Key, v: Value)
    ensures Insert(c, k, v).entries.Keys == c.entries.Keys + {k}
  {
  }

  // ----- the cache -----

  class KLfuCache {
    const capacity: int
    const maxAverage: int
    var minFreq: int
    var average: int
    var total: int
    var nodeMap: map<Key, Node>
    var lists: map<int, FreqList>
    // What the pointers spell out.
    ghost var clock: nat
    ghost var entries: map<Key, Entry>
    ghost var order: map<int, seq<Key>>
    ghost var Repr: set<object>

    ghost predicate Owned()
      reads this`nodeMap, this`lists, this`Repr
    {
      && this !in Repr
      && (forall k :: k in nodeMap ==> nodeMap[k] in Repr)
      && (forall f :: f in lists ==> lists[f] in Repr)
    }

    // The fields of the nodes are the entries.
    ghost predicate NodesMatch()
      requires Owned()
      reads this`nodeMap, this`lists, this`entries, this`Repr, Repr
    {
      && nodeMap.Keys == entries.Keys
      && (forall k :: k in nodeMap ==>
            && nodeMap[k].key == k && nodeMap[k].value == entries[k].value
            && nodeMap[k].freq == entries[k].freq)
    }

    // The links of list f run through the nodes of order[f].
    ghost predicate ListMatches(f: int)
      requires Owned() && f in lists
      reads this`nodeMap, this`lists, this`order, this`Repr, Repr
    {
      var l := lists[f];
      && (forall i :: 0 <= i < |l.chain| ==> l.chain[i] in Repr)
      && l.freq == f && l.Linked() && l.AtHome() && l.SentinelOk() && f in order
      && |l.chain| == |order[f]| + 2
      && (forall i :: 0 <= i < |order[f]| ==> order[f][i] in nodeMap && l.chain[i + 1] == nodeMap[order[f][i]])
    }

    ghost predicate Linkage(loose: set<Key>)
      reads this`nodeMap, this`lists, this`entries, this`order, this`Repr, Repr
    {
      && Owned() && NodesMatch()
      && order.Keys == lists.Keys
      && (forall f :: f in lists ==> ListMatches(f))
      && (forall k :: k in loose ==> k in nodeMap && nodeMap[k].home == null)
    }

    ghost predicate Shape(loose: set<Key>)
      reads this`nodeMap, this`lists, this`entries, this`order, this`clock, this`Repr, Repr
      ensures Shape(loose) ==> this !in Repr && entries.Keys == nodeMap.Keys
    {
      && Linkage(loose) && Filed(entries, order, loose)
      && (forall k :: k in entries && k !in loose ==> entries[k].stamp < clock)
    }

    ghost function Model(): Cache
      reads this
    {
      Cache(capacity, maxAverage, minFreq, average, total, clock, entries)
    }

    // While anything is cached, the lists of frequency 1 and of minFreq are there, though perhaps empty.
    ghost predicate Listed()
      reads this`minFreq, this`lists, this`entries
    {
      entries != map[] ==> 1 in lists && minFreq in lists
    }

    ghost predicate Valid()
      reads this, Repr
      ensures Valid() ==> this !in Repr
    {
      Shape({}) && StampsOk(entries, clock) && Positive(Model()) && Listed()
    }

    constructor (capacity: int, maxAverage: int)
      ensures Valid() && fresh(Repr) && Model() == Init(capacity, maxAverage)
    {
      this.capacity, this.maxAverage := capacity, maxAverage;
      minFreq, average, total := SENTINEL, 0, 0;
      nodeMap, lists := map[], map[];
      clock, entries, order := 0, map[], map[];
      Repr := {};
    }

    lemma NodeFields(k: Key, loose: set<Key>)
      requires Shape(loose) && k in nodeMap
      ensures this !in Repr && nodeMap[k] in Repr && nodeMap[k].key == k && k in entries
      ensures nodeMap[k].freq == entries[k].freq && nodeMap[k].value == entries[k].value
    {
      assert NodesMatch();
    }

    lemma SameKeySet(loose: set<Key>)
      requires Shape(loose)
      ensures this !in Repr && entries.Keys == nodeMap.Keys && |entries| == |nodeMap|
    {
      assert NodesMatch();
      assert |entries.Keys| == |nodeMap.Keys|;
    }

    lemma FreqListed(k: Key)
      requires Shape({}) && k in nodeMap
      ensures nodeMap[k].freq in lists
    {
      NodeFields(k, {});
    }

    // A list is empty exactly when no entry has its frequency; else its first node is the earliest of them.
    lemma ListContents(f: int)
      requires Shape({}) && f in lists
      ensures lists[f].Linked() && (|lists[f].chain| == 2 <==> !HasFreq(entries, f))
      ensures HasFreq(entries, f) ==>
                f in order && order[f] != [] && order[f][0] in nodeMap && lists[f].chain[1] == nodeMap[order[f][0]]
    {
      assert ListMatches(f);
      ListIsFreq(entries, order, f);
    }

    // ----- list maintenance -----

    method Unlink(node: Node, f: int, ghost i: nat)
      requires Linkage({}) && f in lists && i < |order[f]| && nodeMap[order[f][i]] == node
      modifies this`order, Repr
      ensures Linkage({node.key}) && order == old(order)[f := Without(old(order)[f], i)]
    {
      hide FreqList.Linked, Without;
      assert ListMatches(f);
      lists[f].Inner(i + 1);
      lists[f].RemoveNode(node, i + 1);
      order := order[f := Without(order[f], i)];
      forall g | g in lists ensures ListMatches(g) {
        if g != f { assert old(ListMatches(g)); }
      }
    }

    method Link(node: Node, f: int)
      requires node.key in nodeMap && nodeMap[node.key] == node && Linkage({node.key}) && f in lists
      modifies this`order, Repr
      ensures Linkage({}) && order == old(order)[f := old(order)[f] + [node.key]]
    {
      hide FreqList.Linked, BeforeLast;
      assert ListMatches(f);
      lists[f].AddNode(node);
      order := order[f := order[f] + [node.key]];
      forall g | g in lists ensures ListMatches(g) {
        if g != f { assert old(ListMatches(g)); }
      }
    }

    method CreateList(f: int, ghost loose: set<Key>)
      requires Linkage(loose) && f !in lists
      modifies this`lists, this`order, this`Repr
      ensures Linkage(loose) && f in lists && order == old(order)[f := []] && fresh(Repr - old(Repr))
    {
      hide FreqList.Linked, FreqList.AtHome, FreqList.SentinelOk;
      var l := new FreqList(f);
      lists := lists[f := l];
      order := order[f := []];
      Repr := Repr + {l, l.chain[0], l.chain[1]};
      forall g | g in lists ensures ListMatches(g) {
        if g != f { assert old(ListMatches(g)); }
      }
    }

    method RemoveFromFreqList(node: Node)
      requires Shape({}) && node.key in nodeMap && nodeMap[node.key] == node
      modifies this`order, Repr
      ensures Shape({node.key})
    {
      hide ListMatches, FiledUnder;
      var f := node.freq;
      ghost var i :| 0 <= i < |order[f]| && order[f][i] == node.key;
      Unfile(entries, order, f, i);
      Unlink(node, f, i);
    }

    method AddToFreqList(node: Node)
      requires node.key in nodeMap && nodeMap[node.key] == node && Shape({node.key})
      modifies this`lists, this`order, this`entries, this`clock, this`Repr, Repr
      ensures Shape({}) && nodeMap == old(nodeMap) && fresh(Repr - old(Repr))
      ensures old(lists).Keys <= lists.Keys && old(node.freq) in lists
      ensures clock == old(clock) + 1
      ensures entries == old(entries)[node.key := old(entries)[node.key].(stamp := old(clock))]
    {
      hide ListMatches, FiledUnder, Without;
      ghost var k := node.key;
      var f := node.freq;
      if f !in lists {
        EmptyListKeeps(entries, order, f, {k});
        CreateList(f, {k});
      }
      Refile(entries, order, k, entries[k].(stamp := clock));
      Link(node, f);
      Restamp(k);
    }

    ghost method Restamp(k: Key)
      requires Linkage({}) && k in entries && (forall j :: j in entries && j != k ==> entries[j].stamp < clock)
      requires Filed(entries[k := entries[k].(stamp := clock)], order, {})
      modifies this`entries, this`clock
      ensures Shape({})
      ensures clock == old(clock) + 1 && entries == old(entries)[k := old(entries)[k].(stamp := old(clock))]
    {
      hide Filed, ListMatches;
      entries := entries[k := entries[k].(stamp := clock)];
      clock := clock + 1;
    }
  
    // removeFromFreqList; node->freq = freq; addToFreqList
    method MoveTo(node: Node, freq: int)
      requires Shape({}) && node.key in nodeMap && nodeMap[node.key] == node
      modifies this`lists, this`order, this`entries, this`clock, this`Repr, Repr
      ensures Shape({}) && nodeMap == old(nodeMap) && fresh(Repr - old(Repr))
      ensures old(lists).Keys <= lists.Keys && freq in lists
      ensures clock == old(clock) + 1
      ensures entries == old(entries)[node.key := Entry(old(entries)[node.key].value, freq, old(clock))]
    {
      hide Shape;
      NodeFields(node.key, {});
      RemoveFromFreqList(node);
      SetFreq(node, freq);
      AddToFreqList(node);
    }

    method SetFreq(node: Node, freq: int)
      requires node.key in nodeMap && nodeMap[node.key] == node && Shape({node.key})
      modifies node`freq, this`entries
      ensures Shape({node.key}) && entries == old(entries)[node.key := old(entries)[node.key].(freq := freq)]
      ensures node.freq == freq
    {
      hide FreqList.Linked, Filed;
      ghost var k := node.key;
      LooseChange(entries, order, k, entries[k].(freq := freq));
      node.freq := freq;
      entries := entries[k := entries[k].(freq := freq)];
      forall g | g in lists ensures ListMatches(g) {
        assert old(ListMatches(g));
      }
    }

    // ----- access counting and aging -----

    lemma NoSmallerEntry()
      requires Shape({}) && minFreq <= SENTINEL && (minFreq == SENTINEL || HasFreq(entries, minFreq))
      requires forall f :: f in lists && HasFreq(entries, f) ==> minFreq <= f
      ensures UpdatedMin(entries) == if minFreq == SENTINEL then 1 else minFreq
    {
      NoSmaller(entries, order, minFreq);
    }

    method UpdateMinFreq()
      requires Shape({})
      modifies this`minFreq
      ensures Shape({}) && minFreq == UpdatedMin(entries) && (minFreq == 1 || minFreq in lists)
    {
      hide Shape;
      minFreq := SENTINEL;
      var todo := lists.Keys;
      while exists f :: f in todo
        invariant todo <= lists.Keys
        invariant minFreq <= SENTINEL
        invariant minFreq == SENTINEL || (HasFreq(entries, minFreq) && minFreq in lists)
        invariant forall f :: f in lists && f !in todo && HasFreq(entries, f) ==> minFreq <= f
        decreases todo
      {
        var f :| f in todo;
        ListContents(f);
        var empty := lists[f].IsEmpty();
        if !empty && f < minFreq {
          minFreq := f;
        }
        todo := todo - {f};
      }
      NoSmallerEntry();
      if minFreq == SENTINEL {
        minFreq := 1;
      }
    }

    method AgeNode(node: Node, ghost k: Key)
      requires Shape({}) && k in nodeMap && nodeMap[k] == node
      modifies this`lists, this`order, this`entries, this`clock, this`Repr, Repr
      ensures Shape({}) && nodeMap == old(nodeMap) && fresh(Repr - old(Repr)) && old(lists).Keys <= lists.Keys
      ensures k in old(entries)
      ensures clock == old(clock) + 1
      ensures entries == old(entries)[k := Entry(old(entries)[k].value,
                                                 AgedFreq(old(entries)[k].freq, Half(maxAverage)), old(clock))]
    {
      hide Shape;
      NodeFields(k, {});
      var freq := node.freq - Half(maxAverage);
      if freq < 1 {
        freq := 1;
      }
      MoveTo(node, freq);
    }

    method AgeAllNodes() returns (ghost walk: seq<Key>)
      requires Shape({})
      modifies this`lists, this`order, this`entries, this`clock, this`Repr, Repr
      ensures Shape({}) && nodeMap == old(nodeMap) && fresh(Repr - old(Repr)) && old(lists).Keys <= lists.Keys
      ensures Enumerates(walk, old(entries).Keys) && clock == old(clock) + |walk|
      ensures entries == AgeKeys(old(entries), walk, Half(maxAverage), old(clock))
    {
      hide Shape, Enumerates, AgeKeys;
      EnumerateNone(entries, Half(maxAverage), clock);
      walk := [];
      var todo := nodeMap.Keys;
      ghost var done: set<Key> := {};
      while todo != {}
        invariant done + todo == nodeMap.Keys && done !! todo && nodeMap == old(nodeMap)
        invariant Shape({}) && fresh(Repr - old(Repr)) && old(lists).Keys <= lists.Keys
        invariant Enumerates(walk, done)
        invariant forall k :: k in walk ==> k in old(entries)
        invariant clock == old(clock) + |walk|
        invariant entries == AgeKeys(old(entries), walk, Half(maxAverage), old(clock))
        decreases todo
      {
        var k :| k in todo;
        EnumerateMore(walk, done, k);
        AgeOneMore(old(entries), walk, k, Half(maxAverage), old(clock));
        AgeNode(nodeMap[k], k);
        todo := todo - {k};
        done := done + {k};
        walk := walk + [k];
      }
    }

    method HandleOverMaxAverageNum() returns (ghost walk: seq<Key>)
      requires Shape({})
      modifies this`minFreq, this`lists, this`order, this`entries, this`clock, this`Repr, Repr
      ensures Shape({}) && nodeMap == old(nodeMap) && fresh(Repr - old(Repr))
      ensures Enumerates(walk, old(entries).Keys) && Model() == HandleOverMax(old(Model()), walk)
      ensures old(lists).Keys <= lists.Keys && (minFreq == old(minFreq) || minFreq == 1 || minFreq in lists)
    {
      hide Shape, AgeKeys;
      walk := [];
      if nodeMap.Keys == {} {
        return;
      }
      walk := AgeAllNodes();
      UpdateMinFreq();
    }

    method AddFreqNum() returns (ghost walk: seq<Key>)
      requires Shape({})
      modifies this`minFreq, this`average, this`total, this`lists, this`order, this`entries, this`clock, this`Repr, Repr
      ensures Shape({}) && nodeMap == old(nodeMap) && fresh(Repr - old(Repr))
      ensures Enumerates(walk, old(entries).Keys) && Model() == LfuSpec.AddFreqNum(old(Model()), walk)
      ensures old(lists).Keys <= lists.Keys && (minFreq == old(minFreq) || minFreq == 1 || minFreq in lists)
    {
      hide Shape, Enumerates, HandleOverMax;
      SameKeySet({});
      total := total + 1;
      if nodeMap.Keys == {} {
        average := 0;
      } else {
        average := total / |nodeMap|;
      }
      if average > maxAverage {
        walk := HandleOverMaxAverageNum();
      } else {
        walk := SomeOrder(nodeMap.Keys);
      }
    }

    method DecreaseFreqNum(num: int)
      requires Shape({})
      modifies this`average, this`total
      ensures total == old(total) - num && average == AverageOf(total, entries)
    {
      hide Shape;
      SameKeySet({});
      total := total - num;
      if nodeMap.Keys == {} {
        average := 0;
      } else {
        average := total / |nodeMap|;
      }
    }

    // ----- the cache interface -----

    // Moves the node up one list, and minFreq with it when that empties the list of minFreq.
    method PromoteNode(node: Node)
      requires Shape({}) && node.key in nodeMap && nodeMap[node.key] == node
      modifies this`minFreq, this`lists, this`order, this`entries, this`clock, this`Repr, Repr
      ensures Shape({}) && nodeMap == old(nodeMap) && fresh(Repr - old(Repr))
      ensures node.key in old(entries) && Model() == Promote(old(Model()), node.key)
      ensures old(lists).Keys <= lists.Keys && (minFreq == old(minFreq) || minFreq == 1 || minFreq in lists)
    {
      hide Shape, HasFreq;
      NodeFields(node.key, {});
      FreqListed(node.key);
      MoveTo(node, node.freq + 1);
      NodeFields(node.key, {});
      ListContents(node.freq - 1);
      if node.freq - 1 == minFreq {
        var empty := lists[node.freq - 1].IsEmpty();
        if empty {
          minFreq := minFreq + 1;
        }
      }
    }

    method GetInternal(node: Node) returns (value: Value, ghost walk: seq<Key>)
      requires Shape({}) && node.key in nodeMap && nodeMap[node.key] == node
      modifies this`minFreq, this`average, this`total, this`lists, this`order, this`entries, this`clock, this`Repr, Repr
      ensures Shape({}) && nodeMap == old(nodeMap) && fresh(Repr - old(Repr))
      ensures node.key in old(entries) && value == old(entries)[node.key].value
      ensures Enumerates(walk, old(entries).Keys) && Model() == Touch(old(Model()), node.key, walk)
      ensures old(lists).Keys <= lists.Keys && (minFreq == old(minFreq) || minFreq == 1 || minFreq in lists)
    {
      hide Shape, Enumerates, LfuSpec.AddFreqNum, Promote;
      NodeFields(node.key, {});
      value := node.value;
      PromoteNode(node);
      assert entries.Keys == old(entries).Keys;
      walk := AddFreqNum();
    }

    method Erase(k: Key)
      requires Shape({k})
      modifies this`nodeMap, this`entries
      ensures Shape({}) && entries == old(entries) - {k} && nodeMap == old(nodeMap) - {k}
    {
      hide Filed, Linkage;
      EraseKeeps(entries, order, k);
      EraseUnlisted(k);
      Strike(k);
    }

    method Strike(k: Key)
      requires Linkage({k}) && forall f, i :: f in order && 0 <= i < |order[f]| ==> order[f][i] != k
      modifies this`nodeMap, this`entries
      ensures Linkage({}) && entries == old(entries) - {k} && nodeMap == old(nodeMap) - {k}
    {
      hide FreqList.Linked, FreqList.AtHome, FreqList.SentinelOk;
      nodeMap := nodeMap - {k};
      entries := entries - {k};
      forall g | g in lists ensures ListMatches(g) {
        assert old(ListMatches(g));
      }
    }

    lemma EraseUnlisted(k: Key)
      requires Shape({k})
      ensures forall f, i :: f in order && 0 <= i < |order[f]| ==> order[f][i] != k
    {
      forall f, i | f in order && 0 <= i < |order[f]| ensures order[f][i] != k {
        assert order[f][i] in order[f];
      }
    }

    // The node at the head of the list of minFreq goes; in an empty list that is the tail sentinel.
    method KickOut()
      requires Shape({}) && StampsOk(entries, clock) && minFreq in lists && 1 in lists
      requires HasFreq(entries, minFreq) || "" !in entries
      modifies this`average, this`total, this`nodeMap, this`order, this`entries, Repr
      ensures Shape({}) && nodeMap.Keys <= old(nodeMap).Keys
      ensures Model() == if old(HasFreq(entries, minFreq)) then LfuSpec.KickOut(old(Model())) else KickOutNothing(old(Model()))
    {
      hide Shape, StampsOk, HasFreq, Victim, AverageOf;
      ListContents(minFreq);
      var node := lists[minFreq].GetFirstNode();
      if node == lists[minFreq].tail {
        DiscardSentinel(node, minFreq);
      } else {
        DiscardVictim(node);
      }
      DecreaseFreqNum(node.freq);
    }

    method DiscardVictim(node: Node)
      requires Shape({}) && StampsOk(entries, clock) && HasFreq(entries, minFreq)
      requires minFreq in lists && |lists[minFreq].chain| > 2 && node == lists[minFreq].chain[1]
      modifies this`nodeMap, this`order, this`entries, Repr
      ensures Shape({}) && nodeMap.Keys <= old(nodeMap).Keys
      ensures var k := Victim(old(Model()));
              k in old(entries) && entries == old(entries) - {k} && node.freq == old(entries)[k].freq
    {
      hide Shape, StampsOk, HasFreq, Victim;
      VictimListed();
      NodeFields(Victim(Model()), {});
      Discard(node);
    }

    // Of the sentinel, removeFromFreqList makes nothing, and there is no key to erase.
    method DiscardSentinel(node: Node, ghost f: int)
      requires Shape({}) && f in lists && node == lists[f].tail && 1 in lists && "" !in entries
      modifies this`nodeMap, this`order, this`entries, Repr
      ensures Shape({}) && node.freq == 1 && nodeMap == old(nodeMap) && entries == old(entries)
    {
      hide Filed;
      assert ListMatches(f) && ListMatches(1);
      lists[node.freq].RemoveNode(node, 0);
      nodeMap := nodeMap - {node.key};
      assert nodeMap == old(nodeMap);
      forall g | g in lists ensures ListMatches(g) {
        assert old(ListMatches(g));
      }
    }

    // removeFromFreqList(node); nodeMap_.erase(node->key)
    method Discard(node: Node)
      requires Shape({}) && node.key in nodeMap && nodeMap[node.key] == node
      modifies this`nodeMap, this`order, this`entries, Repr
      ensures Shape({}) && entries == old(entries) - {node.key} && nodeMap == old(nodeMap) - {node.key}
      ensures node.key in old(entries) && node.freq == old(entries)[node.key].freq
    {
      hide Shape;
      NodeFields(node.key, {});
      RemoveFromFreqList(node);
      NodeFields(node.key, {node.key});
      Erase(node.key);
    }

    lemma VictimListed()
      requires Shape({}) && StampsOk(entries, clock) && HasFreq(entries, minFreq)
      ensures minFreq in lists && lists[minFreq].Linked() && |lists[minFreq].chain| > 2
      ensures Victim(Model()) in nodeMap && lists[minFreq].chain[1] == nodeMap[Victim(Model())]
    {
      ListIsFreq(entries, order, minFreq);
      ListContents(minFreq);
      HeadIsVictim(Model(), order);
    }

    method NewNode(key: Key, value: Value) returns (node: Node)
      requires Shape({}) && key !in nodeMap
      modifies this`nodeMap, this`entries, this`Repr
      ensures Shape({key}) && node.key == key && node.freq == 1 && nodeMap == old(nodeMap)[key := node]
      ensures fresh(Repr - old(Repr))
      ensures entries == old(entries)[key := Entry(value, 1, 0)]
    {
      hide Filed, Linkage;
      NewKeeps(entries, order, key, Entry(value, 1, 0));
      node := Enroll(key, value);
    }

    method Enroll(key: Key, value: Value) returns (node: Node)
      requires Linkage({}) && key !in nodeMap
      modifies this`nodeMap, this`entries, this`Repr
      ensures Linkage({key}) && node.key == key && node.freq == 1 && nodeMap == old(nodeMap)[key := node]
      ensures fresh(Repr - old(Repr))
      ensures entries == old(entries)[key := Entry(value, 1, 0)]
    {
      hide Linkage;
      node := new Node(key, value);
      Adopt(node);
      EnterNode(node);
    }

    ghost method Adopt(node: Node)
      requires Linkage({})
      modifies this`Repr
      ensures Linkage({}) && Repr == old(Repr) + {node}
    {
      hide FreqList.Linked, FreqList.AtHome, FreqList.SentinelOk;
      Repr := Repr + {node};
      forall g | g in lists ensures ListMatches(g) {
        assert old(ListMatches(g));
      }
    }

    method EnterNode(node: Node)
      requires Linkage({}) && node in Repr && node.home == null && node.freq == 1 && node.key !in nodeMap
      modifies this`nodeMap, this`entries
      ensures Linkage({node.key}) && nodeMap == old(nodeMap)[node.key := node]
      ensures entries == old(entries)[node.key := Entry(node.value, 1, 0)]
    {
      hide FreqList.Linked, FreqList.AtHome, FreqList.SentinelOk;
      nodeMap := nodeMap[node.key := node];
      entries := entries[node.key := Entry(node.value, 1, 0)];
      forall g | g in lists ensures ListMatches(g) {
        assert old(ListMatches(g));
      }
    }

    // Eviction, when the cache is full.
    method EnsureRoom()
      requires Shape({}) && StampsOk(entries, clock) && Listed() && capacity != 0
      requires |entries| == capacity ==> HasFreq(entries, minFreq) || "" !in entries
      modifies this`average, this`total, this`nodeMap, this`order, this`entries, Repr
      ensures Shape({}) && nodeMap.Keys <= old(nodeMap).Keys && Model() == MakeRoom(old(Model()))
    {
      hide Shape, StampsOk, HasFreq, LfuSpec.KickOut, KickOutNothing;
      SameKeySet({});
      if |nodeMap| == capacity {
        KickOut();
      }
    }

    method InsertNode(key: Key, value: Value)
      requires Shape({}) && key !in nodeMap
      modifies this`nodeMap, this`lists, this`order, this`entries, this`clock, this`Repr, Repr
      ensures Shape({}) && fresh(Repr - old(Repr)) && Model() == Insert(old(Model()), key, value)
      ensures 1 in lists
    {
      hide Shape;
      var node := NewNode(key, value);
      AddToFreqList(node);
    }

    method PutInternal(key: Key, value: Value) returns (ghost walk: seq<Key>)
      requires Valid() && CanPut(Model(), key) && key !in entries && capacity != 0
      modifies this, Repr
      ensures Shape({}) && fresh(Repr - old(Repr)) && 1 in lists && minFreq <= 1
      ensures Enumerates(walk, MakeRoom(old(Model())).entries.Keys + {key})
      ensures Model() == PutNew(old(Model()), key, value, walk)
    {
      hide Shape, StampsOk, LfuSpec.AddFreqNum, Enumerates, HasFreq, MakeRoom, Positive, Insert;
      SameKeySet({});
      EnsureRoom();
      InsertNode(key, value);
      InsertKeys(MakeRoom(old(Model())), key, value);
      walk := AddFreqNum();
      minFreq := if minFreq < 1 then minFreq else 1;
    }

    // ----- the interface -----

    // walk is the order in which an aging pass, if any, met the keys.
    method Put(key: Key, value: Value) returns (ghost walk: seq<Key>)
      requires Valid() && CanPut(Model(), key)
      modifies this, Repr
      ensures Valid() && fresh(Repr - old(Repr))
      ensures Legal(old(Model()), Op.Put(key, value, walk))
      ensures Model() == Step(old(Model()), Op.Put(key, value, walk))
    {
      hide Shape, StampsOk, LfuSpec.AddFreqNum, Enumerates, HasFreq, MakeRoom;
      if capacity == 0 {
        walk := SomeOrder(entries.Keys);
      } else if key in nodeMap {
        walk := Rewrite(nodeMap[key], key, value);
      } else {
        walk := PutInternal(key, value);
      }
      StepStamps(old(Model()), Op.Put(key, value, walk));
      StepPositive(old(Model()), Op.Put(key, value, walk));
    }

    // it->second->value = value; getInternal(it->second, value)
    method Rewrite(node: Node, ghost key: Key, value: Value) returns (ghost walk: seq<Key>)
      requires Shape({}) && key in nodeMap && nodeMap[key] == node && key in entries
      modifies this, Repr
      ensures Shape({}) && fresh(Repr - old(Repr))
      ensures Enumerates(walk, old(entries).Keys)
      ensures WithValue(old(Model()), key, value).entries.Keys == old(entries).Keys
      ensures Model() == Touch(WithValue(old(Model()), key, value), key, walk)
      ensures old(lists).Keys <= lists.Keys && (minFreq == old(minFreq) || minFreq == 1 || minFreq in lists)
    {
      hide Shape, Enumerates, Touch;
      SetValue(node, key, value);
      assert entries.Keys == old(entries).Keys;
      NodeFields(key, {});
      var v;
      v, walk := GetInternal(node);
    }

    method SetValue(node: Node, ghost key: Key, value: Value)
      requires Shape({}) && key in nodeMap && nodeMap[key] == node && key in entries
      modifies Repr, this`entries
      ensures Shape({}) && Model() == WithValue(old(Model()), key, value)
    {
      hide Linkage, Filed;
      NodeFields(key, {});
      SameFreqKeeps(entries, order, key, entries[key].(value := value));
      WriteValue(node, key, value);
    }

    method WriteValue(node: Node, ghost key: Key, value: Value)
      requires Linkage({}) && key in nodeMap && nodeMap[key] == node && key in entries
      modifies node`value, this`entries
      ensures Linkage({}) && entries == old(entries)[key := old(entries)[key].(value := value)]
    {
      hide FreqList.Linked, FreqList.SentinelOk;
      node.value := value;
      entries := entries[key := entries[key].(value := value)];
      forall g | g in lists ensures ListMatches(g) {
        assert old(ListMatches(g));
      }
    }

    method Get(key: Key) returns (r: Option<Value>, ghost walk: seq<Key>)
      requires Valid()
      modifies this, Repr
      ensures Valid() && fresh(Repr - old(Repr))
      ensures r == Lookup(old(Model()), key)
      ensures Legal(old(Model()), Op.Get(key, walk)) && Model() == Step(old(Model()), Op.Get(key, walk))
    {
      hide Shape, StampsOk, Touch, Enumerates;
      if key in nodeMap {
        NodeFields(key, {});
        var v;
        v, walk := GetInternal(nodeMap[key]);
        r := Some(v);
      } else {
        walk := SomeOrder(entries.Keys);
        r := None;
      }
      StepStamps(old(Model()), Op.Get(key, walk));
      StepPositive(old(Model()), Op.Get(key, walk));
    }

    lemma NoEntries()
      requires nodeMap == map[] && lists == map[] && entries == map[] && order == map[] && this !in Repr
      ensures Shape({})
    {
    }

    // Drops nodes and lists; the counters stay.
    method Purge()
      requires Valid()
      modifies this
      ensures Valid() && Repr == old(Repr) && Model() == Step(old(Model()), Op.Purge)
    {
      hide Filed, Shape, StampsOk;
      StepStamps(Model(), Op.Purge);
      StepPositive(Model(), Op.Purge);
      nodeMap, lists := map[], map[];
      entries, order := map[], map[];
      NoEntries();
    }
  }
}
