/** The sharded cache as an object over its slices. */
module ShardedCaches {
  import opened Wrappers
  import opened LfuSpec
  import opened LfuTheorems
  import opened ShardSpec
  import opened LfuCaches

  class KHashLfuCache {
    const hash: Key -> nat
    const capacity: nat
    var slices: seq<KLfuCache>
    ghost var Repr: set<object>

    ghost predicate SlicesApart()
      reads this, slices
    {
      && this !in Repr && |slices| > 0
      && (forall i :: 0 <= i < |slices| ==> slices[i] in Repr && slices[i].Repr <= Repr)
      && (forall i, j :: 0 <= i < j < |slices| ==> slices[i] != slices[j])
      && (forall i, j :: 0 <= i < |slices| && 0 <= j < |slices| ==> slices[i] !in slices[j].Repr)
      && (forall i, j :: 0 <= i < j < |slices| ==> slices[i].Repr !! slices[j].Repr)
    }

    ghost predicate Valid()
      reads this, Repr, slices
      ensures Valid() ==> |slices| > 0
    {
      SlicesApart() && forall i :: 0 <= i < |slices| ==> slices[i].Valid()
    }

    ghost function Model(): (s: seq<Cache>)
      reads this, slices
      ensures |s| == |slices| && forall i :: 0 <= i < |s| ==> s[i] == slices[i].Model()
    {
      seq(|slices|, i requires 0 <= i < |slices| reads this, slices => slices[i].Model())
    }

    // sliceNum is the number the constructor of the source settles on.
    constructor (capacity: nat, sliceNum: nat, maxAverage: int, hash: Key -> nat)
      requires sliceNum > 0
      ensures Valid() && fresh(Repr) && this.hash == hash && this.capacity == capacity
      ensures Model() == InitShards(capacity, sliceNum, maxAverage)
    {
      hide KLfuCache.Valid, KLfuCache.Model;
      this.hash, this.capacity := hash, capacity;
      slices := [];
      Repr := {};
      new;
      var sliceSize := SliceSize(capacity, sliceNum);
      for n := 0 to sliceNum
        invariant this !in Repr && fresh(Repr) && |slices| == n
        invariant n > 0 ==> SlicesApart()
        invariant forall i :: 0 <= i < n ==> slices[i] in Repr && slices[i].Repr <= Repr
        invariant forall i :: 0 <= i < n ==> slices[i].Valid() && slices[i].Model() == Init(sliceSize, maxAverage)
      {
        var slice := new KLfuCache(sliceSize, maxAverage);
        slices := slices + [slice];
        Repr := Repr + {slice} + slice.Repr;
      }
    }

    method Put(key: Key, value: Value) returns (ghost walk: seq<Key>)
      requires Valid() && CanPut(Model()[SliceOf(hash, key, |slices|)], key)
      modifies this`Repr, Repr
      ensures Valid() && fresh(Repr - old(Repr))
      ensures ShardLegal(hash, old(Model()), Op.Put(key, value, walk))
      ensures Model() == ShardStep(hash, old(Model()), Op.Put(key, value, walk))
    {
      hide KLfuCache.Valid, KLfuCache.Model, Legal, Step;
      var index := hash(key) % |slices|;
      walk := slices[index].Put(key, value);
      Repr := Repr + slices[index].Repr;
    }

    method Get(key: Key) returns (r: Option<Value>, ghost walk: seq<Key>)
      requires Valid()
      modifies this`Repr, Repr
      ensures Valid() && fresh(Repr - old(Repr))
      ensures r == ShardLookup(hash, old(Model()), key)
      ensures ShardLegal(hash, old(Model()), Op.Get(key, walk))
      ensures Model() == ShardStep(hash, old(Model()), Op.Get(key, walk))
    {
      hide KLfuCache.Valid, KLfuCache.Model, Legal, Step;
      var index := hash(key) % |slices|;
      r, walk := slices[index].Get(key);
      Repr := Repr + slices[index].Repr;
    }

    method Purge()
      requires Valid()
      modifies Repr
      ensures Valid() && Repr == old(Repr) && slices == old(slices)
      ensures Model() == ShardStep(hash, old(Model()), Op.Purge)
    {
      hide KLfuCache.Valid, KLfuCache.Model, Step;
      for n := 0 to |slices|
        invariant SlicesApart() && slices == old(slices) && Repr == old(Repr)
        invariant forall i :: 0 <= i < |slices| ==> slices[i].Valid()
        invariant forall i :: 0 <= i < |slices| ==>
                    slices[i].Model() == if i < n then Step(old(slices[i].Model()), Op.Purge) else old(slices[i].Model())
      {
        slices[n].Purge();
      }
    }
  }
}
