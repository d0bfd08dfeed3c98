/** The doubly linked list of one frequency, between two sentinel nodes. */
module FreqLists {
  import opened LfuSpec

  class Node {
    var freq: int
    const key: Key
    var value: Value
    var pre: Node?
    var next: Node?
    ghost var home: FreqList?  // the list the node is linked into, if any

    constructor (key: Key, value: Value)
      ensures this.key == key && this.value == value && freq == 1
      ensures pre == null && next == null && home == null
    {
      this.key, this.value, freq := key, value, 1;
      pre, next := null, null;
      home := null;
    }
  }

  // s without its j-th element.
  ghost function Without<T>(s: seq<T>, j: nat): (r: seq<T>)
    requires j < |s|
    ensures |r| == |s| - 1
    ensures forall i :: 0 <= i < j ==> r[i] == s[i]
    ensures forall i :: j <= i < |r| ==> r[i] == s[i + 1]
  {
    s[..j] + s[j + 1..]
  }

  // s with x put in before its last element.
  ghost function BeforeLast<T>(s: seq<T>, x: T): (r: seq<T>)
    requires s != []
    ensures |r| == |s| + 1
    ensures forall i :: 0 <= i < |s| - 1 ==> r[i] == s[i]
    ensures r[|s| - 1] == x && r[|s|] == s[|s| - 1]
  {
    s[..|s| - 1] + [x, s[|s| - 1]]
  }

  class FreqList {
    const freq: int
    const head: Node
    const tail: Node
    ghost var chain: seq<Node>    // the sentinels and, between them, the nodes in list order

    ghost predicate AtHome()
      reads this`chain, chain`home
    {
      forall i :: 0 <= i < |chain| ==> chain[i].home == this
    }

    ghost predicate Linked()
      reads this`chain, chain`home, chain`pre, chain`next
    {
      && |chain| >= 2 && chain[0] == head && chain[|chain| - 1] == tail
      && AtHome()
      && (forall i, j :: 0 <= i < j < |chain| ==> chain[i] != chain[j])
      && (forall i {:trigger chain[i].next} :: 0 <= i < |chain| - 1 ==> chain[i].next == chain[i + 1])
      && (forall i {:trigger chain[i].pre} :: 0 < i < |chain| ==> chain[i].pre == chain[i - 1])
    }

    // What a caller finds who takes the tail sentinel for a node.
    ghost predicate SentinelOk()
      reads tail`next, tail`freq, tail`home
    {
      tail.next == null && tail.freq == 1 && tail.key == "" && tail.home == this
    }

    lemma Inner(k: nat)
      requires Linked() && 0 < k < |chain| - 1
      ensures chain[k].pre != null && chain[k].next != null
    {
      assert chain[k].next == chain[k + 1] && chain[k].pre == chain[k - 1];
    }

    constructor (n: int)
      ensures freq == n && Linked() && AtHome() && SentinelOk() && |chain| == 2 && fresh(chain)
    {
      freq := n;
      var h := new Node("", "");
      var t := new Node("", "");
      h.next := t;
      t.pre := h;
      head, tail := h, t;
      chain := [h, t];
      new;
      head.home, tail.home := this, this;
    }

    method IsEmpty() returns (empty: bool)
      requires Linked()
      ensures empty <==> |chain| == 2
    {
      empty := head.next == tail;
      assert chain[0].next == chain[1];
    }

    method AddNode(node: Node)
      requires Linked() && SentinelOk() && node.home == null
      modifies this`chain, node`pre, node`next, node`home, chain`pre, chain`next
      ensures Linked() && AtHome() && SentinelOk() && node.home == this
      ensures chain == BeforeLast(old(chain), node)
    {
      hide BeforeLast;
      ghost var n := |chain|;
      var last := tail.pre;
      assert chain[n - 2] == last && chain[n - 1] == tail;
      node.pre := last;
      node.next := tail;
      last.next := node;
      tail.pre := node;
      chain := BeforeLast(chain, node);
      node.home := this;
    }

    // k is the place of the node; a node without links is left alone.
    method RemoveNode(node: Node, ghost k: nat)
      requires Linked() && SentinelOk()
      requires node.pre == null || node.next == null || (0 < k < |chain| - 1 && chain[k] == node)
      modifies this`chain, node`home, node`pre, node`next, chain`pre, chain`next
      ensures old(node.pre) == null || old(node.next) == null ==> unchanged(this) && unchanged(node) && unchanged(old(chain))
      ensures old(node.pre) != null && old(node.next) != null ==>
                && Linked() && AtHome() && SentinelOk() && node.home == null && node.pre == null && node.next == null
                && chain == Without(old(chain), k)
    {
      hide Without;
      if node.pre == null || node.next == null {
        return;
      }
      assert chain[k].next == chain[k + 1] && chain[k - 1].next == node && chain[k + 1].pre == node;
      node.pre.next := node.next;
      node.next.pre := node.pre;
      node.pre := null;
      node.next := null;
      chain := Without(chain, k);
      node.home := null;
    }

    // The oldest node, or the tail sentinel of an empty list.
    method GetFirstNode() returns (n: Node)
      requires Linked()
      ensures n == chain[1] && (|chain| == 2 <==> n == tail)
    {
      assert chain[0].next == chain[1];
      n := head.next;
    }
  }
}
