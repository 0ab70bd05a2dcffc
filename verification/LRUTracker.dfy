/** Recency tracker: a hash index over the nodes of a doubly linked list, head = most recently
    used, tail = next eviction victim. The list refines a duplicate-free sequence of keys. */
module LRU {
  import opened Options
  import opened Sequences

  /** The recency order after a use of `k`. */
  function Touched(recency: seq<string>, k: string): (r: seq<string>)
    ensures forall x :: x in r <==> x in recency || x == k
  {
    [k] + Without(recency, k)
  }

  lemma {:induction false} TouchedNoDup(recency: seq<string>, k: string)
    requires NoDup(recency)
    ensures NoDup(Touched(recency, k))
    ensures |Touched(recency, k)| == |recency| + if k in recency then 0 else 1
  {
    WithoutNoDup(recency, k);
  }

  /** The eviction victim of a recency order. */
  function Last(recency: seq<string>): Option<string> {
    if recency == [] then None else Some(recency[|recency| - 1])
  }

  class Node {
    const key: string
    var prev: Node?
    var next: Node?

    constructor (key: string)
      ensures this.key == key && prev == null && next == null
    {
      this.key := key;
      prev, next := null, null;
    }
  }

  ghost function KeysOf(chain: seq<Node>): (r: seq<string>)
    ensures |r| == |chain|
    ensures forall i :: 0 <= i < |chain| ==> r[i] == chain[i].key
  {
    seq(|chain|, i requires 0 <= i < |chain| => chain[i].key)
  }

  /** Cutting one node out of a chain cuts its key out of the order. */
  lemma {:induction false} CutKeys(chain: seq<Node>, i: nat)
    requires NoDup(KeysOf(chain)) && i < |chain|
    ensures KeysOf(chain[..i] + chain[i + 1..]) == Without(KeysOf(chain), chain[i].key)
  {
    WithoutAt(KeysOf(chain), i);
  }

  /** Moving one node to the front of a chain moves its key to the front of the order. */
  lemma {:induction false} PromoteKeys(chain: seq<Node>, i: nat)
    requires NoDup(KeysOf(chain)) && i < |chain|
    ensures KeysOf([chain[i]] + (chain[..i] + chain[i + 1..])) == Touched(KeysOf(chain), chain[i].key)
    ensures i == 0 ==> KeysOf(chain) == Touched(KeysOf(chain), chain[i].key)
  {
    hide KeysOf, Without, NoDup;
    CutKeys(chain, i);
    KeysCons(chain[i], chain[..i] + chain[i + 1..]);
    if i == 0 {
      assert [chain[i]] + (chain[..i] + chain[i + 1..]) == chain;
    }
  }

  lemma {:induction false} KeysCons(node: Node, rest: seq<Node>)
    ensures KeysOf([node] + rest) == [node.key] + KeysOf(rest)
  {
  }

  /** `nodes` finds exactly the nodes of `chain`, by their keys. */
  ghost predicate Indexes(nodes: map<string, Node>, chain: seq<Node>) {
    && (forall n :: n in chain ==> n.key in nodes && nodes[n.key] == n)
    && (forall k :: k in nodes ==> nodes[k] in chain && nodes[k].key == k)
  }

  lemma {:induction false} IndexCut(nodes: map<string, Node>, chain: seq<Node>, i: nat)
    requires Indexes(nodes, chain) && NoDup(chain) && i < |chain|
    ensures Indexes(nodes - {chain[i].key}, chain[..i] + chain[i + 1..])
  {
  }

  lemma {:induction false} IndexInsert(nodes: map<string, Node>, chain: seq<Node>, node: Node)
    requires Indexes(nodes, chain) && node.key !in nodes
    ensures Indexes(nodes[node.key := node], [node] + chain)
    ensures node !in chain
  {
  }

  lemma {:induction false} IndexMoveToFront(nodes: map<string, Node>, chain: seq<Node>, i: nat)
    requires Indexes(nodes, chain) && i < |chain|
    ensures Indexes(nodes, [chain[i]] + (chain[..i] + chain[i + 1..]))
  {
  }

  class LRUTracker {
    var nodes: map<string, Node>
    var head: Node?
    var tail: Node?
    /** The nodes from head to tail. */
    ghost var chain: seq<Node>
    /** Every node this tracker ever allocated. */
    ghost var footprint: set<Node>

    /** `chain` is linked both ways from `head` to `tail`, and visits each node once. */
    ghost predicate Linked()
      reads `head, `tail, `chain, `footprint, footprint
    {
      && (forall i :: 0 <= i < |chain| ==> chain[i] in footprint)
      && (chain == [] ==> head == null && tail == null)
      && (chain != [] ==>
        && head == chain[0] && tail == chain[|chain| - 1]
        && chain[0].prev == null && chain[|chain| - 1].next == null)
      && (forall i {:trigger chain[i].prev} :: 1 <= i < |chain| ==> chain[i].prev == chain[i - 1])
      && (forall i {:trigger chain[i].next} :: 0 <= i < |chain| - 1 ==> chain[i].next == chain[i + 1])
      && NoDup(chain)
    }

    ghost predicate Valid()
      reads this, footprint
    {
      Linked() && Indexes(nodes, chain)
    }

    ghost function Recency(): seq<string>
      reads this
    {
      KeysOf(chain)
    }

    constructor ()
      ensures Valid() && Recency() == [] && footprint == {}
    {
      nodes, head, tail, chain, footprint := map[], null, null, [], {};
    }

    /** A valid tracker's order is duplicate-free and holds exactly the indexed keys. */
    lemma {:induction false} RecencyIndexed()
      requires Valid()
      ensures NoDup(Recency())
      ensures forall k :: k in Recency() <==> k in nodes
    {
    }

    /** Where an indexed key's node stands in the chain. */
    lemma {:induction false} Position(k: string) returns (i: nat)
      requires Valid() && k in nodes
      ensures i < |chain| && chain[i] == nodes[k] && nodes[k].key == k
    {
      i :| 0 <= i < |chain| && chain[i] == nodes[k];
    }

    /** Following the links from the head visits the chain. */
    lemma {:induction false} Follow(i: nat)
      requires Valid() && i <= |chain|
      ensures i < |chain| ==> Recency()[i] == chain[i].key
      ensures i < |chain| ==> chain[i].key in nodes && nodes[chain[i].key] == chain[i]
      ensures i < |chain| ==> chain[i].next == if i + 1 < |chain| then chain[i + 1] else null
      ensures head == if |chain| > 0 then chain[0] else null
      ensures |Recency()| == |chain|
    {
    }

    /** Linked nodes are owned, and the front one alone is the head. */
    lemma {:induction false} HeadFirst(i: nat)
      requires Linked() && i < |chain|
      ensures chain[i] in footprint && (chain[i] == head <==> i == 0)
    {
    }

    method Size() returns (n: nat)
      requires Valid()
      ensures n == |Recency()|
    {
      RecencyIndexed();
      NoDupSize(Recency(), nodes.Keys);
      n := |nodes|;
    }

    method Has(k: string) returns (b: bool)
      requires Valid()
      ensures b <==> k in Recency()
    {
      RecencyIndexed();
      b := k in nodes;
    }

    method Touch(k: string)
      requires Valid()
      modifies this, footprint
      ensures Valid() && fresh(footprint - old(footprint))
      ensures Recency() == Touched(old(Recency()), k)
    {
      hide Linked;
      hide Indexes;
      hide NoDup;
      hide KeysOf;
      RecencyIndexed();
      if k in nodes {
        var existing := nodes[k];
        ghost var i := Position(k);
        Promote(existing, i);
        return;
      }
      var node := new Node(k);
      IndexInsert(nodes, chain, node);
      nodes := nodes[k := node];
      PushFront(node);
    }

    method Delete(k: string) returns (found: bool)
      requires Valid()
      modifies this, footprint
      ensures Valid() && footprint == old(footprint)
      ensures Recency() == Without(old(Recency()), k)
      ensures found <==> k in old(Recency())
      ensures k in old(nodes) ==> old(nodes)[k].next == null
    {
      hide Linked;
      hide Indexes;
      hide NoDup;
      hide KeysOf;
      RecencyIndexed();
      if k !in nodes {
        return false;
      }
      var node := nodes[k];
      ghost var i := Position(k);
      RemoveNode(node, i);
      return true;
    }

    method PeekLRU() returns (k: Option<string>)
      requires Valid()
      ensures k == Last(Recency())
    {
      if tail == null {
        k := None;
      } else {
        k := Some(tail.key);
      }
    }

    method EvictLRU() returns (k: Option<string>)
      requires Valid()
      modifies this, footprint
      ensures Valid() && footprint == old(footprint)
      ensures k == Last(old(Recency()))
      ensures Recency() == if k.None? then [] else old(Recency())[..|old(Recency())| - 1]
    {
      RecencyIndexed();
      var victim := tail;
      if victim == null {
        return None;
      }
      ghost var i := |chain| - 1;
      WithoutAt(Recency(), i);
      RemoveNode(victim, i);
      return Some(victim.key);
    }

    method KeysMRU() returns (ks: seq<string>)
      requires Valid()
      ensures ks == Recency()
    {
      ks := [];
      var current := head;
      ghost var i := 0;
      while current != null
        invariant 0 <= i <= |chain|
        invariant ks == Recency()[..i]
        invariant if i < |chain| then current == chain[i] else current == null
        decreases |chain| - i
      {
        ks := ks + [current.key];
        current := current.next;
        i := i + 1;
      }
    }

    /** The part of `Touch` for a key that is tracked already. */
    method Promote(existing: Node, ghost i: nat)
      requires Valid()
      requires i < |chain| && chain[i] == existing
      modifies this, footprint
      ensures Valid() && footprint == old(footprint)
      ensures Recency() == Touched(old(Recency()), existing.key)
    {
      hide Linked;
      hide Indexes;
      hide NoDup;
      hide KeysOf;
      hide Without;
      RecencyIndexed();
      PromoteKeys(chain, i);
      IndexMoveToFront(nodes, chain, i);
      HeadFirst(i);
      if existing == head {
        return;
      }
      Unlink(existing, i);
      PushFront(existing);
    }

    /** The common part of `Delete` and `EvictLRU`: unlink a node and drop it from the index. */
    method RemoveNode(node: Node, ghost i: nat)
      requires Valid()
      requires i < |chain| && chain[i] == node
      modifies this, footprint
      ensures Valid() && footprint == old(footprint)
      ensures Recency() == Without(old(Recency()), node.key)
      ensures node.next == null
    {
      hide Linked;
      hide Indexes;
      hide NoDup;
      hide KeysOf;
      RecencyIndexed();
      CutKeys(chain, i);
      IndexCut(nodes, chain, i);
      Unlink(node, i);
      nodes := nodes - {node.key};
    }

    method PushFront(node: Node)
      requires Linked() && node !in chain
      modifies `head, `tail, `chain, `footprint, node, footprint
      ensures Linked() && chain == [node] + old(chain) && nodes == old(nodes)
      ensures footprint == old(footprint) + {node}
      ensures Recency() == [node.key] + old(Recency())
    {
      node.prev := null;
      node.next := head;
      if head != null {
        head.prev := node;
      }
      head := node;
      if tail == null {
        tail := node;
      }
      chain := [node] + chain;
      footprint := footprint + {node};
    }

    method Unlink(node: Node, ghost i: nat)
      requires Linked() && i < |chain| && chain[i] == node
      modifies `head, `tail, `chain, footprint
      ensures Linked() && chain == old(chain)[..i] + old(chain)[i + 1..]
      ensures nodes == old(nodes) && footprint == old(footprint)
      ensures node !in chain && node.next == null
    {
      var prev, next := node.prev, node.next;
      assert i > 0 ==> prev == chain[i - 1];
      assert i + 1 < |chain| ==> next == chain[i + 1];
      if prev != null {
        prev.next := next;
      } else {
        head := next;
      }
      if next != null {
        next.prev := prev;
      } else {
        tail := prev;
      }
      node.prev, node.next := null, null;
      chain := chain[..i] + chain[i + 1..];
    }
  }
}
