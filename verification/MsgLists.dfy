/** A doubly linked list between two sentinels. */
module MsgLists {

  class MsgNode {
    const id: nat
    var prev: MsgNode?
    var next: MsgNode?

    constructor (id: nat)
      ensures this.id == id
    {
      this.id := id;
      prev, next := null, null;
    }
  }

  class MsgList {
    const head: MsgNode
    const tail: MsgNode
    ghost var nodes: seq<MsgNode>

    /** The nodes with both sentinels. */
    ghost function All(): seq<MsgNode>
      reads this
    {
      [head] + nodes + [tail]
    }

    ghost function Repr(): set<MsgNode>
      reads this
    {
      set n | n in All()
    }

    /** next and prev are inverse along the list, and no node occurs twice. */
    ghost predicate Valid()
      reads this, Repr()
    {
      && (forall i, j :: 0 <= i < j < |All()| ==> All()[i] != All()[j])
      && (forall i {:trigger Linked(i)} :: 0 <= i < |All()| - 1 ==> Linked(i))
    }

    ghost predicate Linked(i: nat)
      requires i < |All()| - 1
      reads this, Repr()
    {
      All()[i].next == All()[i + 1] && All()[i + 1].prev == All()[i]
    }

    /** The node reached from the head by k steps forward. */
    ghost function Forward(k: nat): (n: MsgNode)
      requires Valid() && k < |All()|
      reads this, Repr()
      ensures n == All()[k]
    {
      if k == 0 then head
      else
        assert Linked(k - 1);
        Forward(k - 1).next
    }

    /** And from the tail by k steps back. */
    ghost function Backward(k: nat): (n: MsgNode)
      requires Valid() && k < |All()|
      reads this, Repr()
      ensures n == All()[|All()| - 1 - k]
    {
      if k == 0 then tail
      else
        assert Linked(|All()| - 1 - k);
        Backward(k - 1).prev
    }

    /** Only the two sentinels, linked to each other. */
    ghost predicate Empty()
      reads this, head, tail
    {
      nodes == [] && head != tail && head.next == tail && tail.prev == head
    }

    lemma EmptyValid()
      requires Empty()
      ensures Valid()
    {
      assert All() == [head, tail];
      assert Linked(0);
    }

    lemma NodesDistinct()
      requires Valid()
      ensures forall i, j :: 0 <= i < j < |nodes| ==> nodes[i] != nodes[j]
    {
      forall i, j | 0 <= i < j < |nodes|
        ensures nodes[i] != nodes[j]
      {
        assert All()[i + 1] != All()[j + 1];
      }
    }

    constructor ()
      ensures Valid() && Empty() && fresh(head) && fresh(tail)
    {
      var h := new MsgNode(0);
      var t := new MsgNode(0);
      h.next := t;
      t.prev := h;
      head, tail, nodes := h, t, [];
    }

    method Push(n: MsgNode)
      requires Valid() && n !in All()
      modifies this`nodes, n, Repr()
      ensures Valid() && nodes == old(nodes) + [n]
      ensures Repr() == old(Repr()) + {n}
    {
      ghost var k := |nodes|;
      assert Linked(k);
      tail.prev.next := n;
      n.prev := tail.prev;
      n.next := tail;
      tail.prev := n;
      nodes := nodes + [n];
      ghost var was := old(All());
      assert forall i :: 0 <= i < |All()| ==> All()[i] == if i <= k then was[i] else if i == k + 1 then n else tail;
      assert was[k + 1] == tail;
      forall i | 0 <= i < |All()| - 1
        ensures Linked(i)
      {
        if i < k {
          assert old(Linked(i));
        }
      }
    }

    method Poll() returns (n: MsgNode?, ok: bool)
      requires Valid()
      modifies this`nodes, Repr()
      ensures Valid() && (ok <==> old(nodes) != [])
      ensures ok ==> n == old(nodes)[0] && nodes == old(nodes)[1..] && n !in All() && Repr() == old(Repr()) - {n}
      ensures !ok ==> n == null && nodes == old(nodes)
    {
      assert Linked(0) && All()[|nodes| + 1] == tail;
      ghost var was := All();
      if head.next == tail {
        return null, false;
      }
      n := head.next;
      assert Linked(1) && n == nodes[0];
      head.next := n.next;
      n.next.prev := head;
      nodes := nodes[1..];
      ok := true;
      assert forall i :: 0 <= i < |All()| ==> All()[i] == if i == 0 then head else was[i + 1];
      assert n == was[1];
      assert was == [head, n] + nodes + [tail];
      forall i | 0 <= i < |All()| - 1
        ensures Linked(i)
      {
        if i > 0 {
          assert old(Linked(i + 1));
        }
      }
    }

    method Remove(n: MsgNode, ghost k: nat)
      requires Valid() && k < |nodes| && nodes[k] == n
      modifies this`nodes, Repr()
      ensures Valid() && nodes == old(nodes)[..k] + old(nodes)[k + 1..]
    {
      assert Linked(k) && Linked(k + 1) && All()[k + 1] == n;
      ghost var was, rest := All(), nodes[..k] + nodes[k + 1..];
      ghost var after := [head] + rest + [tail];
      Without(was, after, k + 1);
      var prev, next := n.prev, n.next;
      prev.next := next;
      next.prev := prev;
      nodes := rest;
      assert All() == after;
      forall i | 0 <= i < |All()| - 1
        ensures Linked(i)
      {
        if i < k {
          assert old(Linked(i));
        } else if i > k {
          assert old(Linked(i + 1));
        }
      }
    }

    method GetFirst() returns (n: MsgNode?, ok: bool)
      requires Valid()
      ensures (ok <==> nodes != []) && n == if ok then nodes[0] else null
    {
      assert Linked(0) && All()[|nodes| + 1] == tail;
      if head.next == tail {
        return null, false;
      }
      return head.next, true;
    }
  }

  /** Leaving out one place keeps the rest distinct. */
  lemma Without<T>(was: seq<T>, after: seq<T>, k: nat)
    requires k < |was| == |after| + 1 && forall i, j :: 0 <= i < j < |was| ==> was[i] != was[j]
    requires forall i {:trigger after[i]} :: 0 <= i < |after| ==> after[i] == if i < k then was[i] else was[i + 1]
    ensures forall i, j :: 0 <= i < j < |after| ==> after[i] != after[j]
  {
    forall i, j | 0 <= i < j < |after|
      ensures after[i] != after[j]
    {
      assert was[if i < k then i else i + 1] != was[if j < k then j else j + 1];
    }
  }
}
