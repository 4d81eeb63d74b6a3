/** A message list together with a map from each id in it to its node. */
module ListIndex {
  import opened MsgLists

  ghost predicate Distinct(ids: seq<nat>) {
    forall i, j :: 0 <= i < j < |ids| ==> ids[i] != ids[j]
  }

  function Minus(ids: seq<nat>, id: nat): seq<nat> {
    if ids == [] then []
    else if ids[0] == id then ids[1..]
    else [ids[0]] + Minus(ids[1..], id)
  }

  lemma DistinctSnoc(ids: seq<nat>, id: nat)
    requires Distinct(ids)
    ensures Distinct(ids + [id]) <==> id !in ids
  {
    var more := ids + [id];
    if id in ids {
      var i :| 0 <= i < |ids| && ids[i] == id;
      assert more[i] == more[|ids|];
    }
  }

  lemma Rotate(ids: seq<nat>)
    requires ids != [] && Distinct(ids)
    ensures Distinct(ids[1..] + [ids[0]]) && forall id :: id in ids[1..] + [ids[0]] <==> id in ids
  {
    assert ids == [ids[0]] + ids[1..];
    DistinctSnoc(ids[1..], ids[0]);
  }

  lemma TailDistinct(ids: seq<nat>)
    requires ids != [] && Distinct(ids)
    ensures Distinct(ids[1..]) && ids[0] !in ids[1..]
  {
  }

  lemma {:induction false} MinusIs(ids: seq<nat>, id: nat, k: nat)
    requires k < |ids| && ids[k] == id && forall j :: 0 <= j < k ==> ids[j] != id
    ensures Minus(ids, id) == ids[..k] + ids[k + 1..]
  {
    if k > 0 {
      MinusIs(ids[1..], id, k - 1);
      assert [ids[0]] + ids[1..][..k - 1] == ids[..k];
    }
  }

  lemma {:induction false} MinusOnce(ids: seq<nat>, id: nat, k: nat)
    requires Distinct(ids) && k < |ids| && ids[k] == id
    ensures Minus(ids, id) == ids[..k] + ids[k + 1..] && Distinct(Minus(ids, id))
    ensures forall x :: x in Minus(ids, id) <==> x in ids && x != id
  {
    MinusIs(ids, id, k);
    assert ids == ids[..k] + [id] + ids[k + 1..];
  }

  ghost function Ids(nodes: seq<MsgNode>): (ids: seq<nat>)
    ensures |ids| == |nodes| && forall i :: 0 <= i < |nodes| ==> ids[i] == nodes[i].id
  {
    seq(|nodes|, i requires 0 <= i < |nodes| => nodes[i].id)
  }

  /** nodeMap leads from each id of the list to its node, and from no other id. */
  ghost predicate Mapped(nodes: seq<MsgNode>, nodeMap: map<nat, MsgNode>) {
    && (forall i {:trigger nodes[i]} :: 0 <= i < |nodes| ==> nodes[i].id in nodeMap && nodeMap[nodes[i].id] == nodes[i])
    && (forall id {:trigger nodeMap[id]} :: id in nodeMap ==> nodeMap[id] in nodes && nodeMap[id].id == id)
  }

  ghost predicate NoRepeat(nodes: seq<MsgNode>) {
    forall i, j :: 0 <= i < j < |nodes| ==> nodes[i] != nodes[j]
  }

  lemma MappedAgrees(nodes: seq<MsgNode>, nodeMap: map<nat, MsgNode>)
    requires Mapped(nodes, nodeMap) && NoRepeat(nodes)
    ensures Distinct(Ids(nodes)) && forall id :: id in Ids(nodes) <==> id in nodeMap
  {
    forall id | id in nodeMap
      ensures id in Ids(nodes)
    {
      var i :| 0 <= i < |nodes| && nodes[i] == nodeMap[id];
      assert Ids(nodes)[i] == id;
    }
    forall i, j | 0 <= i < j < |nodes|
      ensures Ids(nodes)[i] != Ids(nodes)[j]
    {
      assert nodes[i] != nodes[j];
    }
  }

  lemma NoneMapped()
    ensures Mapped([], map[]) && Ids([]) == []
  {
  }

  /** A node pushed under a new id is mapped; under an id that is mapped already, the older node no longer is. */
  lemma MappedPush(nodes: seq<MsgNode>, nodeMap: map<nat, MsgNode>, n: MsgNode)
    requires Mapped(nodes, nodeMap) && n !in nodes
    ensures Mapped(nodes + [n], nodeMap[n.id := n]) <==> n.id !in nodeMap
    ensures Ids(nodes + [n]) == Ids(nodes) + [n.id]
  {
    assert (nodes + [n])[|nodes|] == n;
    assert forall m :: m in nodes ==> m in nodes + [n];
    if n.id in nodeMap {
      var i :| 0 <= i < |nodes| && nodes[i] == nodeMap[n.id];
      assert (nodes + [n])[i] == nodes[i];
    }
  }

  lemma MappedTurn(nodes: seq<MsgNode>, nodeMap: map<nat, MsgNode>)
    requires nodes != [] && Mapped(nodes, nodeMap)
    ensures var turned := nodes[1..] + [nodes[0]];
            Mapped(turned, nodeMap) && Ids(turned) == Ids(nodes)[1..] + [nodes[0].id]
  {
    var turned := nodes[1..] + [nodes[0]];
    assert nodes == [nodes[0]] + nodes[1..];
    assert forall m :: m in nodes <==> m in turned;
  }

  lemma MappedRemove(nodes: seq<MsgNode>, nodeMap: map<nat, MsgNode>, k: nat)
    requires k < |nodes| && Mapped(nodes, nodeMap) && NoRepeat(nodes)
    ensures Mapped(nodes[..k] + nodes[k + 1..], nodeMap - {nodes[k].id})
  {
    var rest, less := nodes[..k] + nodes[k + 1..], nodeMap - {nodes[k].id};
    forall i | 0 <= i < |rest|
      ensures rest[i].id in less && less[rest[i].id] == rest[i]
    {
      var j := if i < k then i else i + 1;
      assert rest[i] == nodes[j] && nodes[if j < k then j else k] != nodes[if j < k then k else j];
    }
    forall id | id in less
      ensures less[id] in rest && less[id].id == id
    {
      var i :| 0 <= i < |nodes| && nodes[i] == nodeMap[id];
      assert rest[if i < k then i else i - 1] == nodes[i];
    }
  }

  lemma MappedTail(nodes: seq<MsgNode>, nodeMap: map<nat, MsgNode>)
    requires nodes != [] && Mapped(nodes, nodeMap) && NoRepeat(nodes)
    ensures Mapped(nodes[1..], nodeMap - {nodes[0].id}) && Ids(nodes[1..]) == Ids(nodes)[1..]
  {
    hide Mapped, NoRepeat;
    MappedRemove(nodes, nodeMap, 0);
    assert nodes[..0] + nodes[1..] == nodes[1..];
    assert Ids(nodes[1..]) == Ids(nodes)[1..];
  }

  lemma HeadMapped(nodes: seq<MsgNode>, nodeMap: map<nat, MsgNode>)
    requires Mapped(nodes, nodeMap) && nodes != []
    ensures Ids(nodes) != [] && Ids(nodes)[0] == nodes[0].id && nodes[0].id in nodeMap
          && nodeMap[nodes[0].id] == nodes[0]
  {
  }

  lemma FindNode(nodes: seq<MsgNode>, nodeMap: map<nat, MsgNode>, id: nat) returns (k: nat)
    requires Mapped(nodes, nodeMap) && id in nodeMap
    ensures k < |nodes| && nodes[k] == nodeMap[id] && nodeMap[id].id == id
  {
    k :| k < |nodes| && nodes[k] == nodeMap[id];
  }

  lemma WithoutNode(nodes: seq<MsgNode>, nodeMap: map<nat, MsgNode>, k: nat)
    requires k < |nodes| && Mapped(nodes, nodeMap)
    requires forall i, j :: 0 <= i < j < |nodes| ==> nodes[i] != nodes[j]
    ensures Mapped(nodes[..k] + nodes[k + 1..], nodeMap - {nodes[k].id})
    ensures Ids(nodes[..k] + nodes[k + 1..]) == Minus(Ids(nodes), nodes[k].id)
  {
    assert NoRepeat(nodes);
    MappedRemove(nodes, nodeMap, k);
    IdsRemove(nodes, nodeMap, k);
  }

  lemma IdsRemove(nodes: seq<MsgNode>, nodeMap: map<nat, MsgNode>, k: nat)
    requires k < |nodes| && Mapped(nodes, nodeMap) && NoRepeat(nodes)
    ensures Ids(nodes[..k] + nodes[k + 1..]) == Minus(Ids(nodes), nodes[k].id)
  {
    hide Mapped, NoRepeat, Minus;
    MappedAgrees(nodes, nodeMap);
    MinusOnce(Ids(nodes), nodes[k].id, k);
    assert Ids(nodes[..k] + nodes[k + 1..]) == Ids(nodes)[..k] + Ids(nodes)[k + 1..];
  }

  /** Take the head off and push it again. */
  method TurnHead(list: MsgList, n: MsgNode)
    requires list.Valid() && list.nodes != [] && list.nodes[0] == n
    modifies list, list.Repr()
    ensures list.Valid() && list.nodes == old(list.nodes)[1..] + [n] && list.Repr() == old(list.Repr())
  {
    var polled, _ := list.Poll();
    list.Push(polled);
  }
}
