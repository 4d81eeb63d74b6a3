/** Rumors to send again until they are acknowledged: a list of packet ids, with two maps by id beside it. */
module RumorQueue {
  import opened Common
  import opened ListIndex
  import opened MsgLists

  datatype Info = Info(dest: nat, sendTime: int, rumor: string)

  /** What the queue holds: ids in list order, and their infos. */
  datatype Queue = Queue(ids: seq<nat>, infos: map<nat, Info>, timeout: int)

  /** A rumor to send now: where to, what, and under which packet id. */
  datatype Resend = Resend(dest: nat, rumor: string, id: nat)

  function Push(q: Queue, id: nat, dest: nat, rumor: string, now: int): Queue {
    q.(ids := q.ids + [id], infos := q.infos[id := Info(dest, now, rumor)])
  }

  /** Only the head is looked at. If it is due it goes to the end, even when there is no neighbor to send to. */
  function Get(q: Queue, now: int, again: int, tree: bool, neighbor: Option<nat>): (Queue, Option<Resend>)
    requires q.ids != [] ==> q.ids[0] in q.infos
  {
    if q.ids == [] then (q, None)
    else
      var id := q.ids[0];
      var info := q.infos[id];
      if now - info.sendTime < q.timeout then (q, None)
      else
        var turned := info.(sendTime := again);
        var ids := q.ids[1..] + [id];
        if tree then (q.(ids := ids, infos := q.infos[id := turned]), Some(Resend(info.dest, info.rumor, id)))
        else if neighbor.None? then (q.(ids := ids, infos := q.infos[id := turned]), None)
        else
          (q.(ids := ids, infos := q.infos[id := turned.(dest := neighbor.value)]),
           Some(Resend(neighbor.value, info.rumor, id)))
  }

  function Remove(q: Queue, id: nat): Queue {
    if id !in q.infos then q else q.(ids := Minus(q.ids, id), infos := q.infos - {id})
  }

  // ----- the list and the maps agree, and the list is in order of sending

  ghost predicate SameIds(ids: seq<nat>, infos: map<nat, Info>) {
    forall id :: id in ids <==> id in infos
  }

  ghost predicate Agree(q: Queue) {
    Distinct(q.ids) && SameIds(q.ids, q.infos)
  }

  ghost predicate Sorted(q: Queue)
    requires Agree(q)
  {
    forall i, j {:trigger SentAt(q, i), SentAt(q, j)} :: 0 <= i < j < |q.ids| ==> SentAt(q, i) <= SentAt(q, j)
  }

  function SentAt(q: Queue, i: nat): int
    requires i < |q.ids|
  {
    if q.ids[i] in q.infos then q.infos[q.ids[i]].sendTime else 0
  }

  ghost predicate Until(q: Queue, now: int) {
    forall i {:trigger SentAt(q, i)} :: 0 <= i < |q.ids| ==> SentAt(q, i) <= now
  }

  ghost predicate Good(q: Queue, now: int) {
    Agree(q) && Sorted(q) && Until(q, now)
  }

  ghost predicate Due(q: Queue, i: nat, now: int) {
    i < |q.ids| && now - SentAt(q, i) >= q.timeout
  }

  /** Looking at the head alone finds a due rumor exactly when there is one, and the one longest waiting: it goes last,
      as sent now, and is returned to its destination with trees, and without them to the new neighbor, which becomes
      its destination, unless there is none. */
  lemma {:induction false} HeadIsEnough(q: Queue, last: int, now: int, again: int, tree: bool, neighbor: Option<nat>)
    requires Good(q, last)
    ensures q.ids != [] ==> q.ids[0] in q.infos
    ensures var (q', resend) := Get(q, now, again, tree, neighbor);
            && (resend.Some? <==> (tree || neighbor.Some?) && exists i :: Due(q, i, now))
            && ((forall i :: !Due(q, i, now)) ==> q' == q)
            && forall i :: Due(q, i, now) ==>
                 var id := q.ids[0];
                 var head := q.infos[id];
                 var dest := if tree || neighbor.None? then head.dest else neighbor.value;
                 && SentAt(q, 0) <= SentAt(q, i)
                 && (resend.Some? ==> resend.value == Resend(dest, head.rumor, id))
                 && q'.ids == q.ids[1..] + [id] && q'.infos == q.infos[id := Info(dest, again, head.rumor)]
  {
    if q.ids != [] {
      assert q.ids[0] in q.ids;
      assert now - SentAt(q, 0) >= q.timeout ==> Due(q, 0, now);
    }
    forall i | Due(q, i, now)
      ensures SentAt(q, 0) <= SentAt(q, i)
    {
      assert i == 0 || SentAt(q, 0) <= SentAt(q, i);
    }
  }

  /** A push keeps list and maps in agreement exactly when its id is new. */
  lemma {:induction false} PushKeepsIff(q: Queue, id: nat, dest: nat, rumor: string, now: int)
    requires Good(q, now)
    ensures Agree(Push(q, id, dest, rumor, now)) <==> id !in q.infos
    ensures id !in q.infos ==> Good(Push(q, id, dest, rumor, now), now)
  {
    var q' := Push(q, id, dest, rumor, now);
    DistinctSnoc(q.ids, id);
    assert id in q.ids <==> id in q.infos;
    if id !in q.infos {
      forall i | 0 <= i < |q'.ids|
        ensures SentAt(q', i) == if i == |q.ids| then now else SentAt(q, i)
      {
        assert i < |q.ids| ==> q.ids[i] in q.ids;
      }
    }
  }

  /** With an id pushed twice and then removed, the list still names it but the maps do not. */
  lemma TwiceThenRemoved(id: nat, dest: nat, rumor: string, now: int)
    ensures var q := Push(Push(Queue([], map[], 0), id, dest, rumor, now), id, dest, rumor, now);
            Remove(q, id).ids == [id] && id !in Remove(q, id).infos
  {
  }

  lemma GoodLater(q: Queue, now: int, later: int)
    requires Good(q, now) && now <= later
    ensures Good(q, later)
  {
  }

  /** The head sent again and put last. */
  lemma {:induction false} TurnKeeps(q: Queue, last: int, again: int, info: Info)
    requires Good(q, last) && last <= again && q.ids != [] && info.sendTime == again
    ensures var q' := q.(ids := q.ids[1..] + [q.ids[0]], infos := q.infos[q.ids[0] := info]);
            Good(q', again) && q'.infos.Keys == q.infos.Keys
  {
    var q' := q.(ids := q.ids[1..] + [q.ids[0]], infos := q.infos[q.ids[0] := info]);
    Rotate(q.ids);
    assert q.ids[0] in q.ids;
    forall i | 0 <= i < |q'.ids|
      ensures SentAt(q', i) == if i == |q.ids| - 1 then again else SentAt(q, i + 1)
    {
      assert i < |q.ids| - 1 ==> q'.ids[i] == q.ids[i + 1] != q.ids[0];
    }
  }

  lemma {:induction false} GetKeeps(q: Queue, last: int, now: int, again: int, tree: bool, neighbor: Option<nat>)
    requires Good(q, last) && last <= now <= again
    ensures q.ids != [] ==> q.ids[0] in q.infos
    ensures Good(Get(q, now, again, tree, neighbor).0, again)
    ensures Get(q, now, again, tree, neighbor).0.infos.Keys == q.infos.Keys
  {
    hide Sorted, Until, Distinct;
    GoodLater(q, last, again);
    if q.ids != [] {
      assert q.ids[0] in q.ids;
      var info := q.infos[q.ids[0]];
      TurnKeeps(q, last, again, info.(sendTime := again));
      if neighbor.Some? {
        TurnKeeps(q, last, again, info.(sendTime := again, dest := neighbor.value));
      }
    }
  }

  lemma {:induction false} RemoveKeeps(q: Queue, last: int, id: nat)
    requires Good(q, last)
    ensures Good(Remove(q, id), last) && Remove(q, id).infos.Keys == q.infos.Keys - {id}
  {
    if id in q.infos {
      assert id in q.ids;
      var k :| 0 <= k < |q.ids| && q.ids[k] == id;
      MinusOnce(q.ids, id, k);
      RemovedAt(q, last, id, k, Remove(q, id));
    }
  }

  lemma {:induction false} RemovedAt(q: Queue, last: int, id: nat, k: nat, q': Queue)
    requires Good(q, last) && k < |q.ids| && q.ids[k] == id
    requires q'.ids == q.ids[..k] + q.ids[k + 1..] && Distinct(q'.ids) && q'.infos == q.infos - {id}
    requires forall x :: x in q'.ids <==> x in q.ids && x != id
    ensures Good(q', last)
  {
    hide Distinct;
    forall i | 0 <= i < |q'.ids|
      ensures SentAt(q', i) == SentAt(q, if i < k then i else i + 1)
    {
      assert q'.ids[i] in q'.ids;
      assert q'.ids[i] == q.ids[if i < k then i else i + 1];
    }
  }

  /** Everything that happens to the queue, with the clock readings of each call. */
  datatype Call =
    | Pushed(id: nat, dest: nat, rumor: string, now: int)
    | Got(now: int, again: int, tree: bool, neighbor: Option<nat>)
    | Removed(id: nat)

  /** The queue after some calls; defined as long as the head is in the map. */
  function Calls(timeout: int, cs: seq<Call>): Option<Queue> {
    if cs == [] then Some(Queue([], map[], timeout))
    else
      var q := Calls(timeout, cs[..|cs| - 1]);
      if q.None? then None
      else
        match cs[|cs| - 1]
        case Pushed(id, dest, rumor, now) => Some(Push(q.value, id, dest, rumor, now))
        case Got(now, again, tree, neighbor) =>
          if q.value.ids != [] && q.value.ids[0] !in q.value.infos then None
          else Some(Get(q.value, now, again, tree, neighbor).0)
        case Removed(id) => Some(Remove(q.value, id))
  }

  function IdsOf(cs: seq<Call>): set<nat> {
    if cs == [] then {}
    else IdsOf(cs[..|cs| - 1]) + if cs[|cs| - 1].Pushed? then {cs[|cs| - 1].id} else {}
  }

  /** New ids, and a clock that does not go back. */
  ghost predicate Orderly(cs: seq<Call>, clock: int) {
    if cs == [] then true
    else
      var before := cs[..|cs| - 1];
      match cs[|cs| - 1]
      case Pushed(id, _, _, now) => Orderly(before, now) && now <= clock && id !in IdsOf(before)
      case Got(now, again, _, _) => Orderly(before, now) && now <= again <= clock
      case Removed(_) => Orderly(before, clock)
  }

  lemma EmptyGood(timeout: int, clock: int)
    ensures Good(Queue([], map[], timeout), clock)
  {
  }

  /** Over any calls with new ids and a clock that does not go back, the list and the maps hold the same ids,
      each once, in order of sending; so no call ever misses the head in the map. */
  lemma {:induction false} CallsKeep(timeout: int, cs: seq<Call>, clock: int)
    requires Orderly(cs, clock)
    ensures Calls(timeout, cs).Some? && Good(Calls(timeout, cs).value, clock)
    ensures Calls(timeout, cs).value.infos.Keys <= IdsOf(cs)
  {
    hide Good, Remove, Get;
    if cs == [] {
      EmptyGood(timeout, clock);
    } else {
      var before := cs[..|cs| - 1];
      match cs[|cs| - 1]
      case Pushed(id, dest, rumor, now) =>
        CallsKeep(timeout, before, now);
        var q := Calls(timeout, before).value;
        PushKeepsIff(q, id, dest, rumor, now);
        GoodLater(Push(q, id, dest, rumor, now), now, clock);
      case Got(now, again, tree, neighbor) =>
        CallsKeep(timeout, before, now);
        var q := Calls(timeout, before).value;
        GetKeeps(q, now, now, again, tree, neighbor);
        GoodLater(Get(q, now, again, tree, neighbor).0, again, clock);
      case Removed(id) =>
        CallsKeep(timeout, before, clock);
        RemoveKeeps(Calls(timeout, before).value, clock, id);
    }
  }

  // ----- what is sent again

  /** Without trees, some turn since then sent it to this neighbor. */
  ghost predicate Redirected(cs: seq<Call>, j: nat, dest: nat) {
    exists k :: j < k < |cs| && cs[k].Got? && !cs[k].tree && cs[k].neighbor == Some(dest)
  }

  /** What a queue holds under an id. */
  ghost predicate Carries(q: Queue, cs: seq<Call>, j: nat, id: nat, dest: nat, rumor: string) {
    id in q.infos ==> q.infos[id].rumor == rumor && (q.infos[id].dest == dest || Redirected(cs, j, q.infos[id].dest))
  }

  lemma RedirectedLater(cs: seq<Call>, c: Call, j: nat, dest: nat)
    requires Redirected(cs, j, dest)
    ensures Redirected(cs + [c], j, dest)
  {
    var k :| j < k < |cs| && cs[k].Got? && !cs[k].tree && cs[k].neighbor == Some(dest);
    assert (cs + [c])[k] == cs[k];
  }

  lemma TurnCarries(q: Queue, cs: seq<Call>, j: nat, id: nat, dest: nat, rumor: string, c: Call)
    requires j < |cs| && Carries(q, cs, j, id, dest, rumor) && c.Got? && (q.ids != [] ==> q.ids[0] in q.infos)
    ensures Carries(Get(q, c.now, c.again, c.tree, c.neighbor).0, cs + [c], j, id, dest, rumor)
  {
    var q' := Get(q, c.now, c.again, c.tree, c.neighbor).0;
    if id in q'.infos {
      if Redirected(cs, j, q.infos[id].dest) {
        RedirectedLater(cs, c, j, q.infos[id].dest);
      }
      assert (cs + [c])[|cs|] == c;
    }
  }

  lemma OtherCarries(q: Queue, q': Queue, cs: seq<Call>, j: nat, id: nat, dest: nat, rumor: string, c: Call)
    requires Carries(q, cs, j, id, dest, rumor) && (id in q'.infos ==> id in q.infos && q'.infos[id] == q.infos[id])
    ensures Carries(q', cs + [c], j, id, dest, rumor)
  {
    if id in q'.infos && Redirected(cs, j, q.infos[id].dest) {
      RedirectedLater(cs, c, j, q.infos[id].dest);
    }
  }

  lemma {:induction false} PushedIds(cs: seq<Call>, j: nat)
    requires j < |cs| && cs[j].Pushed?
    ensures cs[j].id in IdsOf(cs)
  {
    if j < |cs| - 1 {
      PushedIds(cs[..|cs| - 1], j);
    }
  }

  /** However the calls come, a rumor that still waits is the one pushed under its id, for the destination it was pushed
      with; only a turn without trees gives it another, the neighbor of that turn. */
  lemma {:induction false} WaitingIsPushed(timeout: int, cs: seq<Call>, clock: int, j: nat)
    requires Orderly(cs, clock) && j < |cs| && cs[j].Pushed?
    ensures Calls(timeout, cs).Some?
    ensures var q, c := Calls(timeout, cs).value, cs[j];
            c.id in q.infos ==>
              && q.infos[c.id].rumor == c.rumor
              && (q.infos[c.id].dest == c.dest || Redirected(cs, j, q.infos[c.id].dest))
  {
    hide Get, Remove, Push, Good;
    CallsKeep(timeout, cs, clock);
    var before, c := cs[..|cs| - 1], cs[|cs| - 1];
    assert cs == before + [c];
    var clock' := if c.Removed? then clock else c.now;
    CallsKeep(timeout, before, clock');
    var q, q' := Calls(timeout, before).value, Calls(timeout, cs).value;
    var id, dest, rumor := cs[j].id, cs[j].dest, cs[j].rumor;
    if j == |cs| - 1 {
      PushIs(q, id, dest, rumor, c.now);
    } else {
      WaitingIsPushed(timeout, before, clock', j);
      assert Carries(q, before, j, id, dest, rumor);
      match c {
        case Pushed(other, dest', rumor', now) =>
          PushedIds(before, j);
          PushIs(q, other, dest', rumor', now);
          OtherCarries(q, q', before, j, id, dest, rumor, c);
        case Got(_, _, _, _) => TurnCarries(q, before, j, id, dest, rumor, c);
        case Removed(other) =>
          RemoveIs(q, other);
          OtherCarries(q, q', before, j, id, dest, rumor, c);
      }
      assert Carries(q', cs, j, id, dest, rumor);
    }
  }

  lemma PushIs(q: Queue, id: nat, dest: nat, rumor: string, now: int)
    ensures Push(q, id, dest, rumor, now).infos == q.infos[id := Info(dest, now, rumor)]
  {
  }

  lemma RemoveIs(q: Queue, id: nat)
    ensures Remove(q, id).infos == q.infos - {id}
  {
  }

  // ----- the queue in place

  class SafeRumorsQueue {
    const list: MsgList
    var nodeMap: map<nat, MsgNode>
    var infoMap: map<nat, Info>
    const timeout: int

    ghost function View(): Queue
      reads this, list
    {
      Queue(Ids(list.nodes), infoMap, timeout)
    }

    ghost predicate Valid()
      reads this, list, list.Repr()
    {
      list.Valid() && Mapped(list.nodes, nodeMap) && nodeMap.Keys == infoMap.Keys
    }

    constructor (timeout: int)
      ensures Valid() && View() == Queue([], map[], timeout)
      ensures fresh(list) && fresh(list.Repr())
    {
      this.timeout := timeout;
      list := new MsgList();
      nodeMap, infoMap := map[], map[];
      new;
      list.EmptyValid();
      NoneMapped();
    }

    /** The list's ids and both maps' keys are the same, without repetition. */
    lemma ValidAgrees()
      requires Valid()
      ensures Agree(View()) && nodeMap.Keys == infoMap.Keys
    {
      list.NodesDistinct();
      MappedAgrees(list.nodes, nodeMap);
    }

    method PushRumor(rumor: string, dest: nat, id: nat, now: int)
      requires Valid()
      modifies this`nodeMap, this`infoMap, list, list.Repr()
      ensures View() == Push(old(View()), id, dest, rumor, now)
      ensures list.Valid() && (Valid() <==> id !in old(nodeMap))
      ensures fresh(list.Repr() - old(list.Repr()))
    {
      hide Mapped, Ids;
      var n := new MsgNode(id);
      MappedPush(list.nodes, nodeMap, n);
      nodeMap := nodeMap[id := n];
      infoMap := infoMap[id := Info(dest, now, rumor)];
      list.Push(n);
    }

    method GetRumor(now: int, again: int, tree: bool, neighbor: Option<nat>) returns (resend: Option<Resend>)
      requires Valid()
      modifies this`infoMap, list, list.Repr()
      ensures old(View()).ids != [] ==> old(View()).ids[0] in old(View()).infos
      ensures Valid() && (View(), resend) == Get(old(View()), now, again, tree, neighbor)
    {
      hide Mapped, Ids;
      var msgNode, ok := list.GetFirst();
      if !ok {
        assert Ids(list.nodes) == [];
        return None;
      }
      var id := msgNode.id;
      HeadMapped(list.nodes, nodeMap);
      var info := infoMap[id];
      if now - info.sendTime >= timeout {
        var turned := info.(sendTime := again);
        resend := None;
        if tree {
          resend := Some(Resend(info.dest, info.rumor, id));
        } else if neighbor.Some? {
          turned := turned.(dest := neighbor.value);
          resend := Some(Resend(neighbor.value, info.rumor, id));
        }
        infoMap := infoMap[id := turned];
        MappedTurn(list.nodes, nodeMap);
        TurnHead(list, msgNode);
        return;
      }
      return None;
    }

    method RemoveId(id: nat)
      requires Valid()
      modifies this`nodeMap, this`infoMap, list, list.Repr()
      ensures Valid() && View() == Remove(old(View()), id)
    {
      hide Mapped, NoRepeat, Minus, Ids;
      if id !in nodeMap {
        return;
      }
      ghost var q, nodes := View(), list.nodes;
      var n := nodeMap[id];
      ghost var k := FindNode(nodes, nodeMap, id);
      list.NodesDistinct();
      WithoutNode(nodes, nodeMap, k);
      nodeMap := nodeMap - {id};
      infoMap := infoMap - {id};
      list.Remove(n, k);
      assert Mapped(list.nodes, nodeMap);
      assert View() == Remove(q, id);
    }
  }
}
