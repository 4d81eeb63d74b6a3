/** Acceptor, proposer and learner state of one peer, and the threshold clock that closes a step. */
module PaxosNode {
  import opened Common
  import opened Bytes
  import opened Chain

  datatype Msg =
    | Prepare(step: nat, id: nat, source: nat)
    | Promise(step: nat, id: nat, acceptedID: nat, acceptedValue: Option<PaxosValue>)
    | Propose(step: nat, id: nat, value: PaxosValue)
    | Accept(step: nat, id: nat, value: PaxosValue)

  datatype TLC = TLC(step: nat, block: Block)

  datatype Paxos = Paxos(
    clock: nat,
    maxID: nat,
    acceptedValue: PaxosValue,
    acceptedID: nat,
    promises: seq<Msg>,
    accepts: map<PaxosValue, nat>,
    tlcs: map<nat, seq<Block>>,
    consensus: map<nat, PaxosValue>,
    preparedFlag: map<nat, bool>,
    proposedValue: PaxosValue,
    acceptedMap: map<nat, PaxosValue>)

  const NEW_PAXOS := Paxos(0, 0, ZERO_VALUE, 0, [], map[], map[], map[], map[], ZERO_VALUE, map[])

  function Reset(p: Paxos, val: PaxosValue): Paxos {
    p.(maxID := 0, acceptedID := 0, acceptedValue := ZERO_VALUE, proposedValue := val, promises := [], accepts := map[])
  }

  /** A prepare of this step with a new highest id is promised; a zero value counts as none. */
  function OnPrepare(p: Paxos, m: Msg): (Paxos, Option<Msg>)
    requires m.Prepare?
  {
    if m.step != p.clock || m.id <= p.maxID then (p, None)
    else
      (p.(maxID := m.id),
       Some(Promise(m.step, m.id, p.acceptedID, if p.acceptedValue == ZERO_VALUE then None else Some(p.acceptedValue))))
  }

  /** A proposal is accepted only under exactly the highest id promised. */
  function OnPropose(p: Paxos, m: Msg): (Paxos, Option<Msg>)
    requires m.Propose?
  {
    if m.step != p.clock || m.id != p.maxID then (p, None)
    else (p.(acceptedValue := m.value, acceptedID := m.id), Some(Accept(m.step, m.id, m.value)))
  }

  /** Promises are counted as messages, under whatever id. */
  function OnPromise(p: Paxos, m: Msg, threshold: nat): Paxos
    requires m.Promise?
  {
    if m.step != p.clock then p
    else
      var promises := p.promises + [m];
      if (p.clock in p.preparedFlag && p.preparedFlag[p.clock]) || |promises| < threshold then p.(promises := promises)
      else p.(promises := promises, preparedFlag := p.preparedFlag[p.clock := true])
  }

  /** The value of the promise with the highest accepted id, the first such one, or the default. */
  function Best(promises: seq<Msg>, default: PaxosValue): (nat, PaxosValue)
    requires forall m :: m in promises ==> m.Promise?
  {
    if promises == [] then (0, default)
    else
      var last := promises[|promises| - 1];
      var (maxID, value) := Best(promises[..|promises| - 1], default);
      if last.acceptedValue.Some? && last.acceptedID > maxID then (last.acceptedID, last.acceptedValue.value)
      else (maxID, value)
  }

  /** The chosen promise is one of those received, and no other reports a higher accepted id. */
  lemma {:induction false} BestIsHighest(promises: seq<Msg>, default: PaxosValue)
    requires forall m :: m in promises ==> m.Promise?
    ensures var (maxID, value) := Best(promises, default);
            && (maxID == 0 ==> value == default)
            && (maxID > 0 ==> exists m :: m in promises && m.acceptedID == maxID && m.acceptedValue == Some(value))
            && (forall m :: m in promises && m.acceptedValue.Some? ==> m.acceptedID <= maxID)
  {
    if promises != [] {
      BestIsHighest(promises[..|promises| - 1], default);
    }
  }

  function PromiseValue(p: Paxos, step: nat): Option<PaxosValue>
    requires forall m :: m in p.promises ==> m.Promise?
  {
    if step !in p.preparedFlag || p.clock != step then None
    else Some(Best(p.promises, p.proposedValue).1)
  }

  /** Accepts are counted by value over all ids. */
  function OnAccept(p: Paxos, m: Msg, threshold: nat): (Paxos, Option<PaxosValue>)
    requires m.Accept?
  {
    if m.step != p.clock then (p, None)
    else if p.clock in p.acceptedMap then (p, Some(p.acceptedMap[p.clock]))
    else
      var count := (if m.value in p.accepts then p.accepts[m.value] else 0) + 1;
      var p' := p.(accepts := p.accepts[m.value := count]);
      if count < threshold then (p', None)
      else (p'.(acceptedMap := p.acceptedMap[p.clock := m.value]), Some(m.value))
  }

  function TlcsAt(tlcs: map<nat, seq<Block>>, step: nat): seq<Block> {
    if step in tlcs then tlcs[step] else []
  }

  function OnTLC(p: Paxos, m: TLC, threshold: nat): Paxos {
    if m.step < p.clock then p
    else
      var blocks := TlcsAt(p.tlcs, m.step) + [m.block];
      p.(tlcs := p.tlcs[m.step := blocks],
         consensus := if |blocks| >= threshold then p.consensus[m.step := m.block.value] else p.consensus)
  }

  /** A step is decided only once blocks for it were received. */
  ghost predicate Valid(p: Paxos) {
    && (forall s :: s in p.consensus ==> TlcsAt(p.tlcs, s) != [])
    && (forall m :: m in p.promises ==> m.Promise?)
  }

  /** What opens the next step. */
  function NextStep(p: Paxos): Paxos {
    p.(clock := p.clock + 1, maxID := 0, acceptedID := 0, acceptedValue := ZERO_VALUE, proposedValue := ZERO_VALUE,
       promises := [], accepts := map[])
  }

  function Advance(p: Paxos, step: nat): (Paxos, Option<Block>)
    requires Valid(p)
  {
    if step != p.clock || step !in p.consensus then (p, None)
    else (NextStep(p), Some(p.tlcs[step][0]))
  }

  class SafePaxos {
    var clock: nat
    var maxID: nat
    var acceptedValue: PaxosValue
    var acceptedID: nat
    var promises: seq<Msg>
    var accepts: map<PaxosValue, nat>
    var tlcs: map<nat, seq<Block>>
    var consensus: map<nat, PaxosValue>
    var preparedFlag: map<nat, bool>
    var proposedValue: PaxosValue
    var acceptedMap: map<nat, PaxosValue>

    function View(): Paxos
      reads this
    {
      Paxos(clock, maxID, acceptedValue, acceptedID, promises, accepts, tlcs, consensus, preparedFlag,
            proposedValue, acceptedMap)
    }

    constructor ()
      ensures View() == NEW_PAXOS
    {
      clock, maxID, acceptedValue, acceptedID, promises := 0, 0, ZERO_VALUE, 0, [];
      accepts, tlcs, consensus, preparedFlag := map[], map[], map[], map[];
      proposedValue, acceptedMap := ZERO_VALUE, map[];
    }

    method ResetFor(val: PaxosValue)
      modifies this
      ensures View() == Reset(old(View()), val)
    {
      maxID, acceptedID, acceptedValue := 0, 0, ZERO_VALUE;
      proposedValue, promises, accepts := val, [], map[];
    }

    method ReceivePrepare(prepare: Msg) returns (promise: Option<Msg>)
      requires prepare.Prepare?
      modifies this`maxID
      ensures (View(), promise) == OnPrepare(old(View()), prepare)
    {
      if prepare.step != clock {
        return None;
      }
      if prepare.id <= maxID {
        return None;
      }
      maxID := prepare.id;
      var value := Some(acceptedValue);
      if acceptedValue == ZERO_VALUE {
        value := None;
      }
      promise := Some(Promise(prepare.step, prepare.id, acceptedID, value));
    }

    method ReceivePropose(propose: Msg) returns (accept: Option<Msg>)
      requires propose.Propose?
      modifies this`acceptedValue, this`acceptedID
      ensures (View(), accept) == OnPropose(old(View()), propose)
    {
      if propose.step != clock {
        return None;
      }
      if propose.id != maxID {
        return None;
      }
      acceptedValue := propose.value;
      acceptedID := propose.id;
      accept := Some(Accept(propose.step, propose.id, propose.value));
    }

    method ReceivePromise(promise: Msg, threshold: nat)
      requires promise.Promise?
      modifies this`promises, this`preparedFlag
      ensures View() == OnPromise(old(View()), promise, threshold)
    {
      if promise.step != clock {
        return;
      }
      promises := promises + [promise];
      if clock in preparedFlag && preparedFlag[clock] {
        return;
      }
      if |promises| < threshold {
        return;
      }
      preparedFlag := preparedFlag[clock := true];
    }

    method GetPromiseValue(step: nat) returns (value: Option<PaxosValue>)
      requires forall m :: m in promises ==> m.Promise?
      ensures value == PromiseValue(View(), step)
    {
      if step !in preparedFlag {
        return None;
      }
      if clock != step {
        return None;
      }
      var ret, max := proposedValue, 0;
      var i := 0;
      while i < |promises|
        invariant 0 <= i <= |promises|
        invariant forall m :: m in promises[..i] ==> m in promises
        invariant (max, ret) == Best(promises[..i], proposedValue)
      {
        assert promises[..i + 1][..i] == promises[..i];
        if promises[i].acceptedValue.Some? && promises[i].acceptedID > max {
          max := promises[i].acceptedID;
          ret := promises[i].acceptedValue.value;
        }
        i := i + 1;
      }
      assert promises[..i] == promises;
      value := Some(ret);
    }

    method ReceiveAccept(accept: Msg, threshold: nat) returns (value: Option<PaxosValue>)
      requires accept.Accept?
      modifies this`accepts, this`acceptedMap
      ensures (View(), value) == OnAccept(old(View()), accept, threshold)
    {
      if accept.step != clock {
        return None;
      }
      if clock in acceptedMap {
        return Some(acceptedMap[clock]);
      }
      var before := if accept.value in accepts then accepts[accept.value] else 0;
      accepts := accepts[accept.value := before + 1];
      if accepts[accept.value] < threshold {
        return None;
      }
      acceptedMap := acceptedMap[clock := accept.value];
      value := Some(accept.value);
    }

    method ReceiveTLC(tlc: TLC, threshold: nat)
      modifies this`tlcs, this`consensus
      ensures View() == OnTLC(old(View()), tlc, threshold)
    {
      if tlc.step >= clock {
        tlcs := tlcs[tlc.step := TlcsAt(tlcs, tlc.step) + [tlc.block]];
        if |tlcs[tlc.step]| >= threshold {
          consensus := consensus[tlc.step := tlc.block.value];
        }
      }
    }

    method GetBlockAndAdvance(step: nat) returns (block: Option<Block>)
      requires Valid(View())
      modifies this
      ensures (View(), block) == Advance(old(View()), step)
    {
      if step != clock {
        return None;
      }
      if step !in consensus {
        return None;
      }
      clock := clock + 1;
      maxID, acceptedID, acceptedValue := 0, 0, ZERO_VALUE;
      proposedValue, promises, accepts := ZERO_VALUE, [], map[];
      assert TlcsAt(tlcs, step) != [];
      block := Some(tlcs[step][0]);
    }

    method UpdateAcceptedMap(step: nat, val: PaxosValue)
      modifies this`acceptedMap
      ensures View() == old(View()).(acceptedMap := old(acceptedMap)[step := val])
    {
      acceptedMap := acceptedMap[step := val];
    }
  }
}
