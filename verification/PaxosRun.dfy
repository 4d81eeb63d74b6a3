/** Every run of many peers that propose and vote, with steps closed by arbitrary TLC messages. */
module PaxosRun {
  import opened Common
  import opened Chain
  import opened PaxosNode
  import opened Tlc

  /** A broadcast, or a message for one peer: what the gossip layer delivers. */
  datatype Packet = Packet(origin: nat, dest: Option<nat>, msg: Msg)

  /** The number of peers, how many of them make a quorum, and the hash of blocks. */
  datatype Config = Config(total: nat, threshold: nat, h: HashFn)

  /** A call of Propose that has not returned: the step it tries, its round, and the value it was called with. */
  datatype Call = Call(step: nat, round: nat, value: PaxosValue)

  /** A peer, the id whose promises it waits for, its call of Propose, and the history of what it did: the values
      it was asked to tag, the id it tried and the value it proposed in a step, the promises it based that on, the
      packets it handled, those it handled in their own step, the ones it had so handled when it tried an id in a
      step, the packets behind its current promises, and the value its count of accepts settled on in a step. */
  datatype Node = Node(
    peer: Peer,
    waiting: Option<(nat, nat)>,
    call: Option<Call>,
    tags: set<PaxosValue>,
    attempted: map<nat, nat>,
    proposed: map<nat, PaxosValue>,
    backing: map<nat, seq<Packet>>,
    handled: set<Packet>,
    heard: set<Packet>,
    prior: map<nat, set<Packet>>,
    inbox: seq<Packet>,
    learned: map<nat, PaxosValue>)

  datatype Sys = Sys(nodes: seq<Node>, net: set<Packet>)

  datatype Event =
    | Begin(i: nat, round: nat, value: PaxosValue)
    | Conclude(i: nat)
    | Finish(i: nat)
    | Handle(i: nat, pkt: Packet)
    | Close(i: nat, tlc: TLC)

  const NEW_NODE := Node(NEW_PEER, None, None, {}, map[], map[], map[], {}, {}, map[], [], map[])

  function Init(cfg: Config): Sys {
    Sys(seq(cfg.total, _ => NEW_NODE), {})
  }

  function Clock(n: Node): nat {
    n.peer.paxos.clock
  }

  /** The id of a proposer's round: its index plus one, and a multiple of the number of peers. */
  function Ballot(total: nat, i: nat, round: nat): nat {
    if round == 0 then i + 1 else Ballot(total, i, round - 1) + total
  }

  /** When a peer may begin an attempt: whenever it tags a value or its time runs out, or at most once a step, or
      once a step and before it takes part in the step. */
  datatype Rule = Free | Once | Early

  /** The peer handled a message of the step while it was in it. */
  ghost predicate TookPart(n: Node, step: nat) {
    exists pkt :: pkt in n.heard && pkt.msg.step == step
  }

  /** A new call starts at round 0 with a value of its own, one call at a time and one a step; a call that ran out
      of time goes on to the next round with its value, in whatever step it then is. */
  ghost predicate Calls(s: Sys, n: Node, round: nat, value: PaxosValue) {
    match n.call
    case None =>
      && round == 0 && value != ZERO_VALUE && n.peer.paxos.proposedValue == ZERO_VALUE
      && forall x {:trigger s.nodes[x]} :: 0 <= x < |s.nodes| ==> value !in s.nodes[x].tags
    case Some(call) => round == call.round + 1 && value == call.value
  }

  ghost predicate Permits(rule: Rule, n: Node) {
    rule.Free? || (Clock(n) !in n.attempted && (rule.Early? ==> !TookPart(n, Clock(n))))
  }

  ghost predicate Enabled(cfg: Config, rule: Rule, s: Sys, e: Event) {
    && |s.nodes| == cfg.total && e.i < cfg.total
    && var n := s.nodes[e.i];
    && Valid(n.peer.paxos)
    && match e
       case Begin(_, round, value) => Calls(s, n, round, value) && Permits(rule, n)
       case Conclude(_) =>
         n.waiting.Some? && PromiseValue(n.peer.paxos, n.waiting.value.0).Some?
       case Finish(_) =>
         // the step has a counted value and a decision
         && n.call.Some? && n.waiting.None?
         && n.call.value.step in n.peer.paxos.acceptedMap && n.call.value.step in n.peer.paxos.consensus
       case Handle(_, pkt) =>
         // each broadcast is handled once
         pkt in s.net && pkt !in n.handled && (pkt.dest == None || pkt.dest == Some(e.i))
       case Close(_, _) => true
  }

  function Mark(n: Node, pkt: Packet): Node {
    n.(handled := n.handled + {pkt},
          heard := if pkt.msg.step == Clock(n) then n.heard + {pkt} else n.heard)
  }

  function DoBegin(cfg: Config, n: Node, i: nat, round: nat, value: PaxosValue): (Node, set<Packet>) {
    var id := Ballot(cfg.total, i, round);
    var step := Clock(n);
    (n.(peer := n.peer.(paxos := Reset(n.peer.paxos, value)),
        waiting := Some((step, id)),
        call := Some(Call(step, round, value)),
        tags := n.tags + {value},
        attempted := n.attempted[step := id],
        prior := n.prior[step := n.heard],
        inbox := []),
     {Packet(i, None, Prepare(step, id, i))})
  }

  function DoConclude(n: Node, i: nat): (Node, set<Packet>)
    requires Valid(n.peer.paxos) && n.waiting.Some? && PromiseValue(n.peer.paxos, n.waiting.value.0).Some?
  {
    var (step, id) := n.waiting.value;
    var value := PromiseValue(n.peer.paxos, step).value;
    (n.(waiting := None, proposed := n.proposed[step := value], backing := n.backing[step := n.inbox]),
     {Packet(i, None, Propose(step, id, value))})
  }

  function DoFinish(n: Node): Node {
    n.(call := None)
  }

  function DoHandle(cfg: Config, n: Node, i: nat, pkt: Packet): (Node, set<Packet>) {
    var n' := Mark(n, pkt);
    var p := n.peer.paxos;
    match pkt.msg
    case Prepare(_, _, source) =>
      var (p', reply) := OnPrepare(p, pkt.msg);
      (n'.(peer := n.peer.(paxos := p')), if reply.Some? then {Packet(i, Some(source), reply.value)} else {})
    case Promise(_, _, _, _) =>
      (n'.(peer := n.peer.(paxos := OnPromise(p, pkt.msg, cfg.threshold)),
           inbox := if pkt.msg.step == Clock(n) then n.inbox + [pkt] else n.inbox), {})
    case Propose(_, _, _) =>
      var (p', reply) := OnPropose(p, pkt.msg);
      (n'.(peer := n.peer.(paxos := p')), if reply.Some? then {Packet(i, None, reply.value)} else {})
    case Accept(_, _, _) =>
      var settled := Clock(n) !in p.acceptedMap && OnAccept(p, pkt.msg, cfg.threshold).1.Some?;
      (n'.(peer := HearAccept(cfg.h, n.peer, pkt.msg, cfg.threshold),
           learned := if settled then n.learned[Clock(n) := pkt.msg.value] else n.learned), {})
  }

  function DoClose(cfg: Config, n: Node, tlc: TLC): Node
    requires Valid(n.peer.paxos)
  {
    var peer := Hear(n.peer, tlc, cfg.threshold);
    n.(peer := peer, inbox := if peer.paxos.clock == Clock(n) then n.inbox else [])
  }

  ghost function Act(cfg: Config, rule: Rule, s: Sys, e: Event): (Node, set<Packet>)
    requires Enabled(cfg, rule, s, e)
  {
    var n := s.nodes[e.i];
    match e
    case Begin(i, round, value) => DoBegin(cfg, n, i, round, value)
    case Conclude(i) => DoConclude(n, i)
    case Finish(_) => (DoFinish(n), {})
    case Handle(i, pkt) => DoHandle(cfg, n, i, pkt)
    case Close(_, tlc) => (DoClose(cfg, n, tlc), {})
  }

  ghost function Step(cfg: Config, rule: Rule, s: Sys, e: Event): Sys
    requires Enabled(cfg, rule, s, e)
  {
    var (n, out) := Act(cfg, rule, s, e);
    Sys(s.nodes[e.i := n], s.net + out)
  }

  ghost predicate Legal(cfg: Config, rule: Rule, es: seq<Event>)
    decreases |es|, 0
  {
    es == [] ||
    var before := es[..|es| - 1];
    Legal(cfg, rule, before) && Enabled(cfg, rule, Run(cfg, rule, before), es[|es| - 1])
  }

  ghost function Run(cfg: Config, rule: Rule, es: seq<Event>): Sys
    requires Legal(cfg, rule, es)
    decreases |es|, 1
  {
    if es == [] then Init(cfg)
    else Step(cfg, rule, Run(cfg, rule, es[..|es| - 1]), es[|es| - 1])
  }

  ghost predicate Sound(cfg: Config) {
    cfg.threshold > 0 && 2 * cfg.threshold > cfg.total
  }

  // ----- what was sent

  ghost predicate Voted(net: set<Packet>, a: nat, step: nat, id: nat, v: PaxosValue) {
    Packet(a, None, Accept(step, id, v)) in net
  }

  ghost predicate Proposed(net: set<Packet>, p: nat, step: nat, id: nat, v: PaxosValue) {
    Packet(p, None, Propose(step, id, v)) in net
  }

  // ----- the invariant, packet by packet

  /** The prepare of an id, and the proposal under it. */
  function AskOf(total: nat, step: nat, id: nat): Packet
    requires total > 0
  {
    Packet(Owner(total, id), None, Prepare(step, id, Owner(total, id)))
  }

  function OfferOf(total: nat, step: nat, id: nat, v: PaxosValue): Packet
    requires total > 0
  {
    Packet(Owner(total, id), None, Propose(step, id, v))
  }

  /** What a peer had heard when it began its attempt of a step and forgot it. */
  function Prior(n: Node, step: nat): set<Packet> {
    if step in n.prior then n.prior[step] else {}
  }

  /** A promise tells of its sender's last vote below the promised id, and of none in between, as far as the
      sender has not forgotten them. */
  ghost predicate Truthful(total: nat, net: set<Packet>, prior: set<Packet>, a: nat, m: Msg)
    requires total > 0 && m.Promise?
  {
    && (m.acceptedValue.None? ==> m.acceptedID == 0)
    && (m.acceptedValue.Some? ==> 0 < m.acceptedID < m.id && Voted(net, a, m.step, m.acceptedID, m.acceptedValue.value))
    && (forall id: nat, v {:trigger Voted(net, a, m.step, id, v)} ::
          Voted(net, a, m.step, id, v) && id < m.id && OfferOf(total, m.step, id, v) !in prior ==>
            id <= m.acceptedID || AskOf(total, m.step, m.id) in prior)
  }

  ghost predicate PromiseFor(cfg: Config, net: set<Packet>, p: nat, step: nat, id: nat, pkt: Packet) {
    && pkt in net && pkt.origin < cfg.total && pkt.dest == Some(p)
    && pkt.msg.Promise? && pkt.msg.step == step && pkt.msg.id == id
  }

  /** Promises of one id from distinct peers, a quorum of them. */
  ghost predicate Backed(cfg: Config, net: set<Packet>, p: nat, step: nat, id: nat, backing: seq<Packet>) {
    && |backing| >= cfg.threshold
    && (forall k :: 0 <= k < |backing| ==> PromiseFor(cfg, net, p, step, id, backing[k]))
    && (forall j, k :: 0 <= j < k < |backing| ==> backing[j].origin != backing[k].origin)
  }

  /** What a promise packet says it accepted; 0 for nothing. */
  function Reported(pkt: Packet): nat {
    if pkt.msg.Promise? && pkt.msg.acceptedValue.Some? then pkt.msg.acceptedID else 0
  }

  /** The proposed value is the one with the highest accepted id among the promises, if any reports one. */
  ghost predicate Justified(backing: seq<Packet>, v: PaxosValue) {
    || (forall k :: 0 <= k < |backing| ==> Reported(backing[k]) == 0)
    || exists k :: 0 <= k < |backing| && backing[k].msg.Promise? && backing[k].msg.acceptedValue == Some(v)
                   && forall j :: 0 <= j < |backing| ==> Reported(backing[j]) <= Reported(backing[k])
  }

  ghost predicate Tried(n: Node, step: nat, id: nat) {
    step in n.attempted && n.attempted[step] == id
  }

  ghost predicate PrepareInv(cfg: Config, nodes: seq<Node>, pkt: Packet)
    requires |nodes| == cfg.total > 0
  {
    pkt.msg.Prepare? && pkt.origin < cfg.total ==>
      && pkt == AskOf(cfg.total, pkt.msg.step, pkt.msg.id) && pkt.msg.id > 0
      && Tried(nodes[pkt.origin], pkt.msg.step, pkt.msg.id)
  }

  ghost predicate PromiseInv(cfg: Config, nodes: seq<Node>, net: set<Packet>, pkt: Packet)
    requires |nodes| == cfg.total > 0
  {
    pkt.msg.Promise? && pkt.origin < cfg.total ==>
      var n, m := nodes[pkt.origin], pkt.msg;
      && pkt.dest == Some(Owner(cfg.total, m.id))
      && Tried(nodes[Owner(cfg.total, m.id)], m.step, m.id) && m.id > 0
      && AskOf(cfg.total, m.step, m.id) in n.heard
      && Truthful(cfg.total, net, Prior(n, m.step), pkt.origin, m)
      && (m.step == Clock(n) && AskOf(cfg.total, m.step, m.id) !in Prior(n, m.step) ==> m.id <= n.peer.paxos.maxID)
  }

  ghost predicate ProposeInv(cfg: Config, nodes: seq<Node>, net: set<Packet>, pkt: Packet)
    requires |nodes| == cfg.total > 0
  {
    pkt.msg.Propose? && pkt.origin < cfg.total ==>
      var n, m := nodes[pkt.origin], pkt.msg;
      && pkt.dest == None && Owner(cfg.total, m.id) == pkt.origin && m.id > 0 && m.value != ZERO_VALUE
      && Tried(n, m.step, m.id)
      && m.step in n.proposed && n.proposed[m.step] == m.value
      && m.step in n.backing && Backed(cfg, net, pkt.origin, m.step, m.id, n.backing[m.step])
      && Justified(n.backing[m.step], m.value)
  }

  ghost predicate AcceptInv(cfg: Config, nodes: seq<Node>, net: set<Packet>, pkt: Packet)
    requires |nodes| == cfg.total > 0
  {
    pkt.msg.Accept? && pkt.origin < cfg.total ==>
      var n, m := nodes[pkt.origin], pkt.msg;
      && pkt.dest == None && Proposed(net, Owner(cfg.total, m.id), m.step, m.id, m.value)
      && m.value != ZERO_VALUE && m.id > 0
      && OfferOf(cfg.total, m.step, m.id, m.value) in n.heard
      && (m.step == Clock(n) && OfferOf(cfg.total, m.step, m.id, m.value) !in Prior(n, m.step) ==>
            m.id <= n.peer.paxos.acceptedID)
  }

  ghost predicate PacketInv(cfg: Config, nodes: seq<Node>, net: set<Packet>, pkt: Packet)
    requires |nodes| == cfg.total > 0
  {
    && pkt.origin < cfg.total
    && PrepareInv(cfg, nodes, pkt)
    && PromiseInv(cfg, nodes, net, pkt)
    && ProposeInv(cfg, nodes, net, pkt)
    && AcceptInv(cfg, nodes, net, pkt)
  }

  /** Two promises of one peer for one id of one step. */
  ghost predicate SamePromise(p: Packet, q: Packet) {
    p.msg.Promise? && q.msg.Promise? && p.origin == q.origin && p.msg.step == q.msg.step && p.msg.id == q.msg.id
  }

  // ----- and peer by peer

  /** The acceptor state stands for this peer's last vote of the step. */
  ghost predicate AcceptorInv(net: set<Packet>, i: nat, p: Paxos) {
    && p.acceptedID <= p.maxID
    && (p.acceptedID == 0 <==> p.acceptedValue == ZERO_VALUE)
    && (p.acceptedID > 0 ==> Voted(net, i, p.clock, p.acceptedID, p.acceptedValue))
  }

  /** The promises held are distinct packets sent to this peer in this step. */
  ghost predicate InboxInv(cfg: Config, net: set<Packet>, i: nat, n: Node) {
    && |n.inbox| == |n.peer.paxos.promises|
    && (forall k :: 0 <= k < |n.inbox| ==>
          && n.inbox[k].msg == n.peer.paxos.promises[k] && n.inbox[k] in net && n.inbox[k] in n.handled
          && n.inbox[k].dest == Some(i) && n.inbox[k].msg.Promise? && n.inbox[k].msg.step == Clock(n))
    && (forall j, k :: 0 <= j < k < |n.inbox| ==> n.inbox[j] != n.inbox[k])
    && (n.inbox != [] ==> Clock(n) in n.attempted)
    && (Clock(n) in n.peer.paxos.preparedFlag ==> |n.inbox| >= cfg.threshold)
  }

  ghost predicate HistoryInv(n: Node) {
    && (forall step :: step in n.attempted ==> step <= Clock(n))
    && (n.call.Some? ==> n.call.value.value != ZERO_VALUE)
    && (forall step :: step in n.peer.paxos.preparedFlag ==> step <= Clock(n))
    && (forall step :: step in n.proposed ==> step in n.attempted)
    && (n.waiting.Some? ==>
          && Tried(n, n.waiting.value.0, n.waiting.value.1) && n.waiting.value.0 !in n.proposed
          && (n.waiting.value.0 == Clock(n) ==> n.peer.paxos.proposedValue != ZERO_VALUE))
  }

  /** Only packets of steps so far are heard, and only what was heard is forgotten. */
  ghost predicate HeardInv(net: set<Packet>, n: Node) {
    && n.heard <= n.handled <= net
    && (forall pkt :: pkt in n.heard ==> pkt.msg.step <= Clock(n))
    && n.prior.Keys == n.attempted.Keys
    && (forall step :: step in n.prior ==> n.prior[step] <= n.heard)
  }

  /** What a peer counted to the threshold was voted for. */
  ghost predicate LearnedInv(net: set<Packet>, n: Node) {
    forall step :: step in n.learned ==> SomeVote(net, step, n.learned[step])
  }

  ghost predicate SomeVote(net: set<Packet>, step: nat, v: PaxosValue) {
    exists a: nat, id: nat :: Voted(net, a, step, id, v)
  }

  ghost predicate NodeInv(cfg: Config, net: set<Packet>, i: nat, n: Node) {
    && Valid(n.peer.paxos) && AcceptorInv(net, i, n.peer.paxos) && InboxInv(cfg, net, i, n) && HistoryInv(n)
    && LearnedInv(net, n) && HeardInv(net, n)
  }

  ghost predicate Inv(cfg: Config, s: Sys)
    requires cfg.total > 0
  {
    && |s.nodes| == cfg.total
    && (forall i {:trigger s.nodes[i]} :: 0 <= i < cfg.total ==> NodeInv(cfg, s.net, i, s.nodes[i]))
    && (forall pkt {:trigger PacketInv(cfg, s.nodes, s.net, pkt)} :: pkt in s.net ==>
          PacketInv(cfg, s.nodes, s.net, pkt))
    && (forall p, q {:trigger SamePromise(p, q)} :: p in s.net && q in s.net && SamePromise(p, q) ==> p == q)
  }

  // ----- a step of one peer keeps what the others rest on

  /** What a step may do to the history and, unless it makes the peer forget, to its acceptor. */
  ghost predicate Grows(n: Node, n': Node) {
    && Clock(n) <= Clock(n')
    && (forall step, id :: Tried(n, step, id) ==> Tried(n', step, id))
    && (forall step :: step in n.proposed ==> step in n'.proposed && n'.proposed[step] == n.proposed[step])
    && (forall step :: step in n.proposed && step in n.backing ==>
          step in n'.backing && n'.backing[step] == n.backing[step])
    && HeardGrows(n, n')
    && (Clock(n) == Clock(n') ==> Rises(n.peer.paxos, n'.peer.paxos) || n.heard <= Prior(n', Clock(n)))
  }

  ghost predicate Rises(p: Paxos, p': Paxos) {
    p.maxID <= p'.maxID && p.acceptedID <= p'.acceptedID
  }

  ghost predicate HeardGrows(n: Node, n': Node) {
    && n.heard <= n'.heard
    && (forall step {:trigger Prior(n', step)} :: Prior(n, step) <= Prior(n', step))
    && (forall pkt :: pkt in n.heard ==> pkt.msg.step <= Clock(n))
  }

  lemma HeardMore(net: set<Packet>, n: Node, n': Node, pkt: Packet)
    requires HeardInv(net, n) && pkt in net && Clock(n) <= Clock(n')
    requires n'.handled == n.handled + {pkt} && n'.prior == n.prior && n'.attempted == n.attempted
    requires n'.heard == if pkt.msg.step == Clock(n) then n.heard + {pkt} else n.heard
    ensures HeardInv(net, n') && HeardGrows(n, n')
  {
  }

  lemma HeardSame(net: set<Packet>, n: Node, n': Node)
    requires HeardInv(net, n) && Clock(n) <= Clock(n')
    requires n'.handled == n.handled && n'.prior == n.prior && n'.attempted.Keys == n.attempted.Keys
    requires n'.heard == n.heard
    ensures HeardInv(net, n') && HeardGrows(n, n')
  {
  }

  lemma HeardForgotten(net: set<Packet>, n: Node, n': Node)
    requires HeardInv(net, n) && Clock(n) == Clock(n') && Clock(n) !in n.attempted
    requires n'.handled == n.handled && n'.heard == n.heard && n'.prior == n.prior[Clock(n) := n.heard]
    requires n'.attempted.Keys == n.attempted.Keys + {Clock(n)}
    ensures HeardInv(net, n') && HeardGrows(n, n') && n.heard <= Prior(n', Clock(n))
  {
  }

  /** No new vote of a peer is below what it promised, as far as it has not forgotten that. */
  ghost predicate VotesHigh(total: nat, i: nat, n: Node, net: set<Packet>, out: set<Packet>)
    requires total > 0
  {
    forall p, q {:trigger p in net, q in out} ::
      p in net && q in out && p.msg.Promise? && q.msg.Accept? && p.origin == q.origin && p.msg.step == q.msg.step ==>
        p.origin == i && (p.msg.id <= q.msg.id || AskOf(total, p.msg.step, p.msg.id) in Prior(n, p.msg.step))
  }

  lemma {:induction false} TruthfulStays(total: nat, net: set<Packet>, i: nat, n: Node, out: set<Packet>,
        prior: set<Packet>, p: Packet)
    requires total > 0 && p in net && p.msg.Promise? && Truthful(total, net, prior, p.origin, p.msg)
    requires VotesHigh(total, i, n, net, out) && (p.origin == i ==> prior <= Prior(n, p.msg.step))
    ensures Truthful(total, net + out, if p.origin == i then Prior(n, p.msg.step) else prior, p.origin, p.msg)
  {
    hide Prior;
    var a, m := p.origin, p.msg;
    var prior' := if a == i then Prior(n, m.step) else prior;
    forall id: nat, v | Voted(net + out, a, m.step, id, v) && id < m.id && OfferOf(total, m.step, id, v) !in prior'
      ensures id <= m.acceptedID || AskOf(total, m.step, m.id) in prior'
    {
      assert Voted(net, a, m.step, id, v) || Packet(a, None, Accept(m.step, id, v)) in out;
    }
  }

  lemma {:induction false} BackedStays(cfg: Config, net: set<Packet>, net': set<Packet>, p: nat, step: nat, id: nat,
        backing: seq<Packet>)
    requires net <= net' && Backed(cfg, net, p, step, id, backing)
    ensures Backed(cfg, net', p, step, id, backing)
  {
    assert forall k :: 0 <= k < |backing| ==> PromiseFor(cfg, net, p, step, id, backing[k]);
  }

  lemma {:induction false} PacketStays(cfg: Config, nodes: seq<Node>, net: set<Packet>, i: nat, n': Node,
        out: set<Packet>, pkt: Packet)
    requires |nodes| == cfg.total > 0 && i < cfg.total && Grows(nodes[i], n') && VotesHigh(cfg.total, i, n', net, out)
    requires pkt in net && PacketInv(cfg, nodes, net, pkt)
    ensures PacketInv(cfg, nodes[i := n'], net + out, pkt)
  {
    var m := pkt.msg;
    match m
    case Prepare(_, _, _) =>
    case Promise(_, _, _, _) => TruthfulStays(cfg.total, net, i, n', out, Prior(nodes[pkt.origin], m.step), pkt);
    case Propose(_, _, _) => BackedStays(cfg, net, net + out, pkt.origin, m.step, m.id,
          nodes[pkt.origin].backing[m.step]);
    case Accept(_, _, _) =>
  }

  lemma {:induction false} OneNode(cfg: Config, s: Sys, i: nat, n': Node, out: set<Packet>)
    requires cfg.total > 0 && Inv(cfg, s) && i < cfg.total
    requires Grows(s.nodes[i], n') && VotesHigh(cfg.total, i, n', s.net, out)
    requires NodeInv(cfg, s.net + out, i, n')
    requires forall pkt :: pkt in out ==> PacketInv(cfg, s.nodes[i := n'], s.net + out, pkt)
    requires forall p, q {:trigger SamePromise(p, q)} :: p in s.net + out && q in out && SamePromise(p, q) ==> p == q
    ensures Inv(cfg, Sys(s.nodes[i := n'], s.net + out))
  {
    var s' := Sys(s.nodes[i := n'], s.net + out);
    forall j | 0 <= j < cfg.total
      ensures NodeInv(cfg, s'.net, j, s'.nodes[j])
    {
      if j != i {
        NodeStays(cfg, s.net, s'.net, j, s.nodes[j]);
      }
    }
    forall pkt | pkt in s'.net
      ensures PacketInv(cfg, s'.nodes, s'.net, pkt)
    {
      if pkt !in out {
        PacketStays(cfg, s.nodes, s.net, i, n', out, pkt);
      }
    }
    forall p, q | p in s'.net && q in s'.net && SamePromise(p, q)
      ensures p == q
    {
      assert SamePromise(q, p);
    }
  }

  lemma {:induction false} NodeStays(cfg: Config, net: set<Packet>, net': set<Packet>, j: nat, n: Node)
    requires NodeInv(cfg, net, j, n) && net <= net'
    ensures NodeInv(cfg, net', j, n)
  {
    LearnedStays(net, net', n);
  }

  lemma {:induction false} LearnedStays(net: set<Packet>, net': set<Packet>, n: Node)
    requires LearnedInv(net, n) && net <= net'
    ensures LearnedInv(net', n)
  {
    forall step | step in n.learned
      ensures SomeVote(net', step, n.learned[step])
    {
      var a: nat, id: nat :| Voted(net, a, step, id, n.learned[step]);
      assert Voted(net', a, step, id, n.learned[step]);
    }
  }

  // ----- each event

  lemma {:induction false} BallotOwner(total: nat, i: nat, round: nat)
    requires i < total
    ensures Ballot(total, i, round) > 0 && Owner(total, Ballot(total, i, round)) == i
  {
    if round > 0 {
      BallotOwner(total, i, round - 1);
    }
  }

  lemma {:induction false} BeginNode(cfg: Config, net: set<Packet>, i: nat, n: Node, round: nat, value: PaxosValue)
    requires Sound(cfg) && i < cfg.total && NodeInv(cfg, net, i, n) && value != ZERO_VALUE
    requires Clock(n) !in n.attempted
    ensures var n' := DoBegin(cfg, n, i, round, value).0; NodeInv(cfg, net, i, n') && Grows(n, n')
  {
    hide HeardInv, HeardGrows, SomeVote;
    HeardForgotten(net, n, DoBegin(cfg, n, i, round, value).0);
  }

  lemma CallsNotZero(cfg: Config, s: Sys, i: nat, round: nat, value: PaxosValue)
    requires i < |s.nodes| && NodeInv(cfg, s.net, i, s.nodes[i]) && Calls(s, s.nodes[i], round, value)
    ensures value != ZERO_VALUE
  {
  }

  lemma {:induction false} BeginKeeps(cfg: Config, s: Sys, i: nat, round: nat, value: PaxosValue)
    requires Sound(cfg) && cfg.total > 0 && Inv(cfg, s) && Enabled(cfg, Once, s, Begin(i, round, value))
    ensures Inv(cfg, Step(cfg, Once, s, Begin(i, round, value)))
  {
    hide NodeInv, Grows;
    var n := s.nodes[i];
    var (n', out) := DoBegin(cfg, n, i, round, value);
    assert NodeInv(cfg, s.net, i, n);
    CallsNotZero(cfg, s, i, round, value);
    BallotOwner(cfg.total, i, round);
    BeginNode(cfg, s.net, i, n, round, value);
    NodeStays(cfg, s.net, s.net + out, i, n');
    OneNode(cfg, s, i, n', out);
  }

  /** The promises a proposer holds are all for its one id, from distinct peers. */
  lemma {:induction false} InboxBacks(cfg: Config, s: Sys, i: nat)
    requires cfg.total > 0 && Inv(cfg, s) && i < cfg.total
    requires s.nodes[i].waiting.Some? && s.nodes[i].waiting.value.0 == Clock(s.nodes[i])
    requires |s.nodes[i].inbox| >= cfg.threshold
    ensures Backed(cfg, s.net, i, Clock(s.nodes[i]), s.nodes[i].waiting.value.1, s.nodes[i].inbox)
  {
    var n := s.nodes[i];
    var id := n.waiting.value.1;
    assert NodeInv(cfg, s.net, i, n);
    forall k | 0 <= k < |n.inbox|
      ensures PromiseFor(cfg, s.net, i, Clock(n), id, n.inbox[k])
    {
      assert PacketInv(cfg, s.nodes, s.net, n.inbox[k]);
      assert Tried(n, Clock(n), n.inbox[k].msg.id);
    }
    forall j, k | 0 <= j < k < |n.inbox|
      ensures n.inbox[j].origin != n.inbox[k].origin
    {
      assert PromiseFor(cfg, s.net, i, Clock(n), id, n.inbox[j]) && PromiseFor(cfg, s.net, i, Clock(n), id, n.inbox[k]);
      if n.inbox[j].origin == n.inbox[k].origin {
        assert SamePromise(n.inbox[j], n.inbox[k]);
      }
    }
  }

  /** A value reported by a promise was voted for, so it is not the zero value. */
  lemma {:induction false} ReportedNotZero(cfg: Config, s: Sys, pkt: Packet)
    requires cfg.total > 0 && Inv(cfg, s) && pkt in s.net && pkt.msg.Promise? && pkt.msg.acceptedValue.Some?
    ensures pkt.msg.acceptedID > 0 && pkt.msg.acceptedValue.value != ZERO_VALUE
  {
    hide NodeInv, ProposeInv, PrepareInv;
    var m := pkt.msg;
    assert PacketInv(cfg, s.nodes, s.net, pkt);
    var vote := Packet(pkt.origin, None, Accept(m.step, m.acceptedID, m.acceptedValue.value));
    assert PacketInv(cfg, s.nodes, s.net, vote);
  }

  /** The value chosen from a list of promises is justified by them. */
  lemma {:induction false} BestJustified(backing: seq<Packet>, promises: seq<Msg>, default: PaxosValue)
    requires |backing| == |promises|
    requires forall k :: 0 <= k < |backing| ==> backing[k].msg == promises[k] && promises[k].Promise?
    ensures var (maxID, v) := Best(promises, default);
            && Justified(backing, v)
            && (v == default || exists k :: 0 <= k < |backing| && backing[k].msg.acceptedValue == Some(v))
  {
    var (maxID, v) := Best(promises, default);
    BestIsHighest(promises, default);
    forall k | 0 <= k < |backing|
      ensures Reported(backing[k]) <= maxID
    {
      assert promises[k] in promises;
    }
    if maxID > 0 {
      var m :| m in promises && m.acceptedID == maxID && m.acceptedValue == Some(v);
      var k :| 0 <= k < |promises| && promises[k] == m;
      assert Reported(backing[k]) == maxID;
    }
  }

  lemma {:induction false} ConcludeNode(cfg: Config, net: set<Packet>, i: nat, n: Node)
    requires Sound(cfg) && NodeInv(cfg, net, i, n)
    requires n.waiting.Some? && PromiseValue(n.peer.paxos, n.waiting.value.0).Some?
    ensures var n' := DoConclude(n, i).0; NodeInv(cfg, net, i, n') && Grows(n, n')
    ensures n.waiting.value.0 == Clock(n) && |n.inbox| >= cfg.threshold && n.peer.paxos.proposedValue != ZERO_VALUE
    ensures n.waiting.value.0 !in n.proposed && Tried(n, n.waiting.value.0, n.waiting.value.1)
  {
    hide Truthful, SomeVote, HeardInv, HeardGrows;
    HeardSame(net, n, DoConclude(n, i).0);
  }

  /** The value a proposer settles on is justified by the promises it holds, and is not the zero value. */
  lemma {:induction false} ValueJustified(cfg: Config, s: Sys, i: nat)
    requires cfg.total > 0 && Inv(cfg, s) && i < cfg.total && Valid(s.nodes[i].peer.paxos)
    requires s.nodes[i].peer.paxos.proposedValue != ZERO_VALUE
    ensures var n := s.nodes[i];
            var v := Best(n.peer.paxos.promises, n.peer.paxos.proposedValue).1;
            Justified(n.inbox, v) && v != ZERO_VALUE
  {
    hide AcceptorInv, HistoryInv, LearnedInv, PacketInv, Justified, Best;
    var n := s.nodes[i];
    assert NodeInv(cfg, s.net, i, n);
    var v := Best(n.peer.paxos.promises, n.peer.paxos.proposedValue).1;
    BestJustified(n.inbox, n.peer.paxos.promises, n.peer.paxos.proposedValue);
    if v != n.peer.paxos.proposedValue {
      var k :| 0 <= k < |n.inbox| && n.inbox[k].msg.acceptedValue == Some(v);
      ReportedNotZero(cfg, s, n.inbox[k]);
    }
  }

  lemma {:induction false} ConcludeKeeps(cfg: Config, s: Sys, i: nat)
    requires Sound(cfg) && cfg.total > 0 && Inv(cfg, s) && Enabled(cfg, Once, s, Conclude(i))
    ensures Inv(cfg, Step(cfg, Once, s, Conclude(i)))
  {
    hide NodeInv, Grows, Justified, Best, Backed, Truthful;
    var n := s.nodes[i];
    var (n', out) := DoConclude(n, i);
    var (step, id) := n.waiting.value;
    assert NodeInv(cfg, s.net, i, n);
    ConcludeNode(cfg, s.net, i, n);
    InboxBacks(cfg, s, i);
    ValueJustified(cfg, s, i);
    BackedHasOwner(cfg, s, i, step, id, n.inbox);
    BackedStays(cfg, s.net, s.net + out, i, step, id, n.inbox);
    NodeStays(cfg, s.net, s.net + out, i, n');
    OneNode(cfg, s, i, n', out);
  }

  lemma {:induction false} BackedHasOwner(cfg: Config, s: Sys, i: nat, step: nat, id: nat, backing: seq<Packet>)
    requires Sound(cfg) && cfg.total > 0 && Inv(cfg, s) && Backed(cfg, s.net, i, step, id, backing)
    ensures id > 0 && Owner(cfg.total, id) == i
  {
    hide NodeInv, Truthful;
    assert PromiseFor(cfg, s.net, i, step, id, backing[0]);
    assert PacketInv(cfg, s.nodes, s.net, backing[0]);
  }

  /** What a prepare changes. */
  lemma PrepareDoes(cfg: Config, n: Node, i: nat, pkt: Packet)
    requires pkt.msg.Prepare?
    ensures var (n', out) := DoHandle(cfg, n, i, pkt);
            var p, p' := n.peer.paxos, n'.peer.paxos;
            && n' == Mark(n, pkt).(peer := n.peer.(paxos := p')) && p' == p.(maxID := p'.maxID)
            && (out == {} ==> p' == p) && (out != {} ==> p'.maxID == pkt.msg.id > p.maxID && pkt.msg.step == p.clock)
  {
  }

  lemma {:induction false} PrepareNode(cfg: Config, net: set<Packet>, i: nat, n: Node, pkt: Packet)
    requires NodeInv(cfg, net, i, n) && pkt.msg.Prepare? && pkt in net
    ensures var (n', out) := DoHandle(cfg, n, i, pkt);
            && NodeInv(cfg, net, i, n') && Grows(n, n') && Clock(n') == Clock(n) && n'.prior == n.prior
            && (out != {} ==> pkt in n'.heard && n'.peer.paxos.maxID == pkt.msg.id > n.peer.paxos.maxID)
  {
    hide SomeVote, HeardInv, HeardGrows, DoHandle;
    PrepareDoes(cfg, n, i, pkt);
    HeardMore(net, n, DoHandle(cfg, n, i, pkt).0, pkt);
  }

  /** What a peer answers to a prepare. */
  lemma {:induction false} PrepareReply(cfg: Config, n: Node, i: nat, pkt: Packet, r: Packet)
    requires pkt.msg.Prepare? && r in DoHandle(cfg, n, i, pkt).1
    ensures r.origin == i && r.dest == Some(pkt.msg.source) && r.msg.Promise?
    ensures r.msg.step == pkt.msg.step == Clock(n) && r.msg.id == pkt.msg.id > n.peer.paxos.maxID
    ensures DoHandle(cfg, n, i, pkt).1 == {r}
    ensures var p := n.peer.paxos;
            r.msg.acceptedID == p.acceptedID
            && r.msg.acceptedValue == if p.acceptedValue == ZERO_VALUE then None else Some(p.acceptedValue)
  {
  }

  lemma {:induction false} PromisedBefore(cfg: Config, s: Sys, p: Packet)
    requires cfg.total > 0 && Inv(cfg, s) && p in s.net && p.msg.Promise?
    ensures p.origin < cfg.total && AskOf(cfg.total, p.msg.step, p.msg.id) in s.nodes[p.origin].handled
  {
    hide Truthful, InboxInv, AcceptorInv, LearnedInv;
    assert PacketInv(cfg, s.nodes, s.net, p);
    assert NodeInv(cfg, s.net, p.origin, s.nodes[p.origin]);
  }

  lemma {:induction false} PrepareKeeps(cfg: Config, s: Sys, i: nat, pkt: Packet)
    requires Sound(cfg) && cfg.total > 0 && Inv(cfg, s) && Enabled(cfg, Once, s, Handle(i, pkt)) && pkt.msg.Prepare?
    ensures Inv(cfg, Step(cfg, Once, s, Handle(i, pkt)))
  {
    hide NodeInv, DoHandle, Truthful;
    var n := s.nodes[i];
    var (n', out) := DoHandle(cfg, n, i, pkt);
    assert PacketInv(cfg, s.nodes, s.net, pkt);
    PrepareNode(cfg, s.net, i, n, pkt);
    NodeStays(cfg, s.net, s.net + out, i, n');
    forall r | r in out
      ensures PacketInv(cfg, s.nodes[i := n'], s.net + out, r)
      ensures VotesHigh(cfg.total, i, n', s.net, out)
    {
      PrepareReply(cfg, n, i, pkt, r);
      PromiseIsTruthful(cfg, s, i, r);
      assert Tried(n', r.msg.step, r.msg.id) || Owner(cfg.total, r.msg.id) != i;
    }
    forall p, q | p in s.net + out && q in out && SamePromise(p, q)
      ensures p == q
    {
      PrepareReply(cfg, n, i, pkt, q);
      if p in s.net {
        PromisedBefore(cfg, s, p);
      }
    }
    OneNode(cfg, s, i, n', out);
  }

  lemma {:induction false} PromiseIsTruthful(cfg: Config, s: Sys, i: nat, r: Packet)
    requires cfg.total > 0 && Inv(cfg, s) && i < cfg.total
    requires r.msg.Promise? && r.origin == i && r.msg.step == Clock(s.nodes[i])
          && r.msg.id > s.nodes[i].peer.paxos.maxID
    requires var p := s.nodes[i].peer.paxos;
             r.msg.acceptedID == p.acceptedID
             && r.msg.acceptedValue == if p.acceptedValue == ZERO_VALUE then None else Some(p.acceptedValue)
    ensures Truthful(cfg.total, s.net + {r}, Prior(s.nodes[i], r.msg.step), i, r.msg)
  {
    hide InboxInv, HistoryInv, LearnedInv, ProposeInv, PromiseInv, PrepareInv, Prior;
    var n := s.nodes[i];
    assert NodeInv(cfg, s.net, i, n);
    forall id: nat, v | Voted(s.net + {r}, i, r.msg.step, id, v) && id < r.msg.id
          && OfferOf(cfg.total, r.msg.step, id, v) !in Prior(n, r.msg.step)
      ensures id <= r.msg.acceptedID
    {
      assert PacketInv(cfg, s.nodes, s.net, Packet(i, None, Accept(r.msg.step, id, v)));
    }
  }

  /** What a promise changes. */
  lemma PromiseDoes(cfg: Config, n: Node, i: nat, pkt: Packet)
    requires pkt.msg.Promise?
    ensures var (n', out) := DoHandle(cfg, n, i, pkt);
            && out == {} && n' == Mark(n, pkt).(peer := n'.peer, inbox := n'.inbox)
            && var p, p' := n.peer.paxos, n'.peer.paxos;
               && p' == p.(promises := p'.promises, preparedFlag := p'.preparedFlag)
               && p'.preparedFlag.Keys <= p.preparedFlag.Keys + {p.clock}
               && (p.clock in p'.preparedFlag ==> p.clock in p.preparedFlag || |p'.promises| >= cfg.threshold)
               && if pkt.msg.step == p.clock then p'.promises == p.promises + [pkt.msg] && n'.inbox == n.inbox + [pkt]
                  else p' == p && n'.inbox == n.inbox
  {
    hide OnPrepare, OnPropose, OnAccept, HearAccept;
  }

  lemma {:induction false} PromiseNode(cfg: Config, net: set<Packet>, i: nat, n: Node, pkt: Packet)
    requires Sound(cfg) && NodeInv(cfg, net, i, n) && pkt.msg.Promise?
    requires pkt in net && pkt !in n.handled && pkt.dest == Some(i)
    requires pkt.msg.step == Clock(n) ==> Clock(n) in n.attempted
    ensures var (n', out) := DoHandle(cfg, n, i, pkt);
            out == {} && NodeInv(cfg, net, i, n') && Grows(n, n')
  {
    hide InboxInv, SomeVote, HeardInv, HeardGrows, Valid, DoHandle;
    PromiseDoes(cfg, n, i, pkt);
    PromiseInbox(cfg, net, i, n, pkt);
    HeardMore(net, n, DoHandle(cfg, n, i, pkt).0, pkt);
  }

  lemma {:induction false} PromiseInbox(cfg: Config, net: set<Packet>, i: nat, n: Node, pkt: Packet)
    requires Valid(n.peer.paxos) && InboxInv(cfg, net, i, n) && pkt.msg.Promise?
    requires pkt in net && pkt !in n.handled && pkt.dest == Some(i)
    requires pkt.msg.step == Clock(n) ==> Clock(n) in n.attempted
    ensures var n' := DoHandle(cfg, n, i, pkt).0; InboxInv(cfg, net, i, n') && Valid(n'.peer.paxos)
  {
    hide DoHandle;
    PromiseDoes(cfg, n, i, pkt);
  }

  lemma {:induction false} PromiseKeeps(cfg: Config, s: Sys, i: nat, pkt: Packet)
    requires Sound(cfg) && cfg.total > 0 && Inv(cfg, s) && Enabled(cfg, Once, s, Handle(i, pkt)) && pkt.msg.Promise?
    ensures Inv(cfg, Step(cfg, Once, s, Handle(i, pkt)))
  {
    hide NodeInv, DoHandle, Grows, Truthful;
    var n := s.nodes[i];
    var (n', out) := DoHandle(cfg, n, i, pkt);
    assert PacketInv(cfg, s.nodes, s.net, pkt);
    PromiseNode(cfg, s.net, i, n, pkt);
    NodeStays(cfg, s.net, s.net + out, i, n');
    OneNode(cfg, s, i, n', out);
  }

  lemma HeardWider(net: set<Packet>, net': set<Packet>, n: Node)
    requires HeardInv(net, n) && net <= net'
    ensures HeardInv(net', n)
  {
  }

  /** What a proposal changes. */
  lemma ProposeDoes(cfg: Config, n: Node, i: nat, pkt: Packet)
    requires pkt.msg.Propose?
    ensures var (n', out) := DoHandle(cfg, n, i, pkt);
            var p, p' := n.peer.paxos, n'.peer.paxos;
            && n' == Mark(n, pkt).(peer := n.peer.(paxos := p'))
            && p' == p.(acceptedID := p'.acceptedID, acceptedValue := p'.acceptedValue)
            && if out == {} then p' == p
               else p'.acceptedID == pkt.msg.id == p.maxID && p'.acceptedValue == pkt.msg.value
                    && pkt.msg.step == p.clock && out == {Packet(i, None, Accept(p.clock, pkt.msg.id, pkt.msg.value))}
  {
    hide OnPromise, OnPrepare, OnAccept, HearAccept;
  }

  lemma {:induction false} ProposeNode(cfg: Config, net: set<Packet>, i: nat, n: Node, pkt: Packet)
    requires NodeInv(cfg, net, i, n) && pkt.msg.Propose? && pkt.msg.id > 0 && pkt.msg.value != ZERO_VALUE
    requires pkt in net
    ensures var (n', out) := DoHandle(cfg, n, i, pkt);
            && NodeInv(cfg, net + out, i, n') && Grows(n, n') && Clock(n') == Clock(n) && n'.prior == n.prior
            && (out != {} ==> pkt in n'.heard && n'.peer.paxos.acceptedID == pkt.msg.id)
  {
    hide SomeVote, HeardInv, HeardGrows, DoHandle;
    ProposeDoes(cfg, n, i, pkt);
    var (n', out) := DoHandle(cfg, n, i, pkt);
    LearnedStays(net, net + out, n);
    HeardMore(net, n, n', pkt);
    HeardWider(net, net + out, n');
  }

  lemma {:induction false} ProposeReply(cfg: Config, n: Node, i: nat, pkt: Packet, r: Packet)
    requires pkt.msg.Propose? && r in DoHandle(cfg, n, i, pkt).1
    ensures r == Packet(i, None, Accept(Clock(n), pkt.msg.id, pkt.msg.value))
    ensures pkt.msg.step == Clock(n) && pkt.msg.id == n.peer.paxos.maxID
  {
  }

  lemma {:induction false} ProposeKeeps(cfg: Config, s: Sys, i: nat, pkt: Packet)
    requires Sound(cfg) && cfg.total > 0 && Inv(cfg, s) && Enabled(cfg, Once, s, Handle(i, pkt)) && pkt.msg.Propose?
    ensures Inv(cfg, Step(cfg, Once, s, Handle(i, pkt)))
  {
    hide NodeInv, DoHandle, Grows, Truthful, Backed, Justified;
    var n := s.nodes[i];
    var (n', out) := DoHandle(cfg, n, i, pkt);
    assert PacketInv(cfg, s.nodes, s.net, pkt);
    ProposeNode(cfg, s.net, i, n, pkt);
    forall p, q | p in s.net && q in out && p.msg.Promise? && q.msg.Accept? && p.origin == q.origin
          && p.msg.step == q.msg.step
      ensures p.origin == i
      ensures p.msg.id <= q.msg.id || AskOf(cfg.total, p.msg.step, p.msg.id) in Prior(n', p.msg.step)
    {
      ProposeReply(cfg, n, i, pkt, q);
      assert PacketInv(cfg, s.nodes, s.net, p);
    }
    forall r | r in out
      ensures PacketInv(cfg, s.nodes[i := n'], s.net + out, r) && !r.msg.Promise?
    {
      ProposeReply(cfg, n, i, pkt, r);
      assert Proposed(s.net, Owner(cfg.total, pkt.msg.id), pkt.msg.step, pkt.msg.id, pkt.msg.value);
    }
    OneNode(cfg, s, i, n', out);
  }

  /** Nothing a peer promises, accepts or proposes from is different. */
  ghost predicate SameVoter(n: Node, n': Node) {
    var p, p' := n.peer.paxos, n'.peer.paxos;
    && p'.clock == p.clock && p'.maxID == p.maxID && p'.acceptedID == p.acceptedID
          && p'.acceptedValue == p.acceptedValue
    && p'.promises == p.promises && p'.proposedValue == p.proposedValue && p'.preparedFlag == p.preparedFlag
    && n'.waiting == n.waiting && n'.attempted == n.attempted && n'.proposed == n.proposed && n'.backing == n.backing
    && n'.call == n.call && n'.inbox == n.inbox && n.handled <= n'.handled
  }

  lemma {:induction false} SameVoterKeeps(cfg: Config, net: set<Packet>, i: nat, n: Node, n': Node)
    requires NodeInv(cfg, net, i, n) && SameVoter(n, n') && Valid(n'.peer.paxos) && LearnedInv(net, n')
    requires HeardInv(net, n') && HeardGrows(n, n')
    ensures NodeInv(cfg, net, i, n') && Grows(n, n')
  {
    hide LearnedInv, Valid, HeardInv, HeardGrows;
  }

  /** What an accept changes. */
  lemma AcceptDoes(cfg: Config, n: Node, i: nat, pkt: Packet)
    requires pkt.msg.Accept? && Valid(n.peer.paxos)
    ensures var (n', out) := DoHandle(cfg, n, i, pkt);
            && out == {} && n' == Mark(n, pkt).(peer := n'.peer, learned := n'.learned)
            && SameVoter(n, n') && Valid(n'.peer.paxos)
            && (n'.learned == n.learned
                || (pkt.msg.step == Clock(n) && n'.learned == n.learned[Clock(n) := pkt.msg.value]))
  {
    hide OnPrepare, OnPropose, OnPromise;
  }

  lemma {:induction false} AcceptNode(cfg: Config, net: set<Packet>, i: nat, n: Node, pkt: Packet)
    requires NodeInv(cfg, net, i, n) && pkt.msg.Accept? && SomeVote(net, pkt.msg.step, pkt.msg.value)
    requires pkt in net
    ensures var (n', out) := DoHandle(cfg, n, i, pkt);
            out == {} && NodeInv(cfg, net, i, n') && Grows(n, n')
  {
    hide DoHandle, InboxInv, AcceptorInv, HistoryInv, HeardInv, HeardGrows, Valid, SomeVote;
    var n' := DoHandle(cfg, n, i, pkt).0;
    AcceptDoes(cfg, n, i, pkt);
    HeardMore(net, n, n', pkt);
    SameVoterKeeps(cfg, net, i, n, n');
  }

  lemma {:induction false} AcceptKeeps(cfg: Config, s: Sys, i: nat, pkt: Packet)
    requires Sound(cfg) && cfg.total > 0 && Inv(cfg, s) && Enabled(cfg, Once, s, Handle(i, pkt)) && pkt.msg.Accept?
    ensures Inv(cfg, Step(cfg, Once, s, Handle(i, pkt)))
  {
    hide NodeInv, DoHandle, Grows;
    var n := s.nodes[i];
    var (n', out) := DoHandle(cfg, n, i, pkt);
    assert PacketInv(cfg, s.nodes, s.net, pkt);
    assert Voted(s.net, pkt.origin, pkt.msg.step, pkt.msg.id, pkt.msg.value);
    AcceptNode(cfg, s.net, i, n, pkt);
    NodeStays(cfg, s.net, s.net + out, i, n');
    OneNode(cfg, s, i, n', out);
  }

  /** Closing steps either leaves the acceptor and proposer alone, or opens a later step with both cleared. */
  lemma {:induction false} ProcessClears(peer: Peer, step: nat, catchUp: bool)
    requires Valid(peer.paxos)
    ensures var p, p' := peer.paxos, Process(peer, step, catchUp).paxos;
            && p'.preparedFlag == p.preparedFlag && p'.clock >= p.clock
            && (p'.clock == p.clock ==>
                  && p'.maxID == p.maxID && p'.acceptedID == p.acceptedID && p'.acceptedValue == p.acceptedValue
                  && p'.promises == p.promises && p'.proposedValue == p.proposedValue && p'.accepts == p.accepts)
            && (p'.clock > p.clock ==>
                  && p'.maxID == 0 && p'.acceptedID == 0 && p'.acceptedValue == ZERO_VALUE && p'.promises == []
                  && p'.accepts == map[] && p'.proposedValue == ZERO_VALUE)
    decreases |Pending(peer.paxos)|
  {
    var (p', block) := Advance(peer.paxos, step);
    if block.Some? {
      var next := Tlc.Close(peer, p', block.value, step, catchUp);
      AdvanceShrinks(peer.paxos, step);
      assert Pending(next.paxos) == Pending(p');
      ProcessClears(next, step + 1, true);
    }
  }

  lemma {:induction false} CloseNode(cfg: Config, net: set<Packet>, i: nat, n: Node, tlc: TLC)
    requires NodeInv(cfg, net, i, n)
    ensures var n' := DoClose(cfg, n, tlc); NodeInv(cfg, net, i, n') && Grows(n, n')
  {
    hide SomeVote, Process, HeardInv, HeardGrows;
    var n' := DoClose(cfg, n, tlc);
    ProcessClears(n.peer.(paxos := OnTLC(n.peer.paxos, tlc, cfg.threshold)), n.peer.paxos.clock, false);
    HeardSame(net, n, n');
    if Clock(n') == Clock(n) {
      SameVoterKeeps(cfg, net, i, n, n');
    } else {
      NextStepNode(cfg, net, i, n, n');
    }
  }

  lemma {:induction false} NextStepNode(cfg: Config, net: set<Packet>, i: nat, n: Node, n': Node)
    requires NodeInv(cfg, net, i, n) && Clock(n') > Clock(n) && Valid(n'.peer.paxos)
    requires n' == n.(peer := n'.peer, inbox := []) && n'.peer.paxos.preparedFlag == n.peer.paxos.preparedFlag
    requires var p := n'.peer.paxos;
             p.maxID == 0 && p.acceptedID == 0 && p.acceptedValue == ZERO_VALUE && p.promises == []
    ensures NodeInv(cfg, net, i, n') && Grows(n, n')
  {
    hide SomeVote, Valid, HeardInv, HeardGrows;
    HeardSame(net, n, n');
  }

  lemma {:induction false} CloseKeeps(cfg: Config, s: Sys, i: nat, tlc: TLC)
    requires Sound(cfg) && cfg.total > 0 && Inv(cfg, s) && Enabled(cfg, Once, s, Close(i, tlc))
    ensures Inv(cfg, Step(cfg, Once, s, Close(i, tlc)))
  {
    hide NodeInv, Grows, DoClose;
    var n := s.nodes[i];
    var n' := DoClose(cfg, n, tlc);
    CloseNode(cfg, s.net, i, n, tlc);
    NodeStays(cfg, s.net, s.net + {}, i, n');
    OneNode(cfg, s, i, n', {});
  }

  lemma FinishNode(cfg: Config, net: set<Packet>, i: nat, n: Node)
    requires NodeInv(cfg, net, i, n)
    ensures NodeInv(cfg, net, i, DoFinish(n)) && Grows(n, DoFinish(n))
  {
    hide SomeVote, HeardInv, HeardGrows;
    HeardSame(net, n, DoFinish(n));
  }

  lemma {:induction false} FinishKeeps(cfg: Config, s: Sys, i: nat)
    requires Sound(cfg) && cfg.total > 0 && Inv(cfg, s) && Enabled(cfg, Once, s, Finish(i))
    ensures Inv(cfg, Step(cfg, Once, s, Finish(i)))
  {
    hide NodeInv, Grows, DoFinish;
    var n := s.nodes[i];
    FinishNode(cfg, s.net, i, n);
    NodeStays(cfg, s.net, s.net + {}, i, DoFinish(n));
    OneNode(cfg, s, i, DoFinish(n), {});
  }

  lemma {:induction false} StepKeeps(cfg: Config, s: Sys, e: Event)
    requires Sound(cfg) && cfg.total > 0 && Inv(cfg, s) && Enabled(cfg, Once, s, e)
    ensures Inv(cfg, Step(cfg, Once, s, e))
  {
    match e
    case Begin(i, round, value) => BeginKeeps(cfg, s, i, round, value);
    case Conclude(i) => ConcludeKeeps(cfg, s, i);
    case Finish(i) => FinishKeeps(cfg, s, i);
    case Close(i, tlc) => CloseKeeps(cfg, s, i, tlc);
    case Handle(i, pkt) =>
      match pkt.msg {
        case Prepare(_, _, _) => PrepareKeeps(cfg, s, i, pkt);
        case Promise(_, _, _, _) => PromiseKeeps(cfg, s, i, pkt);
        case Propose(_, _, _) => ProposeKeeps(cfg, s, i, pkt);
        case Accept(_, _, _) => AcceptKeeps(cfg, s, i, pkt);
      }
  }

  /** Every run of peers that attempt at most once a step keeps the invariant. */
  lemma {:induction false} RunKeeps(cfg: Config, rule: Rule, es: seq<Event>)
    requires Sound(cfg) && cfg.total > 0 && Legal(cfg, rule, es) && !rule.Free?
    ensures Inv(cfg, Run(cfg, rule, es))
  {
    hide Inv, Act, Enabled;
    if es == [] {
      StartKeeps(cfg);
    } else {
      var before := es[..|es| - 1];
      RunKeeps(cfg, rule, before);
      OncePermits(cfg, rule, Run(cfg, rule, before), es[|es| - 1]);
      StepKeeps(cfg, Run(cfg, rule, before), es[|es| - 1]);
    }
  }

  lemma OncePermits(cfg: Config, rule: Rule, s: Sys, e: Event)
    requires Enabled(cfg, rule, s, e) && !rule.Free?
    ensures Enabled(cfg, Once, s, e) && Step(cfg, Once, s, e) == Step(cfg, rule, s, e)
  {
    hide DoHandle, DoClose, DoConclude, DoBegin;
  }

  lemma StartKeeps(cfg: Config)
    requires Sound(cfg) && cfg.total > 0
    ensures Inv(cfg, Init(cfg))
  {
  }

  // ----- what a peer had heard when it began

  /** Nothing of a step, if it begins before it takes part. */
  ghost predicate Clear(n: Node) {
    forall step, pkt :: pkt in Prior(n, step) ==> pkt.msg.step != step
  }

  ghost predicate AllClear(s: Sys) {
    forall i {:trigger s.nodes[i]} :: 0 <= i < |s.nodes| ==> Clear(s.nodes[i])
  }

  lemma ActClear(cfg: Config, s: Sys, e: Event)
    requires Enabled(cfg, Early, s, e) && Clear(s.nodes[e.i])
    ensures Clear(Act(cfg, Early, s, e).0)
  {
    hide Act;
    OnlyBeginForgets(cfg, Early, s, e);
    var n, n' := s.nodes[e.i], Act(cfg, Early, s, e).0;
    assert e.Begin? ==> !TookPart(n, Clock(n));
    forall step, pkt | pkt in Prior(n', step)
      ensures pkt.msg.step != step
    {
      assert pkt in Prior(n, step) || (e.Begin? && step == Clock(n) && pkt in n.heard);
    }
  }

  lemma {:induction false} RunClear(cfg: Config, es: seq<Event>)
    requires Legal(cfg, Early, es)
    ensures AllClear(Run(cfg, Early, es))
  {
    hide Act, Clear, Enabled;
    if es == [] {
      NewClear();
    } else {
      var before, e := es[..|es| - 1], es[|es| - 1];
      RunClear(cfg, before);
      var s := Run(cfg, Early, before);
      assert e.i < |s.nodes| by {
        ActsInside(cfg, Early, s, e);
      }
      ActClear(cfg, s, e);
    }
  }

  lemma NewClear()
    ensures Clear(NEW_NODE)
  {
  }

  lemma ActsInside(cfg: Config, rule: Rule, s: Sys, e: Event)
    requires Enabled(cfg, rule, s, e)
    ensures e.i < cfg.total == |s.nodes| && Valid(s.nodes[e.i].peer.paxos)
  {
  }

  ghost predicate HeardOffer(n: Node, origin: nat, step: nat) {
    exists pkt :: pkt in Prior(n, step) && pkt.origin == origin && pkt.msg.Propose? && pkt.msg.step == step
  }

  ghost predicate HeardAsk(n: Node, origin: nat, step: nat) {
    exists pkt :: pkt in Prior(n, step) && pkt.origin == origin && pkt.msg.Prepare? && pkt.msg.step == step
  }

  /** No peer heard of its own attempt before it, and of two peers not both heard the other's before their own. */
  ghost predicate Ordered(s: Sys, i: nat, j: nat, step: nat)
    requires i < |s.nodes| && j < |s.nodes|
  {
    && !HeardOffer(s.nodes[i], i, step) && !HeardAsk(s.nodes[i], i, step)
    && !(HeardOffer(s.nodes[i], j, step) && HeardAsk(s.nodes[j], i, step))
  }

  ghost predicate AllOrdered(s: Sys) {
    forall i: nat, j: nat, step: nat {:trigger Ordered(s, i, j, step)} ::
      i < |s.nodes| && j < |s.nodes| ==> Ordered(s, i, j, step)
  }

  /** Before a peer's first attempt of a step there is neither a prepare nor a proposal of it. */
  lemma {:induction false} NothingBefore(cfg: Config, s: Sys, i: nat, j: nat, step: nat)
    requires cfg.total > 0 && Inv(cfg, s) && i < cfg.total && j < cfg.total && step !in s.nodes[j].attempted
    ensures !HeardOffer(s.nodes[i], j, step) && !HeardAsk(s.nodes[i], j, step)
    ensures forall pkt :: pkt in s.nodes[i].heard && pkt.origin == j && pkt.msg.step == step ==>
              !pkt.msg.Propose? && !pkt.msg.Prepare?
  {
    hide InboxInv, AcceptorInv, LearnedInv, Truthful, Backed, Justified;
    assert NodeInv(cfg, s.net, i, s.nodes[i]);
    forall pkt | pkt in s.nodes[i].heard && pkt.origin == j && pkt.msg.step == step
      ensures !pkt.msg.Propose? && !pkt.msg.Prepare?
    {
      assert PacketInv(cfg, s.nodes, s.net, pkt);
    }
    assert Prior(s.nodes[i], step) <= s.nodes[i].heard;
  }

  lemma SamePrior(n: Node, n': Node, origin: nat, step: nat)
    requires Prior(n', step) == Prior(n, step)
    ensures HeardOffer(n', origin, step) == HeardOffer(n, origin, step)
    ensures HeardAsk(n', origin, step) == HeardAsk(n, origin, step)
  {
  }

  lemma OnlyBeginForgets(cfg: Config, rule: Rule, s: Sys, e: Event)
    requires Enabled(cfg, rule, s, e)
    ensures var n, n' := s.nodes[e.i], Act(cfg, rule, s, e).0;
            if e.Begin? then n'.prior == n.prior[Clock(n) := n.heard] else n'.prior == n.prior
  {
    hide OnPrepare, OnPromise, OnPropose, OnAccept, HearAccept, Hear, Best, Reset;
  }

  lemma {:induction false} StepOrdered(cfg: Config, s: Sys, e: Event)
    requires cfg.total > 0 && Inv(cfg, s) && AllOrdered(s) && Enabled(cfg, Once, s, e)
    ensures AllOrdered(Step(cfg, Once, s, e))
  {
    hide Inv, HeardOffer, HeardAsk, Act;
    var n, s' := s.nodes[e.i], Step(cfg, Once, s, e);
    var n' := s'.nodes[e.i];
    OnlyBeginForgets(cfg, Once, s, e);
    forall i: nat, j: nat, step: nat | i < |s'.nodes| && j < |s'.nodes|
      ensures Ordered(s', i, j, step)
    {
      assert Ordered(s, i, j, step);
      if e.Begin? && step == Clock(n) && (i == e.i || j == e.i) {
        NothingBefore(cfg, s, e.i, e.i, step);
        FreshPrior(n', e.i, step);
        if i != e.i || j != e.i {
          var other := if i == e.i then j else i;
          NothingBefore(cfg, s, other, e.i, step);
        }
      } else {
        SamePrior(s.nodes[i], s'.nodes[i], i, step);
        SamePrior(s.nodes[i], s'.nodes[i], j, step);
        SamePrior(s.nodes[j], s'.nodes[j], i, step);
      }
    }
  }

  lemma FreshPrior(n: Node, i: nat, step: nat)
    requires forall pkt :: pkt in Prior(n, step) && pkt.origin == i && pkt.msg.step == step ==>
               !pkt.msg.Propose? && !pkt.msg.Prepare?
    ensures !HeardOffer(n, i, step) && !HeardAsk(n, i, step)
  {
  }

  lemma {:induction false} RunOrdered(cfg: Config, rule: Rule, es: seq<Event>)
    requires Sound(cfg) && cfg.total > 0 && Legal(cfg, rule, es) && !rule.Free?
    ensures AllOrdered(Run(cfg, rule, es))
  {
    hide Inv, Act, Ordered, Enabled;
    if es == [] {
      forall i: nat, j: nat, step: nat | i < cfg.total && j < cfg.total
        ensures Ordered(Init(cfg), i, j, step)
      {
        StartOrdered(cfg, i, j, step);
      }
    } else {
      var before := es[..|es| - 1];
      RunKeeps(cfg, rule, before);
      RunOrdered(cfg, rule, before);
      OncePermits(cfg, rule, Run(cfg, rule, before), es[|es| - 1]);
      StepOrdered(cfg, Run(cfg, rule, before), es[|es| - 1]);
    }
  }

  lemma StartOrdered(cfg: Config, i: nat, j: nat, step: nat)
    requires i < cfg.total && j < cfg.total
    ensures Ordered(Init(cfg), i, j, step)
  {
  }

  // ----- what is chosen stays chosen

  /** A quorum voted for a value under one id. */
  ghost predicate ChosenBy(cfg: Config, net: set<Packet>, q: set<nat>, step: nat, id: nat, v: PaxosValue) {
    q <= Peers(cfg.total) && |q| >= cfg.threshold && forall a :: a in q ==> Voted(net, a, step, id, v)
  }

  ghost predicate Chosen(cfg: Config, net: set<Packet>, step: nat, id: nat, v: PaxosValue) {
    exists q :: ChosenBy(cfg, net, q, step, id, v)
  }

  function Origins(backing: seq<Packet>): set<nat> {
    set k | 0 <= k < |backing| :: backing[k].origin
  }

  lemma {:induction false} OriginsSize(backing: seq<Packet>)
    requires forall j, k :: 0 <= j < k < |backing| ==> backing[j].origin != backing[k].origin
    ensures |Origins(backing)| == |backing|
  {
    if backing != [] {
      var last := |backing| - 1;
      OriginsSize(backing[..last]);
      assert Origins(backing) == Origins(backing[..last]) + {backing[last].origin};
    }
  }

  /** A vote means its id's owner proposed the value under that id. */
  lemma VoteWasProposed(cfg: Config, s: Sys, a: nat, step: nat, id: nat, v: PaxosValue)
    requires cfg.total > 0 && Inv(cfg, s) && Voted(s.net, a, step, id, v)
    ensures id > 0 && Proposed(s.net, Owner(cfg.total, id), step, id, v)
  {
    assert PacketInv(cfg, s.nodes, s.net, Packet(a, None, Accept(step, id, v)));
  }

  /** All that one peer proposes in a step is one value. */
  lemma OneProposal(cfg: Config, s: Sys, p: nat, step: nat, id: nat, v: PaxosValue, p': nat, id': nat, v': PaxosValue)
    requires cfg.total > 0 && Inv(cfg, s)
    requires Proposed(s.net, p, step, id, v) && Proposed(s.net, p', step, id', v')
    requires id == id' || p == p'
    ensures v == v' && id == id' && p == p'
  {
    assert PacketInv(cfg, s.nodes, s.net, Packet(p, None, Propose(step, id, v)));
    assert PacketInv(cfg, s.nodes, s.net, Packet(p', None, Propose(step, id', v')));
  }

  /** The peer x voted for a value under an id, stands behind a proposal under id', and forgot neither. */
  ghost predicate Recalls(cfg: Config, s: Sys, x: nat, p: nat, step: nat, id: nat, v: PaxosValue, id': nat)
    requires cfg.total > 0
  {
    && x < |s.nodes| && p < |s.nodes| && Voted(s.net, x, step, id, v)
    && step in s.nodes[p].backing && x in Origins(s.nodes[p].backing[step])
    && OfferOf(cfg.total, step, id, v) !in Prior(s.nodes[x], step)
    && AskOf(cfg.total, step, id') !in Prior(s.nodes[x], step)
  }

  /** A proposal above an id that such a peer voted for carries the value of a vote at that id or above it, and
      still below the proposal. */
  lemma {:induction false} ReportsVote(cfg: Config, s: Sys, p: nat, step: nat, id': nat, v': PaxosValue, x: nat,
        id: nat, v: PaxosValue)
      returns (a: nat, top: nat)
    requires cfg.total > 0 && Inv(cfg, s) && Proposed(s.net, p, step, id', v') && id < id'
    requires Recalls(cfg, s, x, p, step, id, v, id')
    ensures id <= top < id' && Voted(s.net, a, step, top, v')
  {
    hide Prior, NodeInv;
    assert PacketInv(cfg, s.nodes, s.net, Packet(p, None, Propose(step, id', v')));
    var backing := s.nodes[p].backing[step];
    VoteWasProposed(cfg, s, x, step, id, v);
    var j :| 0 <= j < |backing| && backing[j].origin == x;
    forall k | 0 <= k < |backing|
      ensures PromiseFor(cfg, s.net, p, step, id', backing[k])
      ensures var a := backing[k].origin;
              a < cfg.total && Truthful(cfg.total, s.net, Prior(s.nodes[a], step), a, backing[k].msg)
    {
      assert PromiseFor(cfg, s.net, p, step, id', backing[k]);
      assert PacketInv(cfg, s.nodes, s.net, backing[k]);
    }
    assert Truthful(cfg.total, s.net, Prior(s.nodes[x], step), x, backing[j].msg);
    assert Reported(backing[j]) >= id;
    var k :| 0 <= k < |backing| && backing[k].msg.acceptedValue == Some(v')
             && forall j :: 0 <= j < |backing| ==> Reported(backing[j]) <= Reported(backing[k]);
    a, top := backing[k].origin, backing[k].msg.acceptedID;
  }

  /** Behind every proposal above the id stands such a peer. */
  ghost predicate AllRecall(cfg: Config, s: Sys, step: nat, id: nat, v: PaxosValue)
    requires cfg.total > 0
  {
    forall p: nat, id': nat, v' {:trigger Proposed(s.net, p, step, id', v')} ::
      Proposed(s.net, p, step, id', v') && id < id' ==>
        exists x :: Recalls(cfg, s, x, p, step, id, v, id')
  }

  lemma {:induction false} RecalledStays(cfg: Config, s: Sys, a: nat, step: nat, id: nat, v: PaxosValue, p: nat,
        id': nat, v': PaxosValue)
    requires cfg.total > 0 && Inv(cfg, s) && Voted(s.net, a, step, id, v) && AllRecall(cfg, s, step, id, v)
    requires Proposed(s.net, p, step, id', v') && id <= id'
    ensures v' == v
    decreases id'
  {
    hide Inv, Recalls;
    if id == id' {
      VoteWasProposed(cfg, s, a, step, id, v);
      OneProposal(cfg, s, Owner(cfg.total, id), step, id, v, p, id', v');
    } else {
      var x :| Recalls(cfg, s, x, p, step, id, v, id');
      var b, top := ReportsVote(cfg, s, p, step, id', v', x, id, v);
      VoteWasProposed(cfg, s, b, step, top, v');
      RecalledStays(cfg, s, a, step, id, v, Owner(cfg.total, top), top, v');
    }
  }

  /** The peers that stand behind a proposal. */
  lemma {:induction false} ProposalBacked(cfg: Config, s: Sys, p: nat, step: nat, id: nat, v: PaxosValue)
    requires cfg.total > 0 && Inv(cfg, s) && Proposed(s.net, p, step, id, v)
    ensures p < cfg.total == |s.nodes| && step in s.nodes[p].backing && p == Owner(cfg.total, id)
    ensures var q := Origins(s.nodes[p].backing[step]); q <= Peers(cfg.total) && |q| >= cfg.threshold
  {
    hide Peers, NodeInv, Justified;
    assert PacketInv(cfg, s.nodes, s.net, Packet(p, None, Propose(step, id, v)));
    var backing := s.nodes[p].backing[step];
    assert forall k :: 0 <= k < |backing| ==> PromiseFor(cfg, s.net, p, step, id, backing[k]);
    OriginsSize(backing);
  }

  /** Every quorum has a member in q. */
  ghost predicate Meets(cfg: Config, q: set<nat>) {
    forall r: set<nat> {:trigger r <= Peers(cfg.total)} ::
      r <= Peers(cfg.total) && |r| >= cfg.threshold ==> exists x :: x in q && x in r
  }

  lemma QuorumMeets(cfg: Config, q: set<nat>)
    requires Sound(cfg) && q <= Peers(cfg.total) && |q| >= cfg.threshold
    ensures Meets(cfg, q)
  {
    hide Peers;
    forall r: set<nat> | r <= Peers(cfg.total) && |r| >= cfg.threshold
      ensures exists x :: x in q && x in r
    {
      var x := QuorumsMeet(cfg.total, q, r, {});
    }
  }

  /** When peers begin before they take part: once peers that every quorum meets voted for a value under an id,
      every proposal of the step under that id or a higher one is for that value. */
  lemma {:induction false} VotesStay(cfg: Config, s: Sys, q: set<nat>, step: nat, id: nat, v: PaxosValue, p: nat,
        id': nat, v': PaxosValue)
    requires cfg.total > 0 && Inv(cfg, s) && AllClear(s) && q != {} && q <= Peers(cfg.total) && Meets(cfg, q)
    requires (forall a :: a in q ==> Voted(s.net, a, step, id, v)) && Proposed(s.net, p, step, id', v') && id <= id'
    ensures v' == v
  {
    hide Peers, Inv, Clear;
    forall p: nat, id': nat, v' | Proposed(s.net, p, step, id', v') && id < id'
      ensures exists x :: Recalls(cfg, s, x, p, step, id, v, id')
    {
      ProposalBacked(cfg, s, p, step, id', v');
      var x :| x in q && x in Origins(s.nodes[p].backing[step]);
      ClearRecalls(cfg, s.nodes[x], step, id, v, id');
      assert Recalls(cfg, s, x, p, step, id, v, id');
    }
    var a :| a in q;
    RecalledStays(cfg, s, a, step, id, v, p, id', v');
  }

  lemma ClearRecalls(cfg: Config, n: Node, step: nat, id: nat, v: PaxosValue, id': nat)
    requires cfg.total > 0 && Clear(n)
    ensures OfferOf(cfg.total, step, id, v) !in Prior(n, step) && AskOf(cfg.total, step, id') !in Prior(n, step)
  {
    hide Prior, Owner;
    assert OfferOf(cfg.total, step, id, v).msg.step == AskOf(cfg.total, step, id').msg.step == step;
  }

  /** Ballot safety: in every run of peers that begin before they take part, once a quorum voted for a value under
      an id, every proposal of the step under that id or a higher one is for that value. */
  lemma {:induction false} ChosenStays(cfg: Config, es: seq<Event>, step: nat, id: nat, v: PaxosValue, p: nat,
        id': nat, v': PaxosValue)
    requires Sound(cfg) && cfg.total > 0 && Legal(cfg, Early, es)
    requires Chosen(cfg, Run(cfg, Early, es).net, step, id, v)
    requires Proposed(Run(cfg, Early, es).net, p, step, id', v') && id <= id'
    ensures v' == v
  {
    hide Inv, AllClear, Meets;
    RunKeeps(cfg, Early, es);
    RunClear(cfg, es);
    var s := Run(cfg, Early, es);
    var q :| ChosenBy(cfg, s.net, q, step, id, v);
    QuorumMeets(cfg, q);
    VotesStay(cfg, s, q, step, id, v, p, id', v');
  }

  /** When they begin at any time but once a step: the same once everybody voted. The proposer of the higher id
      either voted after it began, or heard of the lower id before that; then the proposer of the lower id had
      begun before, and remembers both. */
  lemma {:induction false} EveryVoteStays(cfg: Config, s: Sys, step: nat, id: nat, v: PaxosValue, p: nat, id': nat,
        v': PaxosValue)
    requires 0 < cfg.total <= cfg.threshold && Inv(cfg, s) && AllOrdered(s)
    requires forall a :: a in Peers(cfg.total) ==> Voted(s.net, a, step, id, v)
    requires Proposed(s.net, p, step, id', v') && id <= id'
    ensures v' == v
  {
    hide Peers, Inv, Ordered;
    var z := Owner(cfg.total, id);
    forall p: nat, id': nat, v' | Proposed(s.net, p, step, id', v') && id < id'
      ensures exists x :: Recalls(cfg, s, x, p, step, id, v, id')
    {
      ProposalBacked(cfg, s, p, step, id', v');
      EverybodyIn(cfg, Origins(s.nodes[p].backing[step]));
      assert Ordered(s, p, p, step) && Ordered(s, p, z, step) && Ordered(s, z, z, step);
      OneRecalls(cfg, s, p, z, step, id, v, id');
      var x := if OfferOf(cfg.total, step, id, v) in Prior(s.nodes[p], step) then z else p;
      assert Recalls(cfg, s, x, p, step, id, v, id');
    }
    assert 0 in Peers(cfg.total);
    RecalledStays(cfg, s, 0, step, id, v, p, id', v');
  }

  lemma OneRecalls(cfg: Config, s: Sys, p: nat, z: nat, step: nat, id: nat, v: PaxosValue, id': nat)
    requires cfg.total > 0 && p < |s.nodes| && z < |s.nodes| && z == Owner(cfg.total, id) && p == Owner(cfg.total, id')
    requires Ordered(s, p, p, step) && Ordered(s, p, z, step) && Ordered(s, z, z, step)
    ensures var x := if OfferOf(cfg.total, step, id, v) in Prior(s.nodes[p], step) then z else p;
            && OfferOf(cfg.total, step, id, v) !in Prior(s.nodes[x], step)
            && AskOf(cfg.total, step, id') !in Prior(s.nodes[x], step)
  {
    hide Prior, Owner;
    var offer, ask := OfferOf(cfg.total, step, id, v), AskOf(cfg.total, step, id');
    assert offer.origin == z && ask.origin == p;
  }

  lemma EverybodyIn(cfg: Config, q: set<nat>)
    requires q <= Peers(cfg.total) && |q| >= cfg.threshold >= cfg.total
    ensures q == Peers(cfg.total)
  {
    hide Peers;
    PeersSize(cfg.total);
    if x :| x in Peers(cfg.total) && x !in q {
      SubsetSize(q, Peers(cfg.total) - {x});
    }
  }

  /** In no run are two values chosen in one step, under whatever ids, if peers begin before they take part, or at
      any time but once a step and a quorum is everybody. */
  lemma {:induction false} ChosenUnique(cfg: Config, rule: Rule, es: seq<Event>, step: nat, id: nat, v: PaxosValue,
        id': nat, v': PaxosValue)
    requires Sound(cfg) && cfg.total > 0 && Legal(cfg, rule, es)
    requires rule.Early? || (rule.Once? && cfg.threshold >= cfg.total)
    requires Chosen(cfg, Run(cfg, rule, es).net, step, id, v) && Chosen(cfg, Run(cfg, rule, es).net, step, id', v')
    ensures v == v'
  {
    hide Inv, AllOrdered, Peers, Run, Legal;
    if id > id' {
      ChosenUnique(cfg, rule, es, step, id', v', id, v);
    } else {
      RunKeeps(cfg, rule, es);
      var s := Run(cfg, rule, es);
      var r :| ChosenBy(cfg, s.net, r, step, id', v');
      assert r != {};
      var a :| a in r;
      VoteWasProposed(cfg, s, a, step, id', v');
      if rule.Early? {
        ChosenStays(cfg, es, step, id, v, Owner(cfg.total, id'), id', v');
      } else {
        RunOrdered(cfg, rule, es);
        var q :| ChosenBy(cfg, s.net, q, step, id, v);
        EverybodyIn(cfg, q);
        EveryVoteStays(cfg, s, step, id, v, Owner(cfg.total, id'), id', v');
      }
    }
  }
}
