/** The block chains of all peers, when they hear no TLC message but those that peers sent. */
module PaxosLedger {
  import opened Common
  import opened Bytes
  import opened Chain
  import opened PaxosNode
  import opened Tlc
  import opened PaxosRun
  import opened PaxosLimits
  import opened PaxosCounts

  /** Where a TLC message came from: the m-th that a peer sent. */
  type Source = (nat, nat)

  function HeardFrom(es: seq<Event>, from: seq<Source>, i: nat): set<Source>
    requires |from| == |es|
  {
    if es == [] then {}
    else
      var last := |es| - 1;
      HeardFrom(es[..last], from[..last], i) + if es[last].Close? && es[last].i == i then {from[last]} else {}
  }

  ghost predicate Announced(s: Sys, src: Source, tlc: TLC) {
    src.0 < |s.nodes| && src.1 < |s.nodes[src.0].peer.sent| && s.nodes[src.0].peer.sent[src.1] == tlc
  }

  /** Every TLC message heard was sent, and each peer hears each of them at most once. */
  ghost predicate Authentic(cfg: Config, rule: Rule, es: seq<Event>, from: seq<Source>)
    requires Legal(cfg, rule, es) && |from| == |es|
  {
    es == [] ||
    var last := |es| - 1;
    && Authentic(cfg, rule, es[..last], from[..last])
    && (es[last].Close? ==>
          && Announced(Run(cfg, rule, es[..last]), from[last], es[last].tlc)
          && from[last] !in HeardFrom(es[..last], from[..last], es[last].i))
  }

  ghost predicate Honest(cfg: Config, rule: Rule, es: seq<Event>, from: seq<Source>) {
    Legal(cfg, rule, es) && |from| == |es| && Authentic(cfg, rule, es, from)
  }

  /** Two peers closed as many steps and have different chains. */
  ghost predicate Fork(s: Sys, i: nat, j: nat) {
    && i < |s.nodes| && j < |s.nodes| && Clock(s.nodes[i]) == Clock(s.nodes[j])
    && s.nodes[i].peer.chain != s.nodes[j].peer.chain
  }

  ghost predicate ChainsAgree(cfg: Config, rule: Rule) {
    forall es, from, i, j :: Honest(cfg, rule, es, from) ==> !Fork(Run(cfg, rule, es), i, j)
  }

  // ----- one value a step gives one chain

  /** The block of a step, given the value of every step. */
  function BlockAt(h: HashFn, v: nat -> PaxosValue, s: nat): Block {
    MakeBlock(h, v(s), s, if s == 0 then ZERO_HASH else BlockAt(h, v, s - 1).hash)
  }

  function BlockOf(h: HashFn, v: nat -> PaxosValue): nat -> Block {
    (s: nat) => BlockAt(h, v, s)
  }

  lemma NextBlock(h: HashFn, v: nat -> PaxosValue, c: nat)
    ensures GetBlock(h, ChainUpTo(BlockOf(h, v), c), v(c), c) == BlockAt(h, v, c)
  {
  }

  /** What a peer holds and announced is the one chain's. */
  ghost predicate PeerLedger(h: HashFn, v: nat -> PaxosValue, peer: Peer) {
    && Closed(peer, BlockOf(h, v))
    && (forall s: nat {:trigger TlcsAt(peer.paxos.tlcs, s)} :: s >= peer.paxos.clock ==>
          forall b :: b in TlcsAt(peer.paxos.tlcs, s) ==> b == BlockAt(h, v, s))
    && (forall k :: 0 <= k < |peer.sent| ==> peer.sent[k].block == BlockAt(h, v, peer.sent[k].step))
  }

  /** What a peer accepted for the step it is in, its count settled on. */
  ghost predicate Remembers(n: Node) {
    var p := n.peer.paxos;
    && (forall s :: s in n.learned ==> s in p.acceptedMap)
    && (forall s :: s in p.acceptedMap ==> s <= p.clock)
    && (p.clock in p.acceptedMap ==> p.clock in n.learned && n.learned[p.clock] == p.acceptedMap[p.clock])
  }

  ghost predicate Fits(v: nat -> PaxosValue, n: Node) {
    forall s :: s in n.learned ==> n.learned[s] == v(s)
  }

  ghost predicate LearnedMore(n: Node, n': Node) {
    forall s :: s in n.learned ==> s in n'.learned && n'.learned[s] == n.learned[s]
  }

  lemma {:induction false} ProcessLedger(h: HashFn, v: nat -> PaxosValue, peer: Peer, catchUp: bool)
    requires Valid(peer.paxos) && PeerLedger(h, v, peer)
    ensures PeerLedger(h, v, Process(peer, peer.paxos.clock, catchUp))
    decreases |Pending(peer.paxos)|
  {
    hide PeerLedger, Pending, Valid, Tlc.Close;
    var step := peer.paxos.clock;
    var (p', block) := Advance(peer.paxos, step);
    if block.Some? {
      var next := Tlc.Close(peer, p', block.value, step, catchUp);
      AdvanceShrinks(peer.paxos, step);
      CloseLeaves(peer, p', block.value, step, catchUp);
      CloseLedger(h, v, peer, catchUp);
      ProcessLedger(h, v, next, true);
    }
  }

  lemma FirstBlock(p: Paxos)
    requires Valid(p) && Advance(p, p.clock).1.Some?
    ensures Advance(p, p.clock).1.value in TlcsAt(p.tlcs, p.clock)
    ensures Advance(p, p.clock).0.tlcs == p.tlcs && Advance(p, p.clock).0.clock == p.clock + 1
  {
  }

  lemma CloseParts(peer: Peer, p': Paxos, b: Block, step: nat, catchUp: bool)
    ensures var next := Tlc.Close(peer, p', b, step, catchUp);
            && next.chain == AddBlock(peer.chain, b) && next.naming == peer.naming[b.value.filename := b.value.metahash]
            && (next.sent == peer.sent || next.sent == peer.sent + [TLC(step, b)])
            && next.paxos.tlcs == p'.tlcs && next.paxos.clock == p'.clock
  {
  }

  /** Closing one step. */
  lemma {:induction false} CloseLedger(h: HashFn, v: nat -> PaxosValue, peer: Peer, catchUp: bool)
    requires Valid(peer.paxos) && PeerLedger(h, v, peer) && Advance(peer.paxos, peer.paxos.clock).1.Some?
    ensures var (p', block) := Advance(peer.paxos, peer.paxos.clock);
            var next := Tlc.Close(peer, p', block.value, peer.paxos.clock, catchUp);
            PeerLedger(h, v, next) && next.paxos.clock == peer.paxos.clock + 1
  {
    hide BlockAt, AddBlock, Tlc.Close, TlcsAt, Advance;
    var step := peer.paxos.clock;
    var (p', block) := Advance(peer.paxos, step);
    FirstBlock(peer.paxos);
    CloseParts(peer, p', block.value, step, catchUp);
    assert block.value in TlcsAt(peer.paxos.tlcs, step);
    assert block.value == BlockAt(h, v, step) == BlockOf(h, v)(step);
  }

  /** Closing steps accepts a value for the first of them at most. */
  lemma {:induction false} ProcessRemembers(peer: Peer, catchUp: bool)
    requires Valid(peer.paxos)
    ensures var p, p' := peer.paxos, Process(peer, peer.paxos.clock, catchUp).paxos;
            && (forall s :: s in p.acceptedMap ==> s in p'.acceptedMap)
            && (forall s :: s in p'.acceptedMap ==> s in p.acceptedMap || (!catchUp && s == p.clock))
            && p.clock <= p'.clock && (p'.clock == p.clock ==> p'.acceptedMap == p.acceptedMap)
    decreases |Pending(peer.paxos)|
  {
    hide Pending, Valid, AddBlock;
    var step := peer.paxos.clock;
    var (p', block) := Advance(peer.paxos, step);
    if block.Some? {
      AdvanceShrinks(peer.paxos, step);
      CloseLeaves(peer, p', block.value, step, catchUp);
      ProcessRemembers(Tlc.Close(peer, p', block.value, step, catchUp), true);
    }
  }

  // ----- each event

  lemma {:induction false} CloseEvent(cfg: Config, v: nat -> PaxosValue, n: Node, tlc: TLC)
    requires Valid(n.peer.paxos) && PeerLedger(cfg.h, v, n.peer) && tlc.block == BlockAt(cfg.h, v, tlc.step)
    ensures PeerLedger(cfg.h, v, DoClose(cfg, n, tlc).peer)
  {
    hide Process, BlockAt;
    var heard := n.peer.(paxos := OnTLC(n.peer.paxos, tlc, cfg.threshold));
    forall s: nat, b | s >= Clock(n) && b in TlcsAt(heard.paxos.tlcs, s)
      ensures b == BlockAt(cfg.h, v, s)
    {
      HeardAt(n.peer.paxos, tlc, cfg.threshold, s);
    }
    ProcessLedger(cfg.h, v, heard, false);
  }

  lemma {:induction false} CloseRemembers(cfg: Config, n: Node, tlc: TLC)
    requires Valid(n.peer.paxos) && Remembers(n)
    ensures Remembers(DoClose(cfg, n, tlc)) && LearnedMore(n, DoClose(cfg, n, tlc))
  {
    hide Process;
    ProcessRemembers(n.peer.(paxos := OnTLC(n.peer.paxos, tlc, cfg.threshold)), false);
  }

  lemma {:induction false} AcceptEvent(cfg: Config, v: nat -> PaxosValue, n: Node, i: nat, pkt: Packet)
    requires pkt.msg.Accept? && PeerLedger(cfg.h, v, n.peer) && Remembers(n)
    requires Fits(v, DoHandle(cfg, n, i, pkt).0)
    ensures PeerLedger(cfg.h, v, DoHandle(cfg, n, i, pkt).0.peer)
  {
    hide GetBlock;
    var n' := DoHandle(cfg, n, i, pkt).0;
    AcceptRemembers(cfg, n, i, pkt);
    NextBlock(cfg.h, v, Clock(n));
    if OnAccept(n.peer.paxos, pkt.msg, cfg.threshold).1.Some? {
      assert Clock(n) in n'.learned;
    }
  }

  lemma {:induction false} AcceptRemembers(cfg: Config, n: Node, i: nat, pkt: Packet)
    requires pkt.msg.Accept? && Remembers(n)
    ensures Remembers(DoHandle(cfg, n, i, pkt).0) && LearnedMore(n, DoHandle(cfg, n, i, pkt).0)
  {
    hide GetBlock;
  }

  /** Nothing but an accept or a TLC message touches chain, names, announcements or decisions. */
  ghost predicate SameLedger(n: Node, n': Node) {
    var p, p' := n.peer.paxos, n'.peer.paxos;
    && n'.peer.chain == n.peer.chain && n'.peer.naming == n.peer.naming && n'.peer.sent == n.peer.sent
    && p'.clock == p.clock && p'.tlcs == p.tlcs && p'.acceptedMap == p.acceptedMap && n'.learned == n.learned
  }

  ghost predicate SameDecisions(p: Paxos, p': Paxos) {
    p'.clock == p.clock && p'.tlcs == p.tlcs && p'.acceptedMap == p.acceptedMap
  }

  lemma VoterSame(p: Paxos, m: Msg, threshold: nat)
    ensures m.Prepare? ==> SameDecisions(p, OnPrepare(p, m).0)
    ensures m.Promise? ==> SameDecisions(p, OnPromise(p, m, threshold))
    ensures m.Propose? ==> SameDecisions(p, OnPropose(p, m).0)
  {
  }

  lemma VoteSame(cfg: Config, n: Node, i: nat, pkt: Packet)
    requires !pkt.msg.Accept?
    ensures SameLedger(n, DoHandle(cfg, n, i, pkt).0)
  {
    hide OnPrepare, OnPromise, OnPropose, HearAccept, OnAccept;
    VoterSame(n.peer.paxos, pkt.msg, cfg.threshold);
  }

  lemma BeginSame(cfg: Config, n: Node, i: nat, round: nat, value: PaxosValue)
    ensures SameLedger(n, DoBegin(cfg, n, i, round, value).0)
  {
  }

  lemma ConcludeSame(n: Node, i: nat)
    requires Valid(n.peer.paxos) && n.waiting.Some? && PromiseValue(n.peer.paxos, n.waiting.value.0).Some?
    ensures SameLedger(n, DoConclude(n, i).0)
  {
  }

  lemma FinishSame(n: Node)
    ensures SameLedger(n, DoFinish(n))
  {
  }

  lemma {:induction false} OtherEvent(cfg: Config, rule: Rule, s: Sys, e: Event)
    requires Enabled(cfg, rule, s, e) && !e.Close? && (e.Handle? ==> !e.pkt.msg.Accept?)
    ensures SameLedger(s.nodes[e.i], Act(cfg, rule, s, e).0)
  {
    hide SameLedger, DoHandle, DoBegin, DoConclude, DoFinish;
    var n := s.nodes[e.i];
    match e
    case Begin(i, round, value) => BeginSame(cfg, n, i, round, value);
    case Conclude(i) => ConcludeSame(n, i);
    case Finish(_) => FinishSame(n);
    case Handle(i, pkt) => VoteSame(cfg, n, i, pkt);
  }

  lemma {:induction false} ActRemembers(cfg: Config, rule: Rule, s: Sys, e: Event)
    requires Enabled(cfg, rule, s, e) && Remembers(s.nodes[e.i])
    ensures Remembers(Act(cfg, rule, s, e).0) && LearnedMore(s.nodes[e.i], Act(cfg, rule, s, e).0)
  {
    hide DoHandle, DoClose, DoBegin, DoConclude;
    var n := s.nodes[e.i];
    if e.Close? {
      CloseRemembers(cfg, n, e.tlc);
    } else if e.Handle? && e.pkt.msg.Accept? {
      AcceptRemembers(cfg, n, e.i, e.pkt);
    } else {
      OtherEvent(cfg, rule, s, e);
    }
  }

  lemma {:induction false} ActLedger(cfg: Config, rule: Rule, v: nat -> PaxosValue, s: Sys, e: Event)
    requires Enabled(cfg, rule, s, e) && PeerLedger(cfg.h, v, s.nodes[e.i].peer) && Remembers(s.nodes[e.i])
    requires Fits(v, Act(cfg, rule, s, e).0)
    requires e.Close? ==> e.tlc.block == BlockAt(cfg.h, v, e.tlc.step)
    ensures PeerLedger(cfg.h, v, Act(cfg, rule, s, e).0.peer)
  {
    hide DoHandle, DoClose, DoBegin, DoConclude;
    var n := s.nodes[e.i];
    if e.Close? {
      CloseEvent(cfg, v, n, e.tlc);
    } else if e.Handle? && e.pkt.msg.Accept? {
      AcceptEvent(cfg, v, n, e.i, e.pkt);
    } else {
      OtherEvent(cfg, rule, s, e);
    }
  }

  // ----- every run

  ghost predicate AllRemember(cfg: Config, s: Sys) {
    |s.nodes| == cfg.total && forall i {:trigger s.nodes[i]} :: 0 <= i < cfg.total ==> Remembers(s.nodes[i])
  }

  ghost predicate AllFit(v: nat -> PaxosValue, s: Sys) {
    forall i {:trigger s.nodes[i]} :: 0 <= i < |s.nodes| ==> Fits(v, s.nodes[i])
  }

  ghost predicate AllLedger(cfg: Config, v: nat -> PaxosValue, s: Sys) {
    |s.nodes| == cfg.total && forall i {:trigger s.nodes[i]} :: 0 <= i < cfg.total ==>
          PeerLedger(cfg.h, v, s.nodes[i].peer)
  }

  lemma {:induction false} RunRemembers(cfg: Config, rule: Rule, es: seq<Event>)
    requires Legal(cfg, rule, es)
    ensures AllRemember(cfg, Run(cfg, rule, es))
  {
    hide Act, Remembers;
    if es == [] {
      NewRemembers();
    } else {
      var before, e := es[..|es| - 1], es[|es| - 1];
      RunRemembers(cfg, rule, before);
      ActRemembers(cfg, rule, Run(cfg, rule, before), e);
    }
  }

  lemma NewRemembers()
    ensures Remembers(NEW_NODE)
  {
  }

  /** Values that fit what was learned in the end fit it all along. */
  lemma {:induction false} FitsBefore(cfg: Config, rule: Rule, v: nat -> PaxosValue, s: Sys, e: Event)
    requires Enabled(cfg, rule, s, e) && AllRemember(cfg, s) && AllFit(v, Step(cfg, rule, s, e))
    ensures AllFit(v, s) && Fits(v, Act(cfg, rule, s, e).0)
  {
    hide Act, Remembers;
    ActRemembers(cfg, rule, s, e);
    var s' := Step(cfg, rule, s, e);
    assert s'.nodes[e.i] == Act(cfg, rule, s, e).0;
    forall i | 0 <= i < |s.nodes|
      ensures Fits(v, s.nodes[i])
    {
      assert i != e.i ==> s'.nodes[i] == s.nodes[i];
    }
  }

  lemma {:induction false} LedgerKeeps(cfg: Config, rule: Rule, es: seq<Event>, from: seq<Source>, v: nat -> PaxosValue)
    requires Honest(cfg, rule, es, from) && AllFit(v, Run(cfg, rule, es))
    ensures AllLedger(cfg, v, Run(cfg, rule, es))
  {
    hide Act, Fits, PeerLedger, Enabled, AllFit;
    if es == [] {
      NewLedger(cfg.h, v);
    } else {
      var last := |es| - 1;
      var before, e := es[..last], es[last];
      var s := Run(cfg, rule, before);
      RunRemembers(cfg, rule, before);
      ActsOnPeer(cfg, rule, s, e);
      FitsBefore(cfg, rule, v, s, e);
      LedgerKeeps(cfg, rule, before, from[..last], v);
      if e.Close? {
        AnnouncedLedger(cfg, v, s, from[last], e.tlc);
      }
      ActLedger(cfg, rule, v, s, e);
    }
  }

  lemma ActsOnPeer(cfg: Config, rule: Rule, s: Sys, e: Event)
    requires Enabled(cfg, rule, s, e)
    ensures e.i < cfg.total && |s.nodes| == cfg.total
  {
  }

  lemma NewLedger(h: HashFn, v: nat -> PaxosValue)
    ensures PeerLedger(h, v, NEW_PEER)
  {
  }

  lemma AnnouncedLedger(cfg: Config, v: nat -> PaxosValue, s: Sys, src: Source, tlc: TLC)
    requires AllLedger(cfg, v, s) && Announced(s, src, tlc)
    ensures tlc.block == BlockAt(cfg.h, v, tlc.step)
  {
    assert PeerLedger(cfg.h, v, s.nodes[src.0].peer);
  }

  /** Where counts settle on one value, there is one for each step that some peer settled. */
  lemma {:induction false} OneValue(cfg: Config, rule: Rule, es: seq<Event>) returns (v: nat -> PaxosValue)
    requires Sound(cfg) && cfg.total > 0 && CountsSettle(cfg, rule) && Legal(cfg, rule, es)
    ensures AllFit(v, Run(cfg, rule, es))
  {
    hide Run, Legal;
    var s := Run(cfg, rule, es);
    v := (step: nat) => ValueOf(s, step);
    forall i | 0 <= i < |s.nodes|
      ensures Fits(v, s.nodes[i])
    {
      forall step | step in s.nodes[i].learned
        ensures s.nodes[i].learned[step] == v(step)
      {
        var w := s.nodes[i].learned[step];
        assert Settled(s, i, step, w);
        var j :| Settled(s, j, step, ValueOf(s, step));
        SettledAgree(cfg, rule, es, i, j, step, w, ValueOf(s, step));
      }
    }
  }

  ghost function ValueOf(s: Sys, step: nat): (v: PaxosValue)
    ensures (exists i, w :: Settled(s, i, step, w)) ==> exists j :: Settled(s, j, step, v)
  {
    if exists i, w :: Settled(s, i, step, w) then
      var i, w :| Settled(s, i, step, w);
      w
    else ZERO_VALUE
  }

  /** The first values, as a list. */
  function First(v: nat -> PaxosValue, n: nat): seq<PaxosValue> {
    seq(n, (s: nat) => v(s))
  }

  lemma {:induction false} BlocksAreAt(h: HashFn, v: nat -> PaxosValue, n: nat)
    ensures forall s: nat :: s < n ==> Blocks(h, First(v, n))[s] == BlockAt(h, v, s)
  {
    if n > 0 {
      BlocksAreAt(h, v, n - 1);
      assert First(v, n)[..n - 1] == First(v, n - 1);
    }
  }

  lemma {:induction false} ChainIsBuilt(h: HashFn, v: nat -> PaxosValue, n: nat)
    ensures ChainUpTo(BlockOf(h, v), n) == Built(h, First(v, n))
  {
    BlocksAreAt(h, v, n);
    ChainUpToIsBuilt(h, First(v, n), BlockOf(h, v), n);
    assert First(v, n)[..n] == First(v, n);
  }

  /** Where counts settle on one value, all peers build one chain: there is one value a step, and each peer's store
      is the one that appending the values of the steps it closed builds. */
  lemma {:induction false} OneChain(cfg: Config, rule: Rule, es: seq<Event>, from: seq<Source>)
      returns (v: nat -> PaxosValue)
    requires Sound(cfg) && cfg.total > 0 && CountsSettle(cfg, rule) && Honest(cfg, rule, es, from)
    ensures |Run(cfg, rule, es).nodes| == cfg.total
    ensures forall i {:trigger Run(cfg, rule, es).nodes[i]} :: 0 <= i < cfg.total ==>
              var peer := Run(cfg, rule, es).nodes[i].peer;
              peer.chain == Built(cfg.h, First(v, peer.paxos.clock))
  {
    hide Run, Legal, Built;
    v := OneValue(cfg, rule, es);
    LedgerKeeps(cfg, rule, es, from, v);
    var s := Run(cfg, rule, es);
    forall i | 0 <= i < cfg.total
      ensures s.nodes[i].peer.chain == Built(cfg.h, First(v, s.nodes[i].peer.paxos.clock))
    {
      assert PeerLedger(cfg.h, v, s.nodes[i].peer);
      ChainIsBuilt(cfg.h, v, s.nodes[i].peer.paxos.clock);
    }
  }

  // ----- two chains

  lemma {:induction false} UnclosedHonest(cfg: Config, rule: Rule, es: seq<Event>, from: seq<Source>)
    requires Legal(cfg, rule, es) && |from| == |es| && Unclosed(es)
    ensures Honest(cfg, rule, es, from) && forall i :: HeardFrom(es, from, i) == {}
  {
    hide Run, Enabled;
    if es != [] {
      var last := |es| - 1;
      UnclosedHonest(cfg, rule, es[..last], from[..last]);
    }
  }

  /** A peer hears one more announcement. */
  lemma {:induction false} HearOne(cfg: Config, rule: Rule, es: seq<Event>, from: seq<Source>, i: nat, src: Source,
        tlc: TLC)
      returns (es': seq<Event>, from': seq<Source>)
    requires Honest(cfg, rule, es, from) && src !in HeardFrom(es, from, i)
    requires var s := Run(cfg, rule, es);
             |s.nodes| == cfg.total && i < cfg.total && Valid(s.nodes[i].peer.paxos) && Announced(s, src, tlc)
    ensures Honest(cfg, rule, es', from')
    ensures var s := Run(cfg, rule, es);
            Run(cfg, rule, es').nodes == s.nodes[i := DoClose(cfg, s.nodes[i], tlc)]
    ensures forall j :: HeardFrom(es', from', j) == HeardFrom(es, from, j) + if j == i then {src} else {}
  {
    hide DoClose;
    es', from' := es + [Close(i, tlc)], from + [src];
    assert es'[..|es|] == es && from'[..|es|] == from;
    assert Legal(cfg, rule, es');
  }

  function Genesis(cfg: Config, v: PaxosValue): Block {
    GetBlock(cfg.h, map[], v, 0)
  }

  function Choice(w: PaxosValue, x: nat): PaxosValue {
    if x == 0 then ONE else w
  }

  /** A peer that has announced its block as its first TLC message. */
  ghost predicate Sender(cfg: Config, n: Node, x: nat, w: PaxosValue) {
    |n.peer.sent| > 0 && n.peer.sent[0] == TLC(0, Genesis(cfg, Choice(w, x)))
  }

  /** A peer that heard k announcements for the first step, the first of them for the given block. */
  ghost predicate Listening(cfg: Config, n: Node, first: Block, k: nat) {
    && Valid(n.peer.paxos)
    && if k >= cfg.threshold then Clock(n) == 1 && n.peer.chain == AddBlock(map[], first)
       else
         && Clock(n) == 0 && n.peer.chain == map[] && n.peer.paxos.consensus == map[]
         && |TlcsAt(n.peer.paxos.tlcs, 0)| == k && (k > 0 ==> TlcsAt(n.peer.paxos.tlcs, 0)[0] == first)
  }

  /** A TLC message for a step that stays undecided. */
  lemma WaitsMore(p: Paxos, m: TLC, threshold: nat)
    requires Valid(p) && p.clock == 0 && p.consensus == map[] && m.step == 0 && |TlcsAt(p.tlcs, 0)| + 1 < threshold
    ensures var p' := OnTLC(p, m, threshold);
            && p'.clock == 0 && p'.consensus == map[] && TlcsAt(p'.tlcs, 0) == TlcsAt(p.tlcs, 0) + [m.block]
            && Advance(p', 0).1.None?
  {
  }

  /** The one that decides it. */
  lemma Decides(p: Paxos, m: TLC, threshold: nat)
    requires Valid(p) && p.clock == 0 && p.consensus == map[] && m.step == 0 && |TlcsAt(p.tlcs, 0)| + 1 >= threshold
    ensures var p' := OnTLC(p, m, threshold);
            && Valid(p') && p'.clock == 0 && p'.consensus.Keys == {0}
            && TlcsAt(p'.tlcs, 0) == TlcsAt(p.tlcs, 0) + [m.block]
            && var (p2, block) := Advance(p', 0);
               p2.clock == 1 && p2.consensus.Keys == {0} && block == Some(TlcsAt(p'.tlcs, 0)[0])
  {
  }

  lemma {:induction false} ProcessOnce(peer: Peer, b: Block)
    requires Valid(peer.paxos) && peer.paxos.consensus.Keys == {0}
    requires Advance(peer.paxos, 0) == (Advance(peer.paxos, 0).0, Some(b)) && Advance(peer.paxos, 0).0.clock == 1
    requires Advance(peer.paxos, 0).0.consensus.Keys == {0}
    ensures var peer' := Process(peer, 0, false);
            peer'.paxos.clock == 1 && peer'.chain == AddBlock(peer.chain, b) && peer.sent <= peer'.sent
  {
    hide AddBlock;
    var (p', _) := Advance(peer.paxos, 0);
    var next := Tlc.Close(peer, p', b, 0, false);
    AdvanceShrinks(peer.paxos, 0);
    CloseLeaves(peer, p', b, 0, false);
    CloseParts(peer, p', b, 0, false);
    assert next.paxos.consensus.Keys == {0};
    assert Advance(next.paxos, 1).1.None?;
  }

  lemma {:induction false} ListenOne(cfg: Config, n: Node, x: nat, tlc: TLC, first: Block, k: nat, w: PaxosValue)
    requires k < cfg.threshold && Listening(cfg, n, first, k) && Sender(cfg, n, x, w)
    requires tlc.step == 0 && (k == 0 ==> tlc.block == first)
    ensures Listening(cfg, DoClose(cfg, n, tlc), first, k + 1) && Sender(cfg, DoClose(cfg, n, tlc), x, w)
  {
    hide OnTLC, Advance, AddBlock, Pending, Genesis, TlcsAt;
    var heard := n.peer.(paxos := OnTLC(n.peer.paxos, tlc, cfg.threshold));
    if k + 1 < cfg.threshold {
      WaitsMore(n.peer.paxos, tlc, cfg.threshold);
      assert Hear(n.peer, tlc, cfg.threshold) == heard;
    } else {
      Decides(n.peer.paxos, tlc, cfg.threshold);
      ProcessOnce(heard, first);
    }
  }

  /** The first peers count accepts: peer 0 settles on one value, the others on the other. */
  lemma {:induction false} SettleAll(cfg: Config, rule: Rule, s0: Sys, left: seq<Packet>, right: seq<Packet>,
        w: PaxosValue, m: nat) returns (s: Sys)
    requires Sound(cfg) && Reached(cfg, rule, s0) && Piled(cfg, s0, left, right, w) && m <= cfg.threshold <= cfg.total
    ensures Reached(cfg, rule, s) && s.net == s0.net && |s.nodes| == cfg.total
    ensures forall x {:trigger s.nodes[x]} :: 0 <= x < cfg.total ==>
              if x < m then Listening(cfg, s.nodes[x], Genesis(cfg, Choice(w, x)), 0) && Sender(cfg, s.nodes[x], x, w)
              else s.nodes[x] == s0.nodes[x]
  {
    hide Reached, Ballots, Genesis;
    if m == 0 {
      s := s0;
    } else {
      var t := SettleAll(cfg, rule, s0, left, right, w, m - 1);
      var x := m - 1;
      var pkts := if x == 0 then left else right;
      assert t.nodes[x] == s0.nodes[x];
      QuietCounts(cfg, s0.nodes[x], pkts, Choice(w, x));
      s := CountAll(cfg, rule, t, x, pkts, cfg.threshold, Choice(w, x));
      CountedListens(cfg, s.nodes[x], pkts, x, w);
    }
  }

  lemma CountedListens(cfg: Config, n: Node, pkts: seq<Packet>, x: nat, w: PaxosValue)
    requires Counting(cfg, n, pkts, cfg.threshold, Choice(w, x)) && cfg.threshold > 0
    ensures Listening(cfg, n, Genesis(cfg, Choice(w, x)), 0) && Sender(cfg, n, x, w)
  {
  }

  /** The peers in the order in which one of them hears their announcements, itself first. */
  function Order(i: nat, k: nat): nat {
    if k == 0 then i else if k <= i then k - 1 else k
  }

  /** The first k of them. */
  function Heard(i: nat, k: nat): set<Source> {
    if k == 0 then {} else Heard(i, k - 1) + {(Order(i, k - 1), 0)}
  }

  lemma {:induction false} NotHeard(i: nat, k: nat, m: nat)
    requires k <= m
    ensures (Order(i, m), 0) !in Heard(i, k)
  {
    if k > 0 {
      NotHeard(i, k - 1, m);
    }
  }

  ghost predicate Party(cfg: Config, s: Sys, w: PaxosValue) {
    && |s.nodes| == cfg.total
    && forall x {:trigger s.nodes[x]} :: 0 <= x < cfg.threshold ==> x < cfg.total && Sender(cfg, s.nodes[x], x, w)
  }

  /** Peer i hears the first k of them. */
  lemma {:induction false} HearAll(cfg: Config, rule: Rule, es0: seq<Event>, from0: seq<Source>, i: nat, k: nat,
        w: PaxosValue) returns (es: seq<Event>, from: seq<Source>)
    requires Honest(cfg, rule, es0, from0) && Party(cfg, Run(cfg, rule, es0), w) && i < cfg.threshold
          && k <= cfg.threshold <= cfg.total
    requires HeardFrom(es0, from0, i) == {}
    requires Listening(cfg, Run(cfg, rule, es0).nodes[i], Genesis(cfg, Choice(w, i)), 0)
    ensures Honest(cfg, rule, es, from) && Party(cfg, Run(cfg, rule, es), w)
    ensures Listening(cfg, Run(cfg, rule, es).nodes[i], Genesis(cfg, Choice(w, i)), k)
    ensures Run(cfg, rule, es).nodes == Run(cfg, rule, es0).nodes[i := Run(cfg, rule, es).nodes[i]]
    ensures forall j :: HeardFrom(es, from, j) == if j == i then Heard(i, k) else HeardFrom(es0, from0, j)
  {
    hide Authentic, Legal, Run, Listening, DoClose, HeardFrom, Genesis;
    es, from := es0, from0;
    if k > 0 {
      es, from := HearAll(cfg, rule, es0, from0, i, k - 1, w);
      var s := Run(cfg, rule, es);
      var x := Order(i, k - 1);
      NotHeard(i, k - 1, k - 1);
      assert Sender(cfg, s.nodes[x], x, w) && Sender(cfg, s.nodes[i], i, w);
      var tlc := s.nodes[x].peer.sent[0];
      ListenOne(cfg, s.nodes[i], i, tlc, Genesis(cfg, Choice(w, i)), k - 1, w);
      ListeningValid(cfg, s.nodes[i], Genesis(cfg, Choice(w, i)), k - 1);
      es, from := HearOne(cfg, rule, es, from, i, (x, 0), tlc);
    }
  }

  lemma ListeningValid(cfg: Config, n: Node, first: Block, k: nat)
    requires Listening(cfg, n, first, k)
    ensures Valid(n.peer.paxos)
  {
  }

  lemma DifferentChains(b: Block, b': Block)
    requires b != b' && b.hash != ZERO_HASH && b'.hash != ZERO_HASH
    ensures AddBlock(map[], b) != AddBlock(map[], b')
  {
    hide Hex;
    HexInjectiveZero(b.hash);
    HexInjectiveZero(b'.hash);
    assert AddBlock(map[], b)[LAST_BLOCK_KEY] == Hash(b.hash) && AddBlock(map[], b')[LAST_BLOCK_KEY] == Hash(b'.hash);
    if b.hash == b'.hash {
      assert AddBlock(map[], b)[Hex(b.hash)] == Encoded(b) && AddBlock(map[], b')[Hex(b.hash)] == Encoded(b');
    }
  }

  /** Where counts do not settle on one value, such a run in which peers 0 and 1 close one step each with different
      blocks. */
  lemma {:induction false} Diverge(cfg: Config, rule: Rule) returns (es: seq<Event>, from: seq<Source>)
    requires Sound(cfg) && 2 <= cfg.total && cfg.threshold <= cfg.total && !CountsSettle(cfg, rule)
    requires forall b :: cfg.h(b) != ZERO_HASH
    ensures Honest(cfg, rule, es, from) && Fork(Run(cfg, rule, es), 0, 1)
  {
    hide Listening, Sender, Genesis, Authentic, Run, Legal, HeardFrom, Piled, Unclosed;
    var s0, left, right, w := TwoPiles(cfg, rule);
    PiledDiffer(cfg, s0, left, right, w);
    var s := SettleAll(cfg, rule, s0, left, right, w, cfg.threshold);
    es :| Legal(cfg, rule, es) && Run(cfg, rule, es) == s && Unclosed(es);
    from := seq(|es|, _ => (0, 0));
    UnclosedHonest(cfg, rule, es, from);
    es, from := HearAll(cfg, rule, es, from, 0, cfg.threshold, w);
    es, from := HearAll(cfg, rule, es, from, 1, cfg.threshold, w);
    var s' := Run(cfg, rule, es);
    Forked(cfg, s'.nodes[0], s'.nodes[1], w);
  }

  lemma Forked(cfg: Config, n: Node, n': Node, w: PaxosValue)
    requires w != ONE && forall b :: cfg.h(b) != ZERO_HASH
    requires Listening(cfg, n, Genesis(cfg, ONE), cfg.threshold) && Listening(cfg, n', Genesis(cfg, w), cfg.threshold)
    ensures Clock(n) == Clock(n') && n.peer.chain != n'.peer.chain
  {
    hide AddBlock;
    assert Genesis(cfg, ONE).value != Genesis(cfg, w).value;
    DifferentChains(Genesis(cfg, ONE), Genesis(cfg, w));
  }

  /** Peers that hear what peers announced have equal chains after equally many steps, in every run, exactly when
      all their counts of accepts settle on one value a step. */
  lemma {:induction false} ChainsAgreeIff(cfg: Config, rule: Rule)
    requires Sound(cfg) && cfg.total > 0 && (rule.Early? || 2 <= cfg.threshold <= cfg.total)
    requires forall b :: cfg.h(b) != ZERO_HASH
    ensures ChainsAgree(cfg, rule) <==> CountsSettle(cfg, rule)
  {
    hide Authentic, Legal, Run, Built;
    if CountsSettle(cfg, rule) {
      forall es, from, i, j | Honest(cfg, rule, es, from)
        ensures !Fork(Run(cfg, rule, es), i, j)
      {
        var v := OneChain(cfg, rule, es, from);
      }
    } else {
      var es, from := Diverge(cfg, rule);
    }
  }
}
