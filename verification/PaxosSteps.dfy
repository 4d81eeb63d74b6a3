/** What a peer's own Paxos state says of what it heard, in every run and whenever peers may begin. */
module PaxosSteps {
  import opened Common
  import opened Chain
  import opened PaxosNode
  import opened Tlc
  import opened PaxosRun
  import opened PaxosCounts

  function CountOf(accepts: map<PaxosValue, nat>, v: PaxosValue): nat {
    if v in accepts then accepts[v] else 0
  }

  /** What a peer handled since it last began an attempt of the step it is in, if it did. */
  function Since(n: Node): set<Packet> {
    n.heard - Prior(n, Clock(n))
  }

  /** As long as no value is settled, the count of each is exactly the number of distinct accepts for it handled in this
      step since the last attempt. */
  ghost predicate CountsExactly(n: Node) {
    Clock(n) !in n.peer.paxos.acceptedMap ==>
      forall v {:trigger CountOf(n.peer.paxos.accepts, v)} ::
        CountOf(n.peer.paxos.accepts, v) == |Tally(Since(n), Clock(n), v)|
  }

  /** A peer waits with a value exactly when it attempted the step it is in. */
  ghost predicate ProposedHere(n: Node) {
    n.peer.paxos.proposedValue != ZERO_VALUE <==> Clock(n) in n.attempted
  }

  ghost predicate NothingAhead(n: Node) {
    && n.heard <= n.handled && n.prior.Keys == n.attempted.Keys
    && (forall step :: step in n.attempted ==> step <= Clock(n))
    && (forall step :: step in n.prior ==> n.prior[step] <= n.heard)
    && (forall pkt :: pkt in n.heard ==> pkt.msg.step <= Clock(n))
    && (n.call.Some? ==> n.call.value.value != ZERO_VALUE)
  }

  ghost predicate Accurate(cfg: Config, n: Node) {
    && Valid(n.peer.paxos) && NothingAhead(n) && CountsExactly(n) && ProposedHere(n)
    && LastDecides(n.peer.paxos, cfg.threshold)
  }

  lemma AccurateParts(cfg: Config, n: Node)
    requires Accurate(cfg, n)
    ensures Valid(n.peer.paxos) && NothingAhead(n) && LastDecides(n.peer.paxos, cfg.threshold)
  {
  }

  lemma BeginCounts(cfg: Config, n: Node, i: nat, round: nat, value: PaxosValue)
    requires Accurate(cfg, n) && value != ZERO_VALUE
    ensures Accurate(cfg, DoBegin(cfg, n, i, round, value).0)
  {
    hide LastDecides, Tally;
    var n' := DoBegin(cfg, n, i, round, value).0;
    assert Since(n') == {};
    forall v
      ensures |Tally({}, Clock(n), v)| == 0
    {
      NoneTallied(Clock(n), v);
    }
    assert LastDecides(n'.peer.paxos, cfg.threshold) by {
      SameDecides(n.peer.paxos, n'.peer.paxos, cfg.threshold);
    }
  }

  lemma NoneTallied(step: nat, v: PaxosValue)
    ensures Tally({}, step, v) == {}
  {
  }

  lemma SameDecides(p: Paxos, p': Paxos, threshold: nat)
    requires LastDecides(p, threshold) && p'.tlcs == p.tlcs && p'.consensus == p.consensus
    ensures LastDecides(p', threshold)
  {
    assert forall s :: TlcsAt(p'.tlcs, s) == TlcsAt(p.tlcs, s);
  }

  /** A peer that only waits, concludes or returns from its call. */
  lemma IdleCounts(cfg: Config, n: Node, n': Node)
    requires Accurate(cfg, n) && n'.peer == n.peer && n'.heard == n.heard && n'.handled == n.handled
    requires n'.prior == n.prior && n'.attempted == n.attempted && (n'.call == n.call || n'.call == None)
    ensures Accurate(cfg, n')
  {
    hide LastDecides, Tally;
    assert Since(n') == Since(n);
  }

  /** What a message other than an accept leaves alone. */
  lemma VoteLeaves(cfg: Config, n: Node, i: nat, pkt: Packet)
    requires Valid(n.peer.paxos) && !pkt.msg.Accept?
    ensures var n' := DoHandle(cfg, n, i, pkt).0;
            var p, p' := n.peer.paxos, n'.peer.paxos;
            && n' == Mark(n, pkt).(peer := n'.peer, inbox := n'.inbox) && Valid(p') && p'.clock == p.clock
            && p'.accepts == p.accepts && p'.acceptedMap == p.acceptedMap && p'.proposedValue == p.proposedValue
            && p'.tlcs == p.tlcs && p'.consensus == p.consensus
  {
    hide DoHandle;
    match pkt.msg
    case Prepare(_, _, _) => PrepareDoes(cfg, n, i, pkt);
    case Promise(_, _, _, _) => PromiseDoes(cfg, n, i, pkt);
    case Propose(_, _, _) => ProposeDoes(cfg, n, i, pkt);
  }

  /** A message other than an accept. */
  lemma VoteCounts(cfg: Config, n: Node, i: nat, pkt: Packet)
    requires Accurate(cfg, n) && !pkt.msg.Accept? && pkt !in n.handled
    ensures Accurate(cfg, DoHandle(cfg, n, i, pkt).0)
  {
    hide DoHandle, Tally, LastDecides, Valid, CountOf;
    var n' := DoHandle(cfg, n, i, pkt).0;
    VoteLeaves(cfg, n, i, pkt);
    SameDecides(n.peer.paxos, n'.peer.paxos, cfg.threshold);
    assert Prior(n', Clock(n)) == Prior(n, Clock(n));
    forall v
      ensures |Tally(Since(n'), Clock(n), v)| == |Tally(Since(n), Clock(n), v)|
    {
      if n'.heard != n.heard {
        SinceGrows(n, n', pkt, v);
      }
    }
  }

  lemma SinceGrows(n: Node, n': Node, pkt: Packet, v: PaxosValue)
    requires pkt !in n.heard && n'.heard == n.heard + {pkt} && n'.prior == n.prior && Clock(n') == Clock(n)
    requires Prior(n, Clock(n)) <= n.heard
    ensures |Tally(Since(n'), Clock(n), v)| ==
            |Tally(Since(n), Clock(n), v)|
            + if pkt.msg.Accept? && pkt.msg.step == Clock(n) && pkt.msg.value == v then 1 else 0
  {
    hide Tally;
    assert Since(n') == Since(n) + {pkt};
    TallyGrows(Since(n), pkt, Clock(n), v);
  }

  /** What an accept does: a count, while nothing is settled. */
  lemma AcceptGoes(cfg: Config, n: Node, i: nat, pkt: Packet)
    requires Valid(n.peer.paxos) && pkt.msg.Accept?
    ensures var n' := DoHandle(cfg, n, i, pkt).0;
            var p, p', v := n.peer.paxos, n'.peer.paxos, pkt.msg.value;
            && n' == Mark(n, pkt).(peer := n'.peer, learned := n'.learned) && Valid(p') && p'.clock == p.clock
            && p'.proposedValue == p.proposedValue && p'.tlcs == p.tlcs && p'.consensus == p.consensus
            && (pkt.msg.step != p.clock ==> p' == p)
            && (p.clock in p.acceptedMap ==> p.clock in p'.acceptedMap)
            && (pkt.msg.step == p.clock && p.clock !in p.acceptedMap ==>
                  p'.accepts == p.accepts[v := CountOf(p.accepts, v) + 1])
  {
    hide OnPrepare, OnPromise, OnPropose, OnAccept, GetBlock;
    AcceptDoes(cfg, n, i, pkt);
    CountGoes(n.peer.paxos, pkt.msg, cfg.threshold);
    SettledStays(n.peer.paxos, pkt.msg, cfg.threshold);
  }

  lemma SettledStays(p: Paxos, m: Msg, threshold: nat)
    requires m.Accept?
    ensures p.clock in p.acceptedMap ==> p.clock in OnAccept(p, m, threshold).0.acceptedMap
  {
  }

  lemma AcceptCountsOne(cfg: Config, n: Node, i: nat, pkt: Packet)
    requires Accurate(cfg, n) && pkt.msg.Accept? && pkt !in n.handled
    ensures Accurate(cfg, DoHandle(cfg, n, i, pkt).0)
  {
    hide DoHandle, Tally, LastDecides, Valid;
    var n' := DoHandle(cfg, n, i, pkt).0;
    AcceptGoes(cfg, n, i, pkt);
    SameDecides(n.peer.paxos, n'.peer.paxos, cfg.threshold);
    if Clock(n) !in n.peer.paxos.acceptedMap {
      forall v
        ensures CountOf(n'.peer.paxos.accepts, v) == |Tally(Since(n'), Clock(n), v)|
      {
        assert CountOf(n.peer.paxos.accepts, v) == |Tally(Since(n), Clock(n), v)|;
        if pkt.msg.step == Clock(n) {
          SinceGrows(n, n', pkt, v);
        } else {
          assert Since(n') == Since(n);
        }
      }
    }
  }

  /** A TLC message: the same step, or a later one of which nothing was heard. */
  lemma CloseCounts(cfg: Config, n: Node, tlc: TLC)
    requires Accurate(cfg, n)
    ensures Accurate(cfg, DoClose(cfg, n, tlc))
  {
    hide Tally, Process, Hear, LastDecides, Valid, CountOf;
    var n' := DoClose(cfg, n, tlc);
    HearDecides(n.peer, tlc, cfg.threshold);
    CloseIs(cfg, n, tlc);
    if Clock(n') == Clock(n) {
      assert Since(n') == Since(n);
    } else {
      forall v
        ensures CountOf(map[], v) == 0 && Tally(Since(n'), Clock(n'), v) == {}
      {
        NoneAhead(n', Since(n'), Clock(n'), v);
      }
    }
  }

  lemma NoneAhead(n: Node, heard: set<Packet>, step: nat, v: PaxosValue)
    requires forall pkt :: pkt in heard ==> pkt.msg.step < step
    ensures Tally(heard, step, v) == {} && CountOf(map[], v) == 0
  {
  }

  lemma CloseIs(cfg: Config, n: Node, tlc: TLC)
    requires Valid(n.peer.paxos)
    ensures var n' := DoClose(cfg, n, tlc);
            var p, p' := n.peer.paxos, n'.peer.paxos;
            && n' == n.(peer := n'.peer, inbox := n'.inbox) && Valid(p') && p'.clock >= p.clock
            && (p'.clock == p.clock ==>
                  p'.accepts == p.accepts && p'.acceptedMap == p.acceptedMap && p'.proposedValue == p.proposedValue)
            && (p'.clock > p.clock ==> p'.accepts == map[] && p'.proposedValue == ZERO_VALUE)
  {
    hide Process;
    HearAnnounces(n.peer, tlc, cfg.threshold);
    ProcessClears(n.peer.(paxos := OnTLC(n.peer.paxos, tlc, cfg.threshold)), n.peer.paxos.clock, false);
  }

  lemma {:induction false} ActAccurate(cfg: Config, rule: Rule, s: Sys, e: Event)
    requires Enabled(cfg, rule, s, e) && Accurate(cfg, s.nodes[e.i])
    ensures Accurate(cfg, Act(cfg, rule, s, e).0)
  {
    hide Accurate, DoHandle, DoClose, DoBegin;
    var n := s.nodes[e.i];
    AccurateParts(cfg, n);
    match e
    case Begin(i, round, value) => BeginCounts(cfg, n, i, round, value);
    case Conclude(_) => IdleCounts(cfg, n, Act(cfg, rule, s, e).0);
    case Finish(_) => IdleCounts(cfg, n, Act(cfg, rule, s, e).0);
    case Close(_, tlc) => CloseCounts(cfg, n, tlc);
    case Handle(i, pkt) =>
      if pkt.msg.Accept? {
        AcceptCountsOne(cfg, n, i, pkt);
      } else {
        VoteCounts(cfg, n, i, pkt);
      }
  }

  ghost predicate AllAccurate(cfg: Config, s: Sys) {
    |s.nodes| == cfg.total && forall i {:trigger s.nodes[i]} :: 0 <= i < cfg.total ==> Accurate(cfg, s.nodes[i])
  }

  lemma NewAccurate(cfg: Config)
    ensures Accurate(cfg, NEW_NODE)
  {
  }

  lemma {:induction false} RunAccurate(cfg: Config, rule: Rule, es: seq<Event>)
    requires Legal(cfg, rule, es)
    ensures AllAccurate(cfg, Run(cfg, rule, es))
  {
    hide Act, Accurate, Enabled;
    if es == [] {
      NewAccurate(cfg);
    } else {
      var before, e := es[..|es| - 1], es[|es| - 1];
      RunAccurate(cfg, rule, before);
      ActsInside(cfg, rule, Run(cfg, rule, before), e);
      ActAccurate(cfg, rule, Run(cfg, rule, before), e);
    }
  }

  /** In every run, whenever peers may begin: until a value is settled for its step, a peer's count of each value is
      exactly the number of distinct accepts for it that it handled in the step since its last attempt; it holds a
      value of its own exactly when it attempted the step; and a step is decided exactly when it has enough blocks, for
      the value of the last one received. */
  lemma {:induction false} StateIsHistory(cfg: Config, rule: Rule, es: seq<Event>, i: nat)
    requires Legal(cfg, rule, es) && i < cfg.total
    ensures |Run(cfg, rule, es).nodes| == cfg.total
    ensures var n := Run(cfg, rule, es).nodes[i];
            var p := n.peer.paxos;
            && (p.clock !in p.acceptedMap ==>
                  forall v {:trigger CountOf(p.accepts, v)} ::
                    CountOf(p.accepts, v) == |Tally(n.heard - Prior(n, p.clock), p.clock, v)|)
            && (p.proposedValue != ZERO_VALUE <==> p.clock in n.attempted)
            && forall s: nat {:trigger TlcsAt(p.tlcs, s)} ::
                 var blocks := TlcsAt(p.tlcs, s);
                 && (s in p.consensus <==> blocks != [] && |blocks| >= cfg.threshold)
                 && (s in p.consensus ==> p.consensus[s] == blocks[|blocks| - 1].value)
  {
    RunAccurate(cfg, rule, es);
    assert Accurate(cfg, Run(cfg, rule, es).nodes[i]);
  }
}
