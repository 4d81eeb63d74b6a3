/** What counting accepts by value over all ids settles. */
module PaxosCounts {
  import opened Common
  import opened Chain
  import opened PaxosNode
  import opened Tlc
  import opened PaxosRun
  import opened PaxosLimits

  /** Peer i counted enough accepts to settle on a value. */
  ghost predicate Settled(s: Sys, i: nat, step: nat, v: PaxosValue) {
    i < |s.nodes| && step in s.nodes[i].learned && s.nodes[i].learned[step] == v
  }

  /** No run has two peers whose counts of accepts settle on different values in one step. */
  ghost predicate CountsAgree(cfg: Config, rule: Rule) {
    forall es, i, j, step, v, w ::
      Legal(cfg, rule, es) && Settled(Run(cfg, rule, es), i, step, v) && Settled(Run(cfg, rule, es), j, step, w)
      ==> v == w
  }

  // ----- two piles of accepts

  /** Distinct accepts of one value, in step 0. */
  ghost predicate Ballots(net: set<Packet>, pkts: seq<Packet>, v: PaxosValue) {
    && (forall k :: 0 <= k < |pkts| ==>
          pkts[k] in net && pkts[k].msg.Accept? && pkts[k].msg.step == 0 && pkts[k].msg.value == v
                && pkts[k].dest == None)
    && (forall j, k :: 0 <= j < k < |pkts| ==> pkts[j] != pkts[k])
  }

  /** A threshold of accepts for each of two values, with no accept counted yet. */
  ghost predicate Piled(cfg: Config, s: Sys, left: seq<Packet>, right: seq<Packet>, w: PaxosValue) {
    && |s.nodes| == cfg.total && |left| == |right| == cfg.threshold && w != ONE
    && Ballots(s.net, left, ONE) && Ballots(s.net, right, w)
    && (forall a {:trigger s.nodes[a]} :: 0 <= a < cfg.total ==> Uncounted(s.nodes[a]))
  }

  ghost predicate Uncounted(n: Node) {
    Quiet(n) && forall pkt :: pkt in n.handled ==> !pkt.msg.Accept?
  }

  /** The accepts of k peers from the first on, under one id. */
  function Pile(first: nat, k: nat, id: nat, v: PaxosValue): seq<Packet> {
    seq(k, (i: nat) => Packet(first + i, None, Accept(0, id, v)))
  }

  lemma PileBallots(net: set<Packet>, first: nat, k: nat, id: nat, v: PaxosValue)
    requires forall a {:trigger Voted(net, a, 0, id, v)} :: first <= a < first + k ==> Voted(net, a, 0, id, v)
    ensures |Pile(first, k, id, v)| == k && Ballots(net, Pile(first, k, id, v), v)
    ensures forall pkt :: pkt in Pile(first, k, id, v) ==> pkt.msg.id == id
  {
    forall i: nat | i < k
      ensures Pile(first, k, id, v)[i] in net
    {
      assert Voted(net, first + i, 0, id, v);
    }
  }

  lemma BallotsGrow(net: set<Packet>, net': set<Packet>, pkts: seq<Packet>, v: PaxosValue)
    requires net <= net' && Ballots(net, pkts, v)
    ensures Ballots(net', pkts, v)
  {
  }

  lemma BallotsSnoc(net: set<Packet>, pkts: seq<Packet>, pkt: Packet, v: PaxosValue)
    requires Ballots(net, pkts, v) && pkt in net && pkt !in pkts && pkt.dest == None
    requires pkt.msg.Accept? && pkt.msg.step == 0 && pkt.msg.value == v
    ensures Ballots(net, pkts + [pkt], v)
  {
  }

  lemma CalmUncounted(cfg: Config, s: Sys, r: nat)
    requires forall a {:trigger s.nodes[a]} :: 0 <= a < |s.nodes| ==> Calm(s.nodes[a], r)
    ensures forall a {:trigger s.nodes[a]} :: 0 <= a < |s.nodes| ==> Uncounted(s.nodes[a])
  {
    hide Quiet;
  }

  // ----- short of everybody

  /** The first r ids were promised by the peers below the threshold and accepted by peer 0 alone; the peers
      from r on have begun and wait for promises. */
  ghost predicate Staged(cfg: Config, s: Sys, r: nat) {
    && |s.nodes| == cfg.total
    && (forall a {:trigger s.nodes[a]} :: 0 <= a < cfg.total ==> Standing(cfg, s.nodes[a], a, r))
    && (forall p {:trigger Prepared(cfg.total, p, 0)} :: r <= p < cfg.total ==> Prepared(cfg.total, p, 0) in s.net)
    && (forall id {:trigger Voted(s.net, 0, 0, id, ONE)} :: 1 <= id <= r ==> Voted(s.net, 0, 0, id, ONE))
  }

  /** The value peer 0 is called with, and the last peer's. */
  const ONE := Own(0)

  function Other(cfg: Config): PaxosValue {
    Own(if cfg.total > 0 then cfg.total - 1 else 0)
  }

  ghost predicate Standing(cfg: Config, n: Node, a: nat, r: nat) {
    && Calm(n, r) && n.peer.paxos.maxID == (if a < cfg.threshold then r else 0)
    && (if a == 0 && r > 0 then HasAccepted(n, ONE) else n.peer.paxos.acceptedValue == ZERO_VALUE)
    && (a >= r ==> n.waiting == Some((0, a + 1)) && n.peer.paxos.promises == [] && n.peer.paxos.preparedFlag == map[]
                   && n.peer.paxos.proposedValue == Own(a))
  }

  lemma {:induction false} StageZero(cfg: Config) returns (s: Sys)
    requires Sound(cfg) && cfg.threshold < cfg.total
    ensures Reached(cfg, Early, s) && Staged(cfg, s, 0)
  {
    hide Reached, Peers, Own, Ready, Calm;
    Start(cfg, Early);
    NewNode(cfg, Early);
    s := BeginMany(cfg, Early, Init(cfg), Peers(cfg.total), 0);
    forall a | 0 <= a < cfg.total
      ensures Standing(cfg, s.nodes[a], a, 0)
    {
      BegunCalm(cfg, NEW_NODE, a, 0, Own(a), 0);
      assert s.nodes[a] == DoBegin(cfg, NEW_NODE, a, 0, Own(a)).0;
    }
  }

  lemma {:induction false} StagedOpens(cfg: Config, s: Sys, r: nat, b: Attempt, q: set<nat>)
    requires Sound(cfg) && cfg.threshold < cfg.total && Staged(cfg, s, r) && r <= b.p < cfg.total
    requires b.id == b.p + 1 && b.before == r && b.own == Own(b.p) && b.v in {ONE, b.own} && b.voter == 0
    requires q <= Peers(cfg.threshold + 1) && |q| == cfg.threshold
    requires if 0 in q && r > 0 then b.v == ONE else b.v == b.own
    ensures Open(cfg, s, b, q)
  {
    hide Peers, Own;
    OwnDiffers(b.p, 0);
    OwnDiffers(0, 0);
    PeersGrow(cfg.threshold + 1, cfg.total);
    assert Prepared(cfg.total, b.p, 0) in s.net;
    forall a | 0 <= a < cfg.total
      ensures Acceptor(s.nodes[a], s.nodes[a], b, false, false)
    {
      assert Standing(cfg, s.nodes[a], a, r);
    }
    assert Standing(cfg, s.nodes[b.p], b.p, r) && Standing(cfg, s.nodes[0], 0, r);
  }

  lemma {:induction false} StandingNext(cfg: Config, n: Node, n0: Node, a: nat, b: Attempt)
    requires Standing(cfg, n0, a, b.before) && b == Attempt(b.before, b.before + 1, b.before, Own(b.before), ONE, 0)
    requires Acceptor(n, n0, b, a < cfg.threshold, a == 0) && (a != b.p ==> SameProposer(n, n0))
    ensures Standing(cfg, n, a, b.id)
  {
    AcceptorCalm(n, n0, b, a < cfg.threshold, a == 0);
  }

  lemma {:induction false} StageNext(cfg: Config, s: Sys, r: nat) returns (s': Sys)
    requires Sound(cfg) && r < cfg.threshold < cfg.total && Reached(cfg, Early, s) && Staged(cfg, s, r)
    ensures Reached(cfg, Early, s') && Staged(cfg, s', r + 1)
  {
    hide Reached, Open, Standing, Acceptor, SameProposer, Peers;
    var q, b := Peers(cfg.threshold), Attempt(r, r + 1, r, Own(r), ONE, 0);
    PeersGrow(cfg.threshold, cfg.threshold + 1);
    StagedOpens(cfg, s, r, b, q);
    s' := Round(cfg, Early, s, b, q, {0});
    forall a | 0 <= a < cfg.total
      ensures Standing(cfg, s'.nodes[a], a, r + 1)
    {
      assert Standing(cfg, s.nodes[a], a, r);
      assert Acceptor(s'.nodes[a], s.nodes[a], b, a in q, a in {0});
      StandingNext(cfg, s'.nodes[a], s.nodes[a], a, b);
    }
    forall id | 1 <= id <= r + 1
      ensures Voted(s'.net, 0, 0, id, ONE)
    {
      assert if id <= r then Voted(s.net, 0, 0, id, ONE) else Voted(s'.net, 0, 0, b.id, ONE);
    }
  }

  lemma {:induction false} Stages(cfg: Config, r: nat) returns (s: Sys)
    requires Sound(cfg) && r <= cfg.threshold < cfg.total
    ensures Reached(cfg, Early, s) && Staged(cfg, s, r)
  {
    hide Reached, Staged;
    if r == 0 {
      s := StageZero(cfg);
    } else {
      s := Stages(cfg, r - 1);
      s := StageNext(cfg, s, r - 1);
    }
  }

  /** Peer 0 voted for one value under a threshold of ids, and a quorum without it voted for the other. */
  ghost predicate Split(cfg: Config, s: Sys) {
    && |s.nodes| == cfg.total
    && (forall a {:trigger s.nodes[a]} :: 0 <= a < cfg.total ==> Uncounted(s.nodes[a]))
    && (forall id {:trigger Voted(s.net, 0, 0, id, ONE)} :: 1 <= id <= cfg.threshold ==> Voted(s.net, 0, 0, id, ONE))
    && (forall a {:trigger Voted(s.net, a, 0, cfg.total, Other(cfg))} :: 1 <= a <= cfg.threshold ==>
          Voted(s.net, a, 0, cfg.total, Other(cfg)))
  }

  lemma {:induction false} LastStage(cfg: Config) returns (s: Sys)
    requires Sound(cfg) && cfg.threshold < cfg.total
    ensures Reached(cfg, Early, s) && Split(cfg, s)
  {
    hide Reached, Open, Acceptor, Standing, Quiet, Peers;
    var t := cfg.threshold;
    var s0 := Stages(cfg, t);
    var q, b := Peers(t + 1) - {0}, Attempt(cfg.total - 1, cfg.total, t, Other(cfg), Other(cfg), 0);
    PeersSize(t + 1);
    StagedOpens(cfg, s0, t, b, q);
    s := Round(cfg, Early, s0, b, q, q);
    forall a | 0 <= a < cfg.total
      ensures Uncounted(s.nodes[a])
    {
      assert Acceptor(s.nodes[a], s0.nodes[a], b, a in q, a in q);
      AcceptorCalm(s.nodes[a], s0.nodes[a], b, a in q, a in q);
    }
    forall id | 1 <= id <= t
      ensures Voted(s.net, 0, 0, id, ONE)
    {
      assert Voted(s0.net, 0, 0, id, ONE);
    }
  }

  /** The accepts of peer 0 for the first ids. */
  function Ladder(k: nat): seq<Packet> {
    seq(k, (i: nat) => Packet(0, None, Accept(0, i + 1, ONE)))
  }

  lemma LadderBallots(net: set<Packet>, k: nat)
    requires forall id {:trigger Voted(net, 0, 0, id, ONE)} :: 1 <= id <= k ==> Voted(net, 0, 0, id, ONE)
    ensures |Ladder(k)| == k && Ballots(net, Ladder(k), ONE)
  {
    forall i: nat | i < k
      ensures Ladder(k)[i] in net
    {
      assert Voted(net, 0, 0, i + 1, ONE);
    }
  }

  lemma {:induction false} EarlyPiles(cfg: Config)
      returns (s: Sys, left: seq<Packet>, right: seq<Packet>, w: PaxosValue)
    requires Sound(cfg) && cfg.threshold < cfg.total
    ensures Reached(cfg, Early, s) && Piled(cfg, s, left, right, w)
  {
    hide Reached, Own, Ballots, Uncounted;
    s := LastStage(cfg);
    LadderBallots(s.net, cfg.threshold);
    PileBallots(s.net, 1, cfg.threshold, cfg.total, Other(cfg));
    OwnDiffers(0, cfg.total - 1);
    left, right, w := Ladder(cfg.threshold), Pile(1, cfg.threshold, cfg.total, Other(cfg)), Other(cfg);
  }

  // ----- everybody, with retries

  lemma {:induction false} RetriedPiles(cfg: Config)
      returns (s: Sys, left: seq<Packet>, right: seq<Packet>, w: PaxosValue)
    requires cfg.threshold == cfg.total >= 2
    ensures Reached(cfg, Free, s) && Piled(cfg, s, left, right, w)
  {
    hide Reached, Own, Ballots, Uncounted, Calm;
    s := RetriedChoice(cfg);
    var n, id := cfg.total, cfg.total + 2;
    forall a: nat | a < n
      ensures Voted(s.net, a, 0, 1, ONE)
    {
      assert a in Peers(cfg.threshold);
    }
    forall a: nat | a < n
      ensures Voted(s.net, a, 0, id, Own(1))
    {
      assert a in Peers(cfg.threshold);
    }
    PileBallots(s.net, 0, n, 1, ONE);
    PileBallots(s.net, 0, n, id, Own(1));
    OwnDiffers(0, 1);
    CalmUncounted(cfg, s, id);
    left, right, w := Pile(0, n, 1, ONE), Pile(0, n, id, Own(1)), Own(1);
  }

  // ----- everybody, three peers or more, once a step but late

  /** The peers from `open` on have not been called, and the others were called for their own values. */
  ghost predicate Waiting(cfg: Config, s: Sys, r: nat, open: nat) {
    && OwnTags(cfg, s)
    && (forall a {:trigger s.nodes[a]} :: 0 <= a < cfg.total ==> Calm(s.nodes[a], r))
    && (forall a {:trigger s.nodes[a]} :: open <= a < cfg.total ==> Uncalled(s.nodes[a]))
  }

  lemma WaitingReady(cfg: Config, s: Sys, r: nat, open: nat, a: nat)
    requires Waiting(cfg, s, r, open) && open <= a < cfg.total
    ensures Ready(Once, s, a, 0)
  {
    hide Own, Ready, Uncalled, Quiet;
    assert Calm(s.nodes[a], r);
    CalmIsValid(s.nodes[a], r);
    LateReady(cfg, Once, s, a);
  }

  lemma BegunCaller(cfg: Config, n: Node, a: nat)
    requires n.tags <= {Own(a)}
    ensures DoBegin(cfg, n, a, 0, Own(a)).0.tags <= {Own(a)}
  {
  }

  lemma NewIsWaiting(cfg: Config)
    ensures Waiting(cfg, Init(cfg), 0, 0)
  {
    NewNode(cfg, Once);
  }

  /** The peers from `open` on that begin now. */
  lemma {:induction false} BegunWaiting(cfg: Config, s0: Sys, s: Sys, d: set<nat>, r: nat, open: nat, open': nat)
    requires Waiting(cfg, s0, r, open) && Began(cfg, s0, s, d, 0) && open <= open'
    requires forall a :: a in d ==> a < open'
    ensures Waiting(cfg, s, r, open')
  {
    hide Own, Calm, Uncalled, DoBegin;
    forall a | 0 <= a < cfg.total
      ensures s.nodes[a].tags <= {Own(a)} && Calm(s.nodes[a], r) && (open' <= a ==> Uncalled(s.nodes[a]))
    {
      assert Calm(s0.nodes[a], r) && s0.nodes[a].tags <= {Own(a)};
      BegunCaller(cfg, s0.nodes[a], a);
      BegunCalm(cfg, s0.nodes[a], a, 0, Own(a), r);
    }
  }

  /** A ballot of a peer before `open`. */
  lemma {:induction false} VotedWaiting(cfg: Config, s0: Sys, s: Sys, b: Attempt, q: set<nat>, accepted: set<nat>,
        r: nat, open: nat)
    requires Waiting(cfg, s0, r, open) && At(cfg, s0, s, b, q, accepted) && b.p < open
    ensures Waiting(cfg, s, b.id, open)
  {
    hide Own, Calm;
    forall a | 0 <= a < cfg.total
      ensures s.nodes[a].tags <= {Own(a)} && Calm(s.nodes[a], b.id) && (open <= a ==> Uncalled(s.nodes[a]))
    {
      assert s0.nodes[a].tags <= {Own(a)} && (open <= a ==> Uncalled(s0.nodes[a]));
      AcceptorCalm(s.nodes[a], s0.nodes[a], b, a in q, a in accepted);
    }
  }

  lemma BegunIs(cfg: Config, s0: Sys, s: Sys, d: set<nat>, a: nat)
    requires Began(cfg, s0, s, d, 0) && a < cfg.total
    ensures var p := s.nodes[a].peer.paxos;
            if a in d then p.maxID == 0 && p.acceptedValue == ZERO_VALUE
            else p.maxID == s0.nodes[a].peer.paxos.maxID && p.acceptedValue == s0.nodes[a].peer.paxos.acceptedValue
                 && p.acceptedID == s0.nodes[a].peer.paxos.acceptedID
  {
  }

  lemma VotedIs(cfg: Config, s0: Sys, s: Sys, b: Attempt, q: set<nat>, accepted: set<nat>, a: nat)
    requires At(cfg, s0, s, b, q, accepted) && a < cfg.total
    ensures var p, p0 := s.nodes[a].peer.paxos, s0.nodes[a].peer.paxos;
            && p.maxID == (if a in q then b.id else p0.maxID)
            && p.acceptedValue == (if a in accepted then b.v else p0.acceptedValue)
            && p.acceptedID == (if a in accepted then b.id else p0.acceptedID)
  {
  }

  /** Peer 0's value, which all the others accept, but not peer 0. */
  lemma {:induction false} LateOne(cfg: Config) returns (s: Sys)
    requires cfg.threshold == cfg.total >= 3
    ensures Reached(cfg, Once, s) && Waiting(cfg, s, 1, 1) && |s.nodes| == cfg.total
    ensures forall a {:trigger s.nodes[a]} :: 0 <= a < cfg.total ==>
              && s.nodes[a].peer.paxos.maxID == 1
              && if a == 0 then s.nodes[a].peer.paxos.acceptedValue == ZERO_VALUE else HasAccepted(s.nodes[a], ONE)
    ensures forall a {:trigger Voted(s.net, a, 0, 1, ONE)} :: 1 <= a < cfg.total ==> Voted(s.net, a, 0, 1, ONE)
  {
    hide Reached, Peers, Own, Ready, Calm, Open, At, Waiting, Began;
    var all, b := Peers(cfg.total), Attempt(0, 1, 0, ONE, ONE, 0);
    PeersSize(cfg.total);
    Start(cfg, Once);
    NewIsWaiting(cfg);
    NewNode(cfg, Once);
    var s1 := BeginMany(cfg, Once, Init(cfg), {0}, 0);
    BegunWaiting(cfg, Init(cfg), s1, {0}, 0, 0, 1);
    BegunOpens(cfg, Init(cfg), s1, {0}, 0, b, all);
    s := RoundVotes(cfg, Once, s1, b, all, all - {0});
    VotedWaiting(cfg, s1, s, b, all, all - {0}, 0, 1);
    forall a | 0 <= a < cfg.total
      ensures s.nodes[a].peer.paxos.maxID == 1
      ensures if a == 0 then s.nodes[a].peer.paxos.acceptedValue == ZERO_VALUE else HasAccepted(s.nodes[a], ONE)
    {
      VotedIs(cfg, s1, s, b, all, all - {0}, a);
      BegunIs(cfg, Init(cfg), s1, {0}, a);
    }
  }

  /** Peer 1 begins late, is told of that value by the others and proposes it; only the last peer accepts. */
  lemma {:induction false} LateTwo(cfg: Config) returns (s: Sys)
    requires cfg.threshold == cfg.total >= 3
    ensures Reached(cfg, Once, s) && Waiting(cfg, s, 2, 2) && |s.nodes| == cfg.total
    ensures forall a {:trigger s.nodes[a]} :: 0 <= a < cfg.total ==>
              s.nodes[a].peer.paxos.maxID == 2 && (a < 2 ==> s.nodes[a].peer.paxos.acceptedValue == ZERO_VALUE)
    ensures forall a {:trigger Voted(s.net, a, 0, 1, ONE)} :: 1 <= a < cfg.total ==> Voted(s.net, a, 0, 1, ONE)
    ensures Voted(s.net, cfg.total - 1, 0, 2, ONE)
  {
    hide Reached, Peers, Own, Ready, Calm, Open, At, Waiting, Began;
    var last := cfg.total - 1;
    var all, b := Peers(cfg.total), Attempt(1, 2, 1, Own(1), ONE, last);
    PeersSize(cfg.total);
    var s0 := LateOne(cfg);
    WaitingReady(cfg, s0, 1, 1, 1);
    var s1 := BeginMany(cfg, Once, s0, {1}, 0);
    BegunWaiting(cfg, s0, s1, {1}, 1, 1, 2);
    LateOpens(cfg, s0, s1, b, all);
    s := RoundVotes(cfg, Once, s1, b, all, {last});
    VotedWaiting(cfg, s1, s, b, all, {last}, 1, 2);
    BeganGrows(cfg, s0, s1, {1}, 0);
    forall a | 0 <= a < cfg.total
      ensures s.nodes[a].peer.paxos.maxID == 2 && (a < 2 ==> s.nodes[a].peer.paxos.acceptedValue == ZERO_VALUE)
      ensures a >= 1 ==> Voted(s.net, a, 0, 1, ONE)
    {
      VotedIs(cfg, s1, s, b, all, {last}, a);
      BegunIs(cfg, s0, s1, {1}, a);
      assert a >= 1 ==> Voted(s0.net, a, 0, 1, ONE);
    }
  }

  lemma {:induction false} LateOpens(cfg: Config, s0: Sys, s1: Sys, b: Attempt, all: set<nat>)
    requires cfg.threshold == cfg.total >= 3 && all == Peers(cfg.total) && |all| == cfg.total
    requires b == Attempt(1, 2, 1, Own(1), ONE, cfg.total - 1)
    requires Waiting(cfg, s0, 1, 1) && Began(cfg, s0, s1, {1}, 0) && Waiting(cfg, s1, 1, 2)
    requires forall a {:trigger s0.nodes[a]} :: 0 <= a < cfg.total ==>
               && s0.nodes[a].peer.paxos.maxID == 1
               && if a == 0 then s0.nodes[a].peer.paxos.acceptedValue == ZERO_VALUE else HasAccepted(s0.nodes[a], ONE)
    ensures Open(cfg, s1, b, all)
  {
    hide Peers, Own, Calm, Acceptor, Collected, DoBegin;
    OwnDiffers(0, 0);
    assert PaxosRun.Ballot(cfg.total, 1, 0) == 2;
    assert Prepared(cfg.total, 1, 0) in s1.net;
    forall a | 0 <= a < cfg.total
      ensures Acceptor(s1.nodes[a], s1.nodes[a], b, false, false)
      ensures s1.nodes[a].peer.paxos.maxID < 2 && s1.nodes[a].peer.paxos.acceptedValue in {ZERO_VALUE, ONE}
      ensures a >= 2 ==> HasAccepted(s1.nodes[a], ONE)
    {
      BegunIs(cfg, s0, s1, {1}, a);
      CalmAcceptor(s1.nodes[a], b);
    }
    assert Uncalled(s0.nodes[1]) && Calm(s0.nodes[1], 1);
    BegunNode(cfg, s0.nodes[1], b, 0);
  }

  /** The others begin late too, and forget it; then the last peer's value is accepted by everybody. */
  lemma {:induction false} LatePiles(cfg: Config)
      returns (s: Sys, left: seq<Packet>, right: seq<Packet>, w: PaxosValue)
    requires cfg.threshold == cfg.total >= 3
    ensures Reached(cfg, Once, s) && Piled(cfg, s, left, right, w)
  {
    hide Reached, Peers, Own, Ready, Calm, Open, At, Waiting, Began, Ballots, Uncounted, Pile, PaxosRun.Ballot;
    var n := cfg.total;
    var last, all := n - 1, Peers(n);
    PeersSize(n);
    var s0 := LateTwo(cfg);
    var d := all - {0, 1};
    forall a | a in d
      ensures Ready(Once, s0, a, 0)
    {
      WaitingReady(cfg, s0, 2, 2, a);
    }
    var s1 := BeginMany(cfg, Once, s0, d, 0);
    BeganGrows(cfg, s0, s1, d, 0);
    w := Own(last);
    var b := Attempt(last, n, 2, w, w, 0);
    LastOpens(cfg, s0, s1, d, b, all);
    s := RoundVotes(cfg, Once, s1, b, all, all);
    CalmUncounted(cfg, s, n);
    OwnDiffers(0, last);
    PileBallots(s.net, 0, n, n, w);
    PileBallots(s0.net, 1, n - 1, 1, ONE);
    var one := Pile(1, n - 1, 1, ONE);
    BallotsGrow(s0.net, s.net, one, ONE);
    var more := Packet(last, None, Accept(0, 2, ONE));
    assert Voted(s0.net, last, 0, 2, ONE);
    BallotsSnoc(s.net, one, more, ONE);
    left, right := one + [more], Pile(0, n, n, w);
  }

  lemma {:induction false} LastOpens(cfg: Config, s0: Sys, s1: Sys, d: set<nat>, b: Attempt, all: set<nat>)
    requires cfg.threshold == cfg.total >= 3 && all == Peers(cfg.total) && |all| == cfg.total && d == all - {0, 1}
    requires b == Attempt(cfg.total - 1, cfg.total, 2, Own(cfg.total - 1), Own(cfg.total - 1), 0)
    requires Waiting(cfg, s0, 2, 2) && Began(cfg, s0, s1, d, 0)
    requires forall a {:trigger s0.nodes[a]} :: 0 <= a < cfg.total ==>
               s0.nodes[a].peer.paxos.maxID == 2 && (a < 2 ==> s0.nodes[a].peer.paxos.acceptedValue == ZERO_VALUE)
    ensures Open(cfg, s1, b, all)
  {
    hide Peers, Own, Calm, Began, Open;
    assert Uncalled(s0.nodes[cfg.total - 1]);
    assert PaxosRun.Ballot(cfg.total, b.p, 0) == b.id;
    BegunOpens(cfg, s0, s1, d, 0, b, all);
  }

  // ----- a peer counts accepts of one value

  ghost predicate Counting(cfg: Config, n: Node, pkts: seq<Packet>, k: nat, v: PaxosValue) {
    && k <= |pkts| && Valid(n.peer.paxos) && Clock(n) == 0 && Silent(n.peer)
    && (forall pkt :: pkt in n.handled && pkt.msg.Accept? ==> pkt in pkts[..k])
    && if k >= cfg.threshold then
         0 in n.learned && n.learned[0] == v && n.peer.sent == [TLC(0, GetBlock(cfg.h, map[], v, 0))]
       else
         && 0 !in n.learned && 0 !in n.peer.paxos.acceptedMap && n.peer.sent == []
         && n.peer.paxos.accepts == if k == 0 then map[] else map[v := k]
  }

  /** The k-th accept of a value, no other value having been accepted. */
  lemma {:induction false} AcceptCounted(p: Paxos, m: Msg, k: nat, threshold: nat)
    requires m.Accept? && m.step == p.clock == 0 && 0 !in p.acceptedMap
    requires p.accepts == if k == 0 then map[] else map[m.value := k]
    ensures var (p', value) := OnAccept(p, m, threshold);
            && p'.clock == 0 && p'.consensus == p.consensus && p'.tlcs == p.tlcs && p'.promises == p.promises
            && if k + 1 >= threshold then value == Some(m.value)
               else value == None && 0 !in p'.acceptedMap && p'.accepts == map[m.value := k + 1]
  {
  }

  lemma {:induction false} CountOne(cfg: Config, n: Node, x: nat, net: set<Packet>, pkts: seq<Packet>, k: nat,
        v: PaxosValue)
    requires Ballots(net, pkts, v) && k < |pkts| == cfg.threshold && Counting(cfg, n, pkts, k, v)
    ensures pkts[k] !in n.handled && DoHandle(cfg, n, x, pkts[k]).1 == {}
    ensures Counting(cfg, DoHandle(cfg, n, x, pkts[k]).0, pkts, k + 1, v)
  {
    hide OnAccept, GetBlock;
    assert pkts[..k + 1] == pkts[..k] + [pkts[k]];
    AcceptCounted(n.peer.paxos, pkts[k].msg, k, cfg.threshold);
  }

  lemma {:induction false} CountAll(cfg: Config, rule: Rule, s0: Sys, x: nat, pkts: seq<Packet>, k: nat, v: PaxosValue)
      returns (s: Sys)
    requires Reached(cfg, rule, s0) && |s0.nodes| == cfg.total && x < cfg.total
    requires Ballots(s0.net, pkts, v) && k <= |pkts| == cfg.threshold && Counting(cfg, s0.nodes[x], pkts, 0, v)
    ensures Reached(cfg, rule, s) && s.net == s0.net && |s.nodes| == cfg.total
    ensures Counting(cfg, s.nodes[x], pkts, k, v)
    ensures forall a {:trigger s.nodes[a]} :: 0 <= a < cfg.total && a != x ==> s.nodes[a] == s0.nodes[a]
  {
    hide Reached, DoHandle;
    if k == 0 {
      s := s0;
    } else {
      s := CountAll(cfg, rule, s0, x, pkts, k - 1, v);
      CountOne(cfg, s.nodes[x], x, s0.net, pkts, k - 1, v);
      s := HandleAt(cfg, rule, s, x, pkts[k - 1]);
    }
  }

  // ----- two peers settle on different values

  lemma QuietCounts(cfg: Config, n: Node, pkts: seq<Packet>, v: PaxosValue)
    requires Uncounted(n) && cfg.threshold > 0
    ensures Counting(cfg, n, pkts, 0, v)
  {
  }

  lemma {:induction false} Disagreement(cfg: Config, rule: Rule, s0: Sys, left: seq<Packet>, right: seq<Packet>,
        w: PaxosValue) returns (s: Sys)
    requires Sound(cfg) && cfg.total >= 2 && Reached(cfg, rule, s0) && Piled(cfg, s0, left, right, w)
    ensures Reached(cfg, rule, s) && Settled(s, 0, 0, ONE) && Settled(s, 1, 0, w)
  {
    hide Reached, Ballots;
    var t := cfg.threshold;
    QuietCounts(cfg, s0.nodes[0], left, ONE);
    QuietCounts(cfg, s0.nodes[1], right, w);
    var s1 := CountAll(cfg, rule, s0, 0, left, t, ONE);
    assert s1.nodes[1] == s0.nodes[1];
    s := CountAll(cfg, rule, s1, 1, right, t, w);
    assert s.nodes[0] == s1.nodes[0];
  }

  /** What one rule permits, a wider one does. */
  lemma {:induction false} WiderRule(cfg: Config, rule: Rule, es: seq<Event>)
    requires Legal(cfg, Early, es)
    ensures Legal(cfg, rule, es) && Run(cfg, rule, es) == Run(cfg, Early, es)
  {
    hide Act;
    if es != [] {
      var before, e := es[..|es| - 1], es[|es| - 1];
      WiderRule(cfg, rule, before);
      WiderStep(cfg, rule, Run(cfg, Early, before), e);
    }
  }

  lemma WiderStep(cfg: Config, rule: Rule, s: Sys, e: Event)
    requires Enabled(cfg, Early, s, e)
    ensures Enabled(cfg, rule, s, e) && Step(cfg, rule, s, e) == Step(cfg, Early, s, e)
  {
    hide DoHandle, DoClose, DoConclude, DoBegin;
  }

  /** When all counts of a step settle on one value. */
  predicate CountsSettle(cfg: Config, rule: Rule) {
    (rule.Early? && cfg.threshold >= cfg.total) || (rule.Once? && cfg.threshold == cfg.total == 2)
  }

  /** Otherwise some run comes to two piles. */
  lemma {:induction false} TwoPiles(cfg: Config, rule: Rule)
    returns (s: Sys, left: seq<Packet>, right: seq<Packet>, w: PaxosValue)
    requires Sound(cfg) && 2 <= cfg.total && cfg.threshold <= cfg.total && !CountsSettle(cfg, rule)
    ensures Reached(cfg, rule, s) && Piled(cfg, s, left, right, w)
  {
    hide Legal, Run, Unclosed, Piled;
    if cfg.threshold < cfg.total {
      s, left, right, w := EarlyPiles(cfg);
      var es :| Legal(cfg, Early, es) && Run(cfg, Early, es) == s && Unclosed(es);
      WiderRule(cfg, rule, es);
    } else if rule.Once? {
      s, left, right, w := LatePiles(cfg);
    } else {
      s, left, right, w := RetriedPiles(cfg);
    }
  }

  // ----- when they settle on one value

  /** With a quorum of everybody, all votes of a step are for one value. */
  lemma {:induction false} VotesAgree(cfg: Config, s: Sys, step: nat, a: nat, id: nat, v: PaxosValue, a': nat,
        id': nat, v': PaxosValue)
    requires cfg.total > 0 && Inv(cfg, s) && AllClear(s) && cfg.threshold >= cfg.total
    requires Voted(s.net, a, step, id, v) && Voted(s.net, a', step, id', v') && id <= id'
    ensures v == v'
  {
    assert PacketInv(cfg, s.nodes, s.net, Packet(a, None, Accept(step, id, v)));
    forall r: set<nat> | r <= Peers(cfg.total) && |r| >= cfg.threshold
      ensures exists x :: x in {a} && x in r
    {
      PeersSize(cfg.total);
      if a !in r {
        SubsetSize(r, Peers(cfg.total) - {a});
      }
    }
    VoteWasProposed(cfg, s, a', step, id', v');
    VotesStay(cfg, s, {a}, step, id, v, Owner(cfg.total, id'), id', v');
  }

  /** The accepts of a value that a peer handled in a step. */
  function Tally(heard: set<Packet>, step: nat, v: PaxosValue): set<Packet> {
    set pkt | pkt in heard && pkt.msg.Accept? && pkt.msg.step == step && pkt.msg.value == v
  }

  /** A count is no more than the accepts handled, and what it settled on reached the threshold. */
  ghost predicate Tallied(cfg: Config, n: Node) {
    && Valid(n.peer.paxos) && n.heard <= n.handled
    && (forall v {:trigger Tally(n.heard, Clock(n), v)} ::
          v in n.peer.paxos.accepts ==> n.peer.paxos.accepts[v] <= |Tally(n.heard, Clock(n), v)|)
    && (forall step {:trigger n.learned[step]} ::
          step in n.learned ==> |Tally(n.heard, step, n.learned[step])| >= cfg.threshold)
  }

  lemma TallyGrows(heard: set<Packet>, pkt: Packet, step: nat, v: PaxosValue)
    requires pkt !in heard
    ensures |Tally(heard + {pkt}, step, v)| ==
            |Tally(heard, step, v)| + if pkt.msg.Accept? && pkt.msg.step == step && pkt.msg.value == v then 1 else 0
  {
    if pkt.msg.Accept? && pkt.msg.step == step && pkt.msg.value == v {
      assert Tally(heard + {pkt}, step, v) == Tally(heard, step, v) + {pkt};
    } else {
      assert Tally(heard + {pkt}, step, v) == Tally(heard, step, v);
    }
  }

  /** Nothing new is counted, and what was heard is not lost. */
  lemma {:induction false} TallyKept(cfg: Config, n: Node, n': Node, pkt: Packet)
    requires Tallied(cfg, n) && Valid(n'.peer.paxos) && n'.heard <= n'.handled && n'.learned == n.learned
    requires n'.heard == n.heard || (n'.heard == n.heard + {pkt} && pkt !in n.heard)
    requires n'.peer.paxos.accepts == map[] || (n'.peer.paxos.accepts == n.peer.paxos.accepts && Clock(n') == Clock(n))
    ensures Tallied(cfg, n')
  {
    hide Tally, Valid;
    forall v | v in n'.peer.paxos.accepts
      ensures n'.peer.paxos.accepts[v] <= |Tally(n'.heard, Clock(n'), v)|
    {
      if n'.heard != n.heard {
        TallyGrows(n.heard, pkt, Clock(n), v);
      }
    }
    forall step | step in n'.learned
      ensures |Tally(n'.heard, step, n'.learned[step])| >= cfg.threshold
    {
      if n'.heard != n.heard {
        TallyGrows(n.heard, pkt, step, n.learned[step]);
      }
    }
  }

  lemma CountGoes(p: Paxos, m: Msg, threshold: nat)
    requires m.Accept?
    ensures var (p', value) := OnAccept(p, m, threshold);
            && p'.clock == p.clock && p'.tlcs == p.tlcs && p'.consensus == p.consensus
            && if m.step != p.clock then p' == p && value == None
               else if p.clock in p.acceptedMap then p' == p
               else
                 && p'.accepts == p.accepts[m.value := (if m.value in p.accepts then p.accepts[m.value] else 0) + 1]
                 && (value.Some? ==> p'.accepts[m.value] >= threshold)
  {
  }

  /** What an accept does to the counts. */
  lemma AcceptCounts(cfg: Config, n: Node, i: nat, pkt: Packet)
    requires pkt.msg.Accept?
    ensures var n' := DoHandle(cfg, n, i, pkt).0;
            var p, p', v := n.peer.paxos, n'.peer.paxos, pkt.msg.value;
            && p'.clock == p.clock
            && ((p'.accepts == p.accepts && n'.learned == n.learned)
                || (pkt.msg.step == p.clock
                    && p'.accepts == p.accepts[v := (if v in p.accepts then p.accepts[v] else 0) + 1]
                    && (n'.learned == n.learned
                        || (n'.learned == n.learned[p.clock := v] && p'.accepts[v] >= cfg.threshold))))
  {
    hide OnPrepare, OnPromise, OnPropose, OnAccept, GetBlock;
    CountGoes(n.peer.paxos, pkt.msg, cfg.threshold);
  }

  lemma AcceptTallied(cfg: Config, n: Node, i: nat, pkt: Packet)
    requires Tallied(cfg, n) && pkt.msg.Accept? && pkt !in n.handled
    ensures Tallied(cfg, DoHandle(cfg, n, i, pkt).0)
  {
    hide Tally, Valid, DoHandle;
    AcceptDoes(cfg, n, i, pkt);
    AcceptCounts(cfg, n, i, pkt);
    var n' := DoHandle(cfg, n, i, pkt).0;
    forall step, v
      ensures n'.heard != n.heard ==>
                |Tally(n'.heard, step, v)| ==
                |Tally(n.heard, step, v)| + if pkt.msg.step == step && pkt.msg.value == v then 1 else 0
    {
      TallyGrows(n.heard, pkt, step, v);
    }
  }

  lemma VoteTallied(cfg: Config, n: Node, i: nat, pkt: Packet)
    requires Tallied(cfg, n) && !pkt.msg.Accept? && pkt !in n.handled
    ensures Tallied(cfg, DoHandle(cfg, n, i, pkt).0)
  {
    hide Tallied, Tally, OnAccept;
    VoteKeepsCounts(cfg, n, i, pkt);
    TallyKept(cfg, n, DoHandle(cfg, n, i, pkt).0, pkt);
  }

  lemma VoteKeepsCounts(cfg: Config, n: Node, i: nat, pkt: Packet)
    requires Tallied(cfg, n) && !pkt.msg.Accept? && pkt !in n.handled
    ensures var n' := DoHandle(cfg, n, i, pkt).0;
            && Valid(n'.peer.paxos) && n'.learned == n.learned && Clock(n') == Clock(n) && n'.heard <= n'.handled
            && n'.peer.paxos.accepts == n.peer.paxos.accepts
            && n'.heard == (if pkt.msg.step == Clock(n) then n.heard + {pkt} else n.heard) && pkt !in n.heard
  {
    hide Tally, DoHandle;
    match pkt.msg
    case Prepare(_, _, _) => PrepareDoes(cfg, n, i, pkt);
    case Promise(_, _, _, _) => PromiseDoes(cfg, n, i, pkt);
    case Propose(_, _, _) => ProposeDoes(cfg, n, i, pkt);
  }

  lemma CloseTallied(cfg: Config, n: Node, tlc: TLC)
    requires Tallied(cfg, n)
    ensures Tallied(cfg, DoClose(cfg, n, tlc))
  {
    hide Tallied, Tally, Process;
    assert Valid(n.peer.paxos) by {
      TalliedValid(cfg, n);
    }
    ProcessClears(n.peer.(paxos := OnTLC(n.peer.paxos, tlc, cfg.threshold)), n.peer.paxos.clock, false);
    TalliedValid(cfg, n);
    TallyKept(cfg, n, DoClose(cfg, n, tlc), Packet(0, None, Prepare(0, 0, 0)));
  }

  lemma TalliedValid(cfg: Config, n: Node)
    requires Tallied(cfg, n)
    ensures Valid(n.peer.paxos) && n.heard <= n.handled
  {
  }

  lemma {:induction false} ActTallied(cfg: Config, rule: Rule, s: Sys, e: Event)
    requires Enabled(cfg, rule, s, e) && Tallied(cfg, s.nodes[e.i])
    ensures Tallied(cfg, Act(cfg, rule, s, e).0)
  {
    hide Tallied, DoHandle, DoClose, Tally;
    var n := s.nodes[e.i];
    TalliedValid(cfg, n);
    match e
    case Begin(_, _, _) => TallyKept(cfg, n, Act(cfg, rule, s, e).0, Packet(0, None, Prepare(0, 0, 0)));
    case Conclude(_) => TallyKept(cfg, n, Act(cfg, rule, s, e).0, Packet(0, None, Prepare(0, 0, 0)));
    case Finish(_) => TallyKept(cfg, n, Act(cfg, rule, s, e).0, Packet(0, None, Prepare(0, 0, 0)));
    case Close(_, tlc) => CloseTallied(cfg, n, tlc);
    case Handle(i, pkt) =>
      if pkt.msg.Accept? {
        AcceptTallied(cfg, n, i, pkt);
      } else {
        VoteTallied(cfg, n, i, pkt);
      }
  }

  ghost predicate AllTallied(cfg: Config, s: Sys) {
    |s.nodes| == cfg.total && forall i {:trigger s.nodes[i]} :: 0 <= i < cfg.total ==> Tallied(cfg, s.nodes[i])
  }

  lemma {:induction false} RunTallied(cfg: Config, rule: Rule, es: seq<Event>)
    requires Legal(cfg, rule, es)
    ensures AllTallied(cfg, Run(cfg, rule, es))
  {
    hide Act, Tallied, Enabled;
    if es == [] {
      NewTallied(cfg);
    } else {
      var before, e := es[..|es| - 1], es[|es| - 1];
      RunTallied(cfg, rule, before);
      ActsInside(cfg, rule, Run(cfg, rule, before), e);
      ActTallied(cfg, rule, Run(cfg, rule, before), e);
    }
  }

  lemma NewTallied(cfg: Config)
    ensures Tallied(cfg, NEW_NODE)
  {
  }

  /** Two accepts behind what a peer settled on, if a threshold is two or more. */
  lemma {:induction false} TwoAccepts(cfg: Config, s: Sys, i: nat, step: nat, v: PaxosValue)
      returns (a: nat, id: nat, a': nat, id': nat)
    requires cfg.total > 0 && Inv(cfg, s) && AllTallied(cfg, s) && cfg.threshold >= 2 && Settled(s, i, step, v)
    ensures Voted(s.net, a, step, id, v) && Voted(s.net, a', step, id', v) && (a != a' || id != id')
    ensures a < cfg.total && a' < cfg.total
  {
    hide AcceptorInv, InboxInv, HistoryInv, LearnedInv;
    var n := s.nodes[i];
    assert NodeInv(cfg, s.net, i, n) && Tallied(cfg, n);
    var tally := Tally(n.heard, step, v);
    assert |tally| >= 2;
    var p :| p in tally;
    assert |tally - {p}| == |tally| - 1;
    assert tally - {p} != {};
    var q :| q in tally - {p};
    assert PacketInv(cfg, s.nodes, s.net, p) && PacketInv(cfg, s.nodes, s.net, q);
    assert p == Packet(p.origin, None, Accept(step, p.msg.id, v));
    assert q == Packet(q.origin, None, Accept(step, q.msg.id, v));
    a, id, a', id' := p.origin, p.msg.id, q.origin, q.msg.id;
  }

  /** Two peers that begin once a step: two accepts of a value are of one id, and then it is chosen, or they are
      of both ids there are. */
  lemma {:induction false} TwoPeersAgree(cfg: Config, es: seq<Event>, i: nat, j: nat, step: nat, v: PaxosValue,
        w: PaxosValue)
    requires Sound(cfg) && cfg.total == cfg.threshold == 2 && Legal(cfg, Once, es)
    requires Settled(Run(cfg, Once, es), i, step, v) && Settled(Run(cfg, Once, es), j, step, w)
    ensures v == w
  {
    hide Inv, AllTallied, Settled, Chosen, Peers;
    RunKeeps(cfg, Once, es);
    RunTallied(cfg, Once, es);
    var s := Run(cfg, Once, es);
    var a, x, a', x' := TwoAccepts(cfg, s, i, step, v);
    var b, y, b', y' := TwoAccepts(cfg, s, j, step, w);
    VoteWasProposed(cfg, s, a, step, x, v);
    VoteWasProposed(cfg, s, a', step, x', v);
    VoteWasProposed(cfg, s, b, step, y, w);
    VoteWasProposed(cfg, s, b', step, y', w);
    if x == x' && y == y' {
      BothChoose(cfg, s, step, x, v, a, a');
      BothChoose(cfg, s, step, y, w, b, b');
      ChosenUnique(cfg, Once, es, step, x, v, y, w);
    } else if x != x' {
      OneOfTwo(cfg, s, step, x, v, x', v, y, w);
    } else {
      OneOfTwo(cfg, s, step, y, w, y', w, x, v);
    }
  }

  lemma BothChoose(cfg: Config, s: Sys, step: nat, id: nat, v: PaxosValue, a: nat, a': nat)
    requires cfg.total == 2 && cfg.threshold == 2 && a < 2 && a' < 2 && a != a'
    requires Voted(s.net, a, step, id, v) && Voted(s.net, a', step, id, v)
    ensures Chosen(cfg, s.net, step, id, v)
  {
    hide Peers;
    PeersSize(2);
    assert ChosenBy(cfg, s.net, Peers(2), step, id, v);
  }

  /** Of two peers with one id each, a third proposal is one of theirs. */
  lemma OneOfTwo(cfg: Config, s: Sys, step: nat, x: nat, v: PaxosValue, x': nat, v': PaxosValue, y: nat, w: PaxosValue)
    requires cfg.total == 2 && Inv(cfg, s) && x != x' && v == v'
    requires Proposed(s.net, Owner(2, x), step, x, v) && Proposed(s.net, Owner(2, x'), step, x', v')
    requires Proposed(s.net, Owner(2, y), step, y, w)
    ensures v == w
  {
    hide Inv, Owner;
    if Owner(2, x) == Owner(2, x') {
      OneProposal(cfg, s, Owner(2, x), step, x, v, Owner(2, x'), x', v');
    }
    if Owner(2, y) == Owner(2, x) {
      OneProposal(cfg, s, Owner(2, x), step, x, v, Owner(2, y), y, w);
    } else {
      OneProposal(cfg, s, Owner(2, x'), step, x', v', Owner(2, y), y, w);
    }
  }

  lemma {:induction false} SettledAgree(cfg: Config, rule: Rule, es: seq<Event>, i: nat, j: nat, step: nat,
        v: PaxosValue, w: PaxosValue)
    requires Sound(cfg) && cfg.total > 0 && CountsSettle(cfg, rule) && Legal(cfg, rule, es)
    requires Settled(Run(cfg, rule, es), i, step, v) && Settled(Run(cfg, rule, es), j, step, w)
    ensures v == w
  {
    hide Run, Legal, Inv;
    if rule.Once? {
      TwoPeersAgree(cfg, es, i, j, step, v, w);
    } else {
      RunKeeps(cfg, Early, es);
      RunClear(cfg, es);
      var s := Run(cfg, Early, es);
      var a, id := SettledVote(cfg, s, i, step, v);
      var a', id' := SettledVote(cfg, s, j, step, w);
      if id <= id' {
        VotesAgree(cfg, s, step, a, id, v, a', id', w);
      } else {
        VotesAgree(cfg, s, step, a', id', w, a, id, v);
      }
    }
  }

  lemma SettledVote(cfg: Config, s: Sys, i: nat, step: nat, v: PaxosValue) returns (a: nat, id: nat)
    requires cfg.total > 0 && Inv(cfg, s) && Settled(s, i, step, v)
    ensures Voted(s.net, a, step, id, v)
  {
    assert NodeInv(cfg, s.net, i, s.nodes[i]);
    a, id :| Voted(s.net, a, step, id, v);
  }

  /** Counting accepts over all ids settles every peer on one value, in every run, exactly when a quorum is
      everybody and peers begin before they take part in a step, or begin once a step and are two. */
  lemma {:induction false} CountsAgreeIff(cfg: Config, rule: Rule)
    requires Sound(cfg) && cfg.total > 0 && (rule.Early? || 2 <= cfg.threshold <= cfg.total)
    ensures CountsAgree(cfg, rule) <==> CountsSettle(cfg, rule)
  {
    hide Settled, Legal, Run, Piled, Reached, Own;
    if CountsSettle(cfg, rule) {
      forall es, i, j, step, v, w |
        Legal(cfg, rule, es) && Settled(Run(cfg, rule, es), i, step, v) && Settled(Run(cfg, rule, es), j, step, w)
        ensures v == w
      {
        SettledAgree(cfg, rule, es, i, j, step, v, w);
      }
    } else {
      var s0, left, right, w := TwoPiles(cfg, rule);
      PiledDiffer(cfg, s0, left, right, w);
      var s := Disagreement(cfg, rule, s0, left, right, w);
      ReachedByRun(cfg, rule, s);
    }
  }

  lemma PiledDiffer(cfg: Config, s: Sys, left: seq<Packet>, right: seq<Packet>, w: PaxosValue)
    requires Piled(cfg, s, left, right, w)
    ensures w != ONE
  {
  }

  lemma ReachedByRun(cfg: Config, rule: Rule, s: Sys)
    requires Reached(cfg, rule, s)
    ensures exists es :: Legal(cfg, rule, es) && Run(cfg, rule, es) == s
  {
  }
}
