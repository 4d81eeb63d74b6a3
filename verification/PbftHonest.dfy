/** The runs in which every peer has role 0: what the blocks contain. */
module PbftHonest {
  import opened Common
  import opened PbftNode
  import opened PbftRun

  /** No two requests share a digest. */
  ghost predicate Injective(cfg: Config) {
    forall r, r' :: cfg.digest(r) == cfg.digest(r') ==> r == r'
  }

  /** The request announced under each id so far, by the id's owner. */
  type Ledger = map<nat, Request>

  ghost predicate Follows(cfg: Config, ledger: Ledger, id: nat, digest: string) {
    id in ledger && cfg.digest(ledger[id]) == digest
  }

  ghost predicate PeerHonest(cfg: Config, ledger: Ledger, n: Node) {
    && !n.locked
    && (forall id :: id in n.logPrePrepare ==> Follows(cfg, ledger, id, n.logPrePrepare[id]))
    && (forall k :: 0 <= k < |n.stored| ==>
          n.stored[k].id in ledger && n.stored[k].request == ledger[n.stored[k].id])
  }

  ghost predicate MsgHonest(cfg: Config, ledger: Ledger, m: Msg) {
    Follows(cfg, ledger, m.id, m.digest) && (m.PrePrepare? ==> m.request == ledger[m.id])
  }

  ghost predicate PeersHonest(cfg: Config, ledger: Ledger, nodes: seq<Node>) {
    forall i :: 0 <= i < |nodes| ==> PeerHonest(cfg, ledger, nodes[i])
  }

  ghost predicate NetHonest(cfg: Config, ledger: Ledger, net: set<Msg>) {
    forall m {:trigger MsgHonest(cfg, ledger, m)} :: m in net ==> MsgHonest(cfg, ledger, m)
  }

  ghost predicate LedgerInv(cfg: Config, ledger: Ledger, nodes: seq<Node>, net: set<Msg>)
    requires cfg.total > 0 && |nodes| == cfg.total
  {
    forall id {:trigger Owner(cfg.total, id)} :: id in ledger ==>
      && id in nodes[Owner(cfg.total, id)].logPrePrepare
      && PrePrepare(ledger[id], cfg.digest(ledger[id]), id, Owner(cfg.total, id)) in net
  }

  ghost predicate HonestInv(cfg: Config, ledger: Ledger, s: Sys)
    requires cfg.total > 0
  {
    && |s.nodes| == |s.current| == cfg.total
    && PeersHonest(cfg, ledger, s.nodes)
    && NetHonest(cfg, ledger, s.net)
    && LedgerInv(cfg, ledger, s.nodes, s.net)
  }

  /** No handler forgets that an id was logged. */
  ghost predicate LogGrows(n: Node, n': Node) {
    forall id :: id in n.logPrePrepare ==> id in n'.logPrePrepare
  }

  lemma OnePeerHonest(cfg: Config, ledger: Ledger, s: Sys, i: nat, n': Node, out: set<Msg>)
    requires cfg.total > 0 && HonestInv(cfg, ledger, s) && i < cfg.total
    requires LogGrows(s.nodes[i], n') && PeerHonest(cfg, ledger, n')
    requires NetHonest(cfg, ledger, out)
    ensures PeersHonest(cfg, ledger, s.nodes[i := n'])
    ensures NetHonest(cfg, ledger, s.net + out)
    ensures LedgerInv(cfg, ledger, s.nodes[i := n'], s.net + out)
  {
  }

  ghost predicate Extends(ledger: Ledger, ledger': Ledger) {
    forall id :: id in ledger ==> id in ledger' && ledger'[id] == ledger[id]
  }

  lemma NodesFollowLonger(cfg: Config, ledger: Ledger, ledger': Ledger, nodes: seq<Node>)
    requires Extends(ledger, ledger') && PeersHonest(cfg, ledger, nodes)
    ensures PeersHonest(cfg, ledger', nodes)
  {
    forall i | 0 <= i < |nodes|
      ensures PeerHonest(cfg, ledger', nodes[i])
    {
      assert PeerHonest(cfg, ledger, nodes[i]);
    }
  }

  lemma NetFollowsLonger(cfg: Config, ledger: Ledger, ledger': Ledger, net: set<Msg>)
    requires Extends(ledger, ledger') && NetHonest(cfg, ledger, net)
    ensures NetHonest(cfg, ledger', net)
  {
    forall m | m in net
      ensures MsgHonest(cfg, ledger', m)
    {
      assert MsgHonest(cfg, ledger, m);
    }
  }

  lemma NextID(cfg: Config, n: Node)
    requires cfg.total > 0 && NodeInv(cfg, n)
    ensures Owner(cfg.total, n.pbftID + cfg.total) == n.addr && n.pbftID + cfg.total !in n.logPrePrepare
  {
    assert n.pbftID == 0 ==> Owner(cfg.total, cfg.total) == cfg.total - 1;
  }

  lemma TagPeer(cfg: Config, ledger: Ledger, n: Node, request: Request)
    requires cfg.total > 0 && PeerHonest(cfg, ledger, n)
    ensures var (n', pp) := Propose(cfg, n, request, true);
            pp.id !in ledger ==>
              PeerHonest(cfg, ledger[pp.id := request], n') && MsgHonest(cfg, ledger[pp.id := request], pp)
  {
    var (n', pp) := Propose(cfg, n, request, true);
    assert n'.stored == n.stored && n'.logPrePrepare == n.logPrePrepare[pp.id := pp.digest];
  }

  lemma TagLedger(cfg: Config, ledger: Ledger, nodes: seq<Node>, net: set<Msg>, i: nat, request: Request)
    requires cfg.total > 0 && |nodes| == cfg.total && LedgerInv(cfg, ledger, nodes, net)
    requires i < cfg.total && nodes[i].addr == i && Owner(cfg.total, nodes[i].pbftID + cfg.total) == i
    ensures var (n', pp) := Propose(cfg, nodes[i], request, true);
            LedgerInv(cfg, ledger[pp.id := request], nodes[i := n'], net + {pp})
  {
  }

  lemma PeersReplaced(cfg: Config, ledger: Ledger, nodes: seq<Node>, i: nat, n': Node)
    requires PeersHonest(cfg, ledger, nodes) && PeerHonest(cfg, ledger, n') && i < |nodes|
    ensures PeersHonest(cfg, ledger, nodes[i := n'])
  {
  }

  lemma TagHonest(cfg: Config, ledger: Ledger, s: Sys, i: nat, request: Request, n': Node, pp: Msg)
    requires cfg.total > 0 && |s.nodes| == cfg.total && PeersHonest(cfg, ledger, s.nodes)
    requires NetHonest(cfg, ledger, s.net) && LedgerInv(cfg, ledger, s.nodes, s.net)
    requires i < cfg.total && s.nodes[i].addr == i && pp.id !in ledger
    requires Owner(cfg.total, s.nodes[i].pbftID + cfg.total) == i
    requires (n', pp) == Propose(cfg, s.nodes[i], request, true)
    ensures PeersHonest(cfg, ledger[pp.id := request], s.nodes[i := n'])
    ensures NetHonest(cfg, ledger[pp.id := request], s.net + {pp})
    ensures LedgerInv(cfg, ledger[pp.id := request], s.nodes[i := n'], s.net + {pp})
  {
    var ledger' := ledger[pp.id := request];
    TagPeer(cfg, ledger, s.nodes[i], request);
    NodesFollowLonger(cfg, ledger, ledger', s.nodes);
    PeersReplaced(cfg, ledger', s.nodes, i, n');
    NetFollowsLonger(cfg, ledger, ledger', s.net);
    TagLedger(cfg, ledger, s.nodes, s.net, i, request);
  }

  lemma TagStepHonest(cfg: Config, ledger: Ledger, s: Sys, i: nat, request: Request) returns (ledger': Ledger)
    requires cfg.total > 0 && HonestInv(cfg, ledger, s) && i < cfg.total && s.nodes[i].addr == i
    requires Owner(cfg.total, s.nodes[i].pbftID + cfg.total) == i
    requires s.nodes[i].pbftID + cfg.total !in s.nodes[i].logPrePrepare
    ensures var (n, pp) := Propose(cfg, s.nodes[i], request, true);
            HonestInv(cfg, ledger', Sys(s.nodes[i := n], s.current[i := Some(request)], s.net + {pp}))
  {
    var (n, pp) := Propose(cfg, s.nodes[i], request, true);
    TagHonest(cfg, ledger, s, i, request, n, pp);
    ledger' := ledger[pp.id := request];
  }

  lemma RetagHonest(cfg: Config, ledger: Ledger, s: Sys, i: nat)
    requires cfg.total > 0 && Injective(cfg) && HonestInv(cfg, ledger, s)
    requires i < cfg.total && s.current[i].Some?
    requires s.nodes[i].pbftID in s.nodes[i].logPrePrepare
    requires s.nodes[i].logPrePrepare[s.nodes[i].pbftID] == cfg.digest(s.current[i].value)
    ensures var (n, pp) := Propose(cfg, s.nodes[i], s.current[i].value, false);
            HonestInv(cfg, ledger, Sys(s.nodes[i := n], s.current, s.net + {pp}))
  {
    var n := s.nodes[i];
    var (n', pp) := Propose(cfg, n, s.current[i].value, false);
    assert PeerHonest(cfg, ledger, n);
    assert n'.logPrePrepare == n.logPrePrepare;
    OnePeerHonest(cfg, ledger, s, i, n', {pp});
  }

  /** A pre-prepare that follows the ledger matches what is logged, so no peer keeps its lock. */
  lemma PrePrepareHonest(cfg: Config, ledger: Ledger, n: Node, m: Msg)
    requires PeerHonest(cfg, ledger, n) && MsgHonest(cfg, ledger, m) && m.PrePrepare? && n.role == 0
    ensures var (n', r) := OnPrePrepare(cfg, n, m);
            && PeerHonest(cfg, ledger, n') && LogGrows(n, n')
            && (forall c :: c in Sent(r) ==> MsgHonest(cfg, ledger, c))
  {
  }

  lemma PrepareHonest(cfg: Config, ledger: Ledger, n: Node, m: Msg)
    requires PeerHonest(cfg, ledger, n) && MsgHonest(cfg, ledger, m) && m.Prepare? && n.role == 0
    ensures var (n', r) := OnPrepare(cfg, n, m);
            && PeerHonest(cfg, ledger, n') && LogGrows(n, n')
            && (forall c :: c in Sent(r) ==> MsgHonest(cfg, ledger, c))
  {
    hide Votes, Threshold;
    var n' := OnPrepare(cfg, n, m).0;
    assert n'.logPrePrepare == n.logPrePrepare && n'.stored == n.stored && n'.locked == n.locked;
  }

  lemma DecideHonest(cfg: Config, ledger: Ledger, n: Node, m: Msg, counted: set<nat>)
    requires cfg.total > 0 && Injective(cfg) && NodeInv(cfg, n) && PeerHonest(cfg, ledger, n)
    requires m.Commit? && MsgHonest(cfg, ledger, m) && m.id in n.logPrePrepare
    ensures PeerHonest(cfg, ledger, Decide(cfg, n, m, counted)) && LogGrows(n, Decide(cfg, n, m, counted))
  {
    var n' := Decide(cfg, n, m, counted);
    assert n'.logPrePrepare == n.logPrePrepare;
    assert forall k :: 0 <= k < |n.stored| ==> n'.stored[k] == n.stored[k];
    assert n'.stored[|n.stored|].request == n.logRequest[m.digest];
  }

  /** The message that completes a count carries the logged digest. */
  lemma CommitHonest(cfg: Config, ledger: Ledger, n: Node, m: Msg)
    requires cfg.total > 0 && Injective(cfg) && NodeInv(cfg, n) && PeerHonest(cfg, ledger, n)
    requires m.Commit? && MsgHonest(cfg, ledger, m)
    ensures PeerHonest(cfg, ledger, OnCommit(cfg, n, m).0) && LogGrows(n, OnCommit(cfg, n, m).0)
  {
    if m.src != n.addr {
      var n1 := n.(logCommit := Record(n.logCommit, m.src, m.id, m.digest));
      var counted := Counted(n1.logPrePrepare, n1.logCommit, m.id);
      if StateOf(n.state, m.id) == 1 && |counted| > Threshold(cfg.total) {
        DecideHonest(cfg, ledger, n1, m, counted);
      }
    }
  }

  lemma HandleHonest(cfg: Config, ledger: Ledger, n: Node, m: Msg)
    requires cfg.total > 0 && Injective(cfg) && NodeInv(cfg, n)
    requires PeerHonest(cfg, ledger, n) && MsgHonest(cfg, ledger, m)
    ensures var (n', r) := Handle(cfg, n, m);
            PeerHonest(cfg, ledger, n') && LogGrows(n, n') && NetHonest(cfg, ledger, Sent(r))
  {
    match m
    case PrePrepare(_, _, _, _) => PrePrepareHonest(cfg, ledger, n, m);
    case Prepare(_, _, _) => PrepareHonest(cfg, ledger, n, m);
    case Commit(_, _, _) => CommitHonest(cfg, ledger, n, m);
  }

  lemma DeliverHonest(cfg: Config, ledger: Ledger, s: Sys, i: nat, m: Msg)
    requires cfg.total > 0 && Injective(cfg) && HonestInv(cfg, ledger, s)
    requires i < cfg.total && m in s.net && NodeInv(cfg, s.nodes[i])
    ensures var (n, r) := Handle(cfg, s.nodes[i], m);
            HonestInv(cfg, ledger, Sys(s.nodes[i := n], s.current, s.net + Sent(r)))
  {
    var (n', r) := Handle(cfg, s.nodes[i], m);
    HandleHonest(cfg, ledger, s.nodes[i], m);
    OnePeerHonest(cfg, ledger, s, i, n', Sent(r));
  }

  lemma StepHonest(cfg: Config, ledger: Ledger, s: Sys, e: Event) returns (ledger': Ledger)
    requires cfg.total > 0 && Injective(cfg) && HonestInv(cfg, ledger, s) && Enabled(cfg, {}, s, e)
    requires s.nodes[e.peer].addr == e.peer && PeerInv(cfg, {}, s.net, s.nodes[e.peer], s.current[e.peer])
    ensures HonestInv(cfg, ledger', Step(cfg, {}, s, e))
  {
    ledger' := ledger;
    match e
    case Tag(i, request) =>
      NextID(cfg, s.nodes[i]);
      ledger' := TagStepHonest(cfg, ledger, s, i, request);
    case Retag(i) =>
      RetagHonest(cfg, ledger, s, i);
    case Deliver(i, m) =>
      DeliverHonest(cfg, ledger, s, i, m);
  }

  lemma {:induction false} HonestRun(cfg: Config, es: seq<Event>) returns (ledger: Ledger)
    requires Sound(cfg) && Injective(cfg) && Legal(cfg, {}, es)
    ensures HonestInv(cfg, ledger, Run(cfg, {}, es))
    decreases |es|
  {
    if es == [] {
      ledger := map[];
    } else {
      var before, e := es[..|es| - 1], es[|es| - 1];
      ledger := HonestRun(cfg, before);
      RunKeeps(cfg, {}, before);
      ledger := StepHonest(cfg, ledger, Run(cfg, {}, before), e);
    }
  }

  /** Every block is the request its id's owner announced, the only one it ever announced under that id. */
  lemma {:induction false} BlocksAreAnnounced(cfg: Config, es: seq<Event>, i: nat, e: Stored)
    requires Sound(cfg) && Injective(cfg) && Legal(cfg, {}, es) && Decided(Run(cfg, {}, es), i, e)
    ensures var net := Run(cfg, {}, es).net;
            && PrePrepare(e.request, cfg.digest(e.request), e.id, Owner(cfg.total, e.id)) in net
            && (forall m :: m in net && m.PrePrepare? && m.id == e.id ==> m.request == e.request)
  {
    var ledger := HonestRun(cfg, es);
    var s := Run(cfg, {}, es);
    assert PeerHonest(cfg, ledger, s.nodes[i]);
    assert forall m :: m in s.net ==> MsgHonest(cfg, ledger, m);
  }

  /** The lock a mismatching pre-prepare would leave held is always released. */
  lemma {:induction false} NeverLocked(cfg: Config, es: seq<Event>, i: nat)
    requires Sound(cfg) && Injective(cfg) && Legal(cfg, {}, es) && i < cfg.total
    ensures |Run(cfg, {}, es).nodes| == cfg.total && !Run(cfg, {}, es).nodes[i].locked
  {
    var ledger := HonestRun(cfg, es);
    assert PeerHonest(cfg, ledger, Run(cfg, {}, es).nodes[i]);
  }

  // ----- when the lock is kept

  ghost predicate Locked(s: Sys, i: nat) {
    i < |s.nodes| && s.nodes[i].locked
  }

  /** No run brings this peer to keep its lock. */
  ghost predicate AlwaysReleases(cfg: Config, faulty: set<nat>, i: nat) {
    forall es :: Legal(cfg, faulty, es) ==> !Locked(Run(cfg, faulty, es), i)
  }

  ghost predicate NoneFaulty(cfg: Config, faulty: set<nat>) {
    forall x :: x in faulty ==> x >= cfg.total
  }

  /** Faulty names that no peer has send nothing. */
  lemma {:induction false} OutsidersAreSilent(cfg: Config, faulty: set<nat>, es: seq<Event>)
    requires Legal(cfg, faulty, es) && NoneFaulty(cfg, faulty)
    ensures Legal(cfg, {}, es) && Run(cfg, {}, es) == Run(cfg, faulty, es)
  {
    hide Propose, Handle;
    if es != [] {
      OutsidersAreSilent(cfg, faulty, es[..|es| - 1]);
    }
  }

  const FIRST_REQUEST := ZERO_REQUEST.(filename := "a")
  const SECOND_REQUEST := ZERO_REQUEST.(filename := "b")

  /** A faulty peer announces two requests under one of its ids, and the honest one keeps its lock. */
  lemma {:induction false} TwoAnnouncementsLock(cfg: Config, faulty: set<nat>, i: nat, liar: nat)
      returns (es: seq<Event>)
    requires Sound(cfg) && Injective(cfg)
    requires i < cfg.total && i !in faulty && liar < cfg.total && liar in faulty
    ensures Legal(cfg, faulty, es) && Locked(Run(cfg, faulty, es), i)
  {
    var d, d' := cfg.digest(FIRST_REQUEST), cfg.digest(SECOND_REQUEST);
    assert FIRST_REQUEST.filename != SECOND_REQUEST.filename;
    var pp, pp' := PrePrepare(FIRST_REQUEST, d, liar + 1, liar), PrePrepare(SECOND_REQUEST, d', liar + 1, liar);
    assert Owner(cfg.total, liar + 1) == liar;
    var e, e' := Deliver(i, pp), Deliver(i, pp');
    assert [e][..0] == [] && [e, e'][..1] == [e];
    assert Legal(cfg, faulty, []) && Run(cfg, faulty, []) == Init(cfg);
    assert Enabled(cfg, faulty, Init(cfg), e);
    assert Legal(cfg, faulty, [e]);
    es := [e, e'];
  }

  /** An honest peer never keeps its lock, in any run, exactly when no peer is faulty. */
  lemma {:induction false} NeverLockedIff(cfg: Config, faulty: set<nat>, i: nat)
    requires Sound(cfg) && Injective(cfg) && i < cfg.total && i !in faulty
    ensures AlwaysReleases(cfg, faulty, i) <==> NoneFaulty(cfg, faulty)
  {
    hide Legal, Run;
    if NoneFaulty(cfg, faulty) {
      forall es | Legal(cfg, faulty, es)
        ensures !Locked(Run(cfg, faulty, es), i)
      {
        OutsidersAreSilent(cfg, faulty, es);
        NeverLocked(cfg, es, i);
      }
    } else {
      var liar :| liar in faulty && liar < cfg.total;
      var es := TwoAnnouncementsLock(cfg, faulty, i, liar);
    }
  }
}
