/** Every run of the vote in a network where some peers may send anything under their own name. */
module PbftRun {
  import opened Common
  import opened PbftNode

  /** `current` is the request each peer is announcing, if any; `net` holds all that honest peers sent. */
  datatype Sys = Sys(nodes: seq<Node>, current: seq<Option<Request>>, net: set<Msg>)

  datatype Event =
    | Tag(peer: nat, request: Request)   // a first round: a fresh id
    | Retag(peer: nat)                   // a further round of the same call
    | Deliver(peer: nat, msg: Msg)       // any message, at any time, any number of times

  function Init(cfg: Config): Sys {
    Sys(seq(cfg.total, (i: nat) => NewNode(i, i + 1)), seq(cfg.total, _ => None), {})
  }

  /** A faulty peer sends anything under its own name, but announces only its own ids. */
  ghost predicate Forged(cfg: Config, faulty: set<nat>, m: Msg) {
    m.src in faulty && m.src < cfg.total && (m.PrePrepare? ==> cfg.total > 0 && Owner(cfg.total, m.id) == m.src)
  }

  /** A peer that kept its lock takes no further step. */
  ghost predicate Enabled(cfg: Config, faulty: set<nat>, s: Sys, e: Event) {
    && |s.nodes| == |s.current| == cfg.total
    && e.peer < cfg.total && e.peer !in faulty && !s.nodes[e.peer].locked
    && (e.Retag? ==> s.current[e.peer].Some?)
    && (e.Deliver? ==> e.msg in s.net || Forged(cfg, faulty, e.msg))
  }

  function Handle(cfg: Config, n: Node, m: Msg): (Node, Result)
    requires cfg.total > 0
  {
    match m
    case PrePrepare(_, _, _, _) => OnPrePrepare(cfg, n, m)
    case Prepare(_, _, _) => OnPrepare(cfg, n, m)
    case Commit(_, _, _) => OnCommit(cfg, n, m)
  }

  function Sent(r: Result): set<Msg> {
    if r.Ok? then r.out else {}
  }

  ghost function Step(cfg: Config, faulty: set<nat>, s: Sys, e: Event): Sys
    requires Enabled(cfg, faulty, s, e)
  {
    var i := e.peer;
    match e
    case Tag(_, request) =>
      var (n, pp) := Propose(cfg, s.nodes[i], request, true);
      Sys(s.nodes[i := n], s.current[i := Some(request)], s.net + {pp})
    case Retag(_) =>
      var (n, pp) := Propose(cfg, s.nodes[i], s.current[i].value, false);
      s.(nodes := s.nodes[i := n], net := s.net + {pp})
    case Deliver(_, m) =>
      var (n, r) := Handle(cfg, s.nodes[i], m);
      s.(nodes := s.nodes[i := n], net := s.net + Sent(r))
  }

  /** The states the network can be in after some events, from the start. */
  ghost predicate Legal(cfg: Config, faulty: set<nat>, es: seq<Event>)
    decreases |es|, 0
  {
    es == [] ||
    var before := es[..|es| - 1];
    Legal(cfg, faulty, before) && Enabled(cfg, faulty, Run(cfg, faulty, before), es[|es| - 1])
  }

  ghost function Run(cfg: Config, faulty: set<nat>, es: seq<Event>): Sys
    requires Legal(cfg, faulty, es)
    decreases |es|, 1
  {
    if es == [] then Init(cfg)
    else Step(cfg, faulty, Run(cfg, faulty, es[..|es| - 1]), es[|es| - 1])
  }

  /** Networks the vote is defined for: three peers, and digests that are never empty. */
  ghost predicate Sound(cfg: Config) {
    cfg.total >= 3 && forall r :: cfg.digest(r) != ""
  }

  // ----- what one peer keeps

  ghost predicate NodeInv(cfg: Config, n: Node)
    requires cfg.total > 0
  {
    && n.addr < cfg.total && n.role == 0 && Owner(cfg.total, n.pbftID) == n.addr
    // logged digests are digests of logged requests, and of own ids only those already assigned
    && (forall id :: id in n.logPrePrepare ==> n.logPrePrepare[id] in n.logRequest)
    && (forall d :: d in n.logRequest ==> cfg.digest(n.logRequest[d]) == d)
    && (forall id :: id in n.logPrePrepare && Owner(cfg.total, id) == n.addr ==> id <= n.pbftID)
    // a vote is cast only on a logged id, and the state of an id is 0, 1 or 2
    && (forall id :: id in n.state ==> n.state[id] <= 2)
    && (forall id :: StateOf(n.state, id) > 0 ==> id in n.logPrePrepare)
    // exactly the ids past state 1 have one stored block each
    && (forall k :: 0 <= k < |n.stored| ==> StateOf(n.state, n.stored[k].id) == 2)
    && (forall j, k :: 0 <= j < k < |n.stored| ==> n.stored[j].id != n.stored[k].id)
  }

  // ----- what ties the peers to the messages

  ghost predicate CommitSent(net: set<Msg>, digest: string, id: nat, src: nat) {
    Commit(digest, id, src) in net
  }

  /** Whose commits a log holds: peers, and the honest ones really sent them. */
  ghost predicate LogInv(cfg: Config, faulty: set<nat>, net: set<Msg>, log: Log) {
    forall src, id :: src in log && id in log[src] ==>
      src < cfg.total && (src !in faulty ==> CommitSent(net, log[src][id], id, src))
  }

  /** A stored block rests on a quorum whose honest members sent a commit for the logged digest. */
  ghost predicate StoredInv(cfg: Config, faulty: set<nat>, net: set<Msg>, e: Stored) {
    && |e.voters| > Threshold(cfg.total)
    && e.voters <= Peers(cfg.total)
    && forall v :: v in e.voters && v !in faulty ==> CommitSent(net, e.logged, e.id, v)
  }

  /** All that holds of an honest peer, the request it announces and the messages sent so far. */
  ghost predicate PeerInv(cfg: Config, faulty: set<nat>, net: set<Msg>, n: Node, current: Option<Request>)
    requires cfg.total > 0
  {
    && NodeInv(cfg, n)
    && LogInv(cfg, faulty, net, n.logCommit)
    && (forall k :: 0 <= k < |n.stored| ==> StoredInv(cfg, faulty, net, n.stored[k]))
    && (current.Some? ==> n.pbftID in n.logPrePrepare && n.logPrePrepare[n.pbftID] == cfg.digest(current.value))
  }

  /** The sender of a commit has left state 0 for its id and holds that very digest in its own log. */
  ghost predicate SentBy(n: Node, m: Msg) {
    m.Commit? ==>
      && StateOf(n.state, m.id) > 0
      && n.addr in n.logCommit && m.id in n.logCommit[n.addr] && n.logCommit[n.addr][m.id] == m.digest
  }

  ghost predicate MsgInv(cfg: Config, faulty: set<nat>, nodes: seq<Node>, m: Msg)
    requires |nodes| == cfg.total && cfg.total > 0
  {
    && m.src < cfg.total && m.src !in faulty
    && (m.PrePrepare? ==> Owner(cfg.total, m.id) == m.src)
    && SentBy(nodes[m.src], m)
  }

  ghost predicate Inv(cfg: Config, faulty: set<nat>, s: Sys)
    requires cfg.total > 0
  {
    && |s.nodes| == |s.current| == cfg.total
    && (forall i :: 0 <= i < cfg.total ==> s.nodes[i].addr == i)
    && (forall i :: 0 <= i < cfg.total && i !in faulty ==> PeerInv(cfg, faulty, s.net, s.nodes[i], s.current[i]))
    && (forall m {:trigger MsgInv(cfg, faulty, s.nodes, m)} :: m in s.net ==> MsgInv(cfg, faulty, s.nodes, m))
  }

  // ----- the steps keep it

  /** What a handler may do to the facts the messages rest on. */
  ghost predicate Advances(n: Node, n': Node) {
    && n'.addr == n.addr
    && (forall m :: SentBy(n, m) ==> SentBy(n', m))
  }

  /** A step that changes one peer keeps the invariant if the peer and the messages it sends satisfy it. */
  lemma OnePeer(cfg: Config, faulty: set<nat>, s: Sys, i: nat, n': Node, current: Option<Request>, out: set<Msg>)
    requires cfg.total > 0 && Inv(cfg, faulty, s) && i < cfg.total
    requires Advances(s.nodes[i], n')
    requires i !in faulty && PeerInv(cfg, faulty, s.net + out, n', current)
    requires forall m :: m in out ==> MsgInv(cfg, faulty, s.nodes[i := n'], m)
    ensures Inv(cfg, faulty, Sys(s.nodes[i := n'], s.current[i := current], s.net + out))
  {
    var s' := Sys(s.nodes[i := n'], s.current[i := current], s.net + out);
    forall j | 0 <= j < cfg.total && j !in faulty
      ensures PeerInv(cfg, faulty, s'.net, s'.nodes[j], s'.current[j])
    {
      if j != i {
        assert PeerInv(cfg, faulty, s.net, s.nodes[j], s.current[j]);
        PeerInvGrows(cfg, faulty, s.net, s'.net, s.nodes[j], s.current[j]);
      }
    }
    forall m | m in s'.net
      ensures MsgInv(cfg, faulty, s'.nodes, m)
    {
      if m in s.net {
        assert MsgInv(cfg, faulty, s.nodes, m);
      }
    }
  }

  lemma PeerInvGrows(cfg: Config, faulty: set<nat>, net: set<Msg>, net': set<Msg>, n: Node, current: Option<Request>)
    requires cfg.total > 0 && PeerInv(cfg, faulty, net, n, current) && net <= net'
    ensures PeerInv(cfg, faulty, net', n, current)
  {
    forall k | 0 <= k < |n.stored|
      ensures StoredInv(cfg, faulty, net', n.stored[k])
    {
      assert StoredInv(cfg, faulty, net, n.stored[k]);
    }
  }

  lemma InitInv(cfg: Config, faulty: set<nat>)
    requires cfg.total > 0
    ensures Inv(cfg, faulty, Init(cfg))
  {
  }

  lemma ProposeKeeps(cfg: Config, faulty: set<nat>, net: set<Msg>, n: Node, current: Option<Request>, request: Request,
        first: bool)
    requires cfg.total > 0 && PeerInv(cfg, faulty, net, n, current)
    requires !first ==> current == Some(request)
    ensures var (n', pp) := Propose(cfg, n, request, first);
            && PeerInv(cfg, faulty, net + {pp}, n', Some(request)) && Advances(n, n')
            && Owner(cfg.total, pp.id) == n.addr
  {
    var (n', pp) := Propose(cfg, n, request, first);
    assert Owner(cfg.total, n.pbftID + cfg.total) == n.addr by {
      assert cfg.total > 0 && (n.pbftID == 0 ==> Owner(cfg.total, cfg.total) == cfg.total - 1);
    }
    assert first ==> n'.pbftID !in n.logPrePrepare;
    assert forall id :: StateOf(n'.state, id) == StateOf(n.state, id);
    assert NodeInv(cfg, n');
    PeerInvGrows(cfg, faulty, net, net + {pp}, n, current);
  }

  lemma AcceptKeeps(cfg: Config, n: Node, m: Msg)
    requires cfg.total > 0 && NodeInv(cfg, n)
    requires m.PrePrepare? && Owner(cfg.total, m.id) != n.addr && cfg.digest(m.request) == m.digest
    requires m.id in n.logPrePrepare ==> n.logPrePrepare[m.id] == m.digest
    ensures NodeInv(cfg, Accept(n, m))
  {
  }

  lemma PrePrepareKeeps(cfg: Config, faulty: set<nat>, net: set<Msg>, n: Node, current: Option<Request>, m: Msg)
    requires cfg.total > 0 && PeerInv(cfg, faulty, net, n, current)
    requires m.PrePrepare? && Owner(cfg.total, m.id) == m.src
    ensures var (n', r) := OnPrePrepare(cfg, n, m);
            PeerInv(cfg, faulty, net + Sent(r), n', current) && Advances(n, n')
  {
    var (n', r) := OnPrePrepare(cfg, n, m);
    PeerInvGrows(cfg, faulty, net, net + Sent(r), n, current);
    if n' != n && r.Ok? {
      AcceptKeeps(cfg, n, m);
    }
  }

  lemma CastKeeps(cfg: Config, n: Node, m: Msg)
    requires cfg.total > 0 && NodeInv(cfg, n)
    requires m.Prepare? && m.id in n.logPrePrepare && StateOf(n.state, m.id) == 0
    ensures NodeInv(cfg, CastCommit(n, m)) && Advances(n, CastCommit(n, m))
  {
  }

  lemma CastLog(cfg: Config, faulty: set<nat>, net: set<Msg>, n: Node, m: Msg)
    requires m.Prepare? && n.addr < cfg.total && LogInv(cfg, faulty, net, n.logCommit)
    requires CommitSent(net, m.digest, m.id, n.addr)
    ensures LogInv(cfg, faulty, net, CastCommit(n, m).logCommit)
  {
  }

  lemma CastPeer(cfg: Config, faulty: set<nat>, net: set<Msg>, n: Node, current: Option<Request>, m: Msg)
    requires cfg.total > 0 && PeerInv(cfg, faulty, net, n, current)
    requires m.Prepare? && m.id in n.logPrePrepare && StateOf(n.state, m.id) == 0
    requires CommitSent(net, m.digest, m.id, n.addr)
    ensures PeerInv(cfg, faulty, net, CastCommit(n, m), current) && Advances(n, CastCommit(n, m))
    ensures SentBy(CastCommit(n, m), Commit(m.digest, m.id, n.addr))
  {
    CastKeeps(cfg, n, m);
    CastLog(cfg, faulty, net, n, m);
  }

  /** A peer leaves state 0 on a prepare only with a pre-prepare logged, and then casts its only commit. */
  lemma PrepareKeeps(cfg: Config, faulty: set<nat>, net: set<Msg>, n: Node, current: Option<Request>, m: Msg)
    requires cfg.total >= 3 && PeerInv(cfg, faulty, net, n, current) && m.Prepare?
    ensures var (n', r) := OnPrepare(cfg, n, m);
            && PeerInv(cfg, faulty, net + Sent(r), n', current) && Advances(n, n')
            && (forall c :: c in Sent(r) ==> c.Commit? && c.src == n.addr && SentBy(n', c))
  {
    var (n', r) := OnPrepare(cfg, n, m);
    var net' := net + Sent(r);
    PeerInvGrows(cfg, faulty, net, net', n, current);
    if m.src != n.addr {
      var n1 := n.(logPrepare := Record(n.logPrepare, m.src, m.id, m.digest));
      assert PeerInv(cfg, faulty, net', n1, current) && Advances(n, n1);
      if n' != n1 {
        assert n' == CastCommit(n1, m) && Sent(r) == {Commit(m.digest, m.id, n.addr)};
        assert CommitSent(net', m.digest, m.id, n.addr);
        CastPeer(cfg, faulty, net', n1, current, m);
      }
    }
  }

  lemma CountedIsLogged(cfg: Config, n: Node, log: Log, id: nat)
    requires Sound(cfg) && NodeInv(cfg, n)
    ensures forall v :: v in Counted(n.logPrePrepare, log, id) ==>
              v in log && id in log[v] && log[v][id] == n.logPrePrepare[id]
  {
    if id in n.logPrePrepare {
      assert cfg.digest(n.logRequest[n.logPrePrepare[id]]) != "";
    }
  }

  lemma DecideKeeps(cfg: Config, n: Node, m: Msg, counted: set<nat>)
    requires cfg.total > 0 && NodeInv(cfg, n)
    requires m.Commit? && StateOf(n.state, m.id) == 1
    ensures NodeInv(cfg, Decide(cfg, n, m, counted)) && Advances(n, Decide(cfg, n, m, counted))
  {
    var n' := Decide(cfg, n, m, counted);
    assert n'.stored[..|n.stored|] == n.stored && n'.logPrePrepare == n.logPrePrepare;
    assert forall k :: 0 <= k < |n.stored| ==> n'.stored[k] == n.stored[k];
  }

  lemma CommitLog(cfg: Config, faulty: set<nat>, net: set<Msg>, n: Node, m: Msg)
    requires m.Commit? && m.src < cfg.total && LogInv(cfg, faulty, net, n.logCommit)
    requires m in net || m.src in faulty
    ensures LogInv(cfg, faulty, net, Record(n.logCommit, m.src, m.id, m.digest))
  {
    assert m in net ==> CommitSent(net, m.digest, m.id, m.src);
  }

  lemma CountedIsQuorum(cfg: Config, faulty: set<nat>, net: set<Msg>, n: Node, current: Option<Request>, id: nat)
    requires Sound(cfg) && PeerInv(cfg, faulty, net, n, current)
    requires |Counted(n.logPrePrepare, n.logCommit, id)| > Threshold(cfg.total)
    ensures id in n.logPrePrepare
    ensures forall r :: StoredInv(cfg, faulty, net,
                          Stored(id, n.logPrePrepare[id], r, Counted(n.logPrePrepare, n.logCommit, id)))
  {
    CountedIsLogged(cfg, n, n.logCommit, id);
    var counted := Counted(n.logPrePrepare, n.logCommit, id);
    assert forall v :: v in counted && v !in faulty ==> CommitSent(net, n.logCommit[v][id], id, v);
  }

  lemma DecidePeer(cfg: Config, faulty: set<nat>, net: set<Msg>, n: Node, current: Option<Request>, m: Msg)
    requires Sound(cfg) && PeerInv(cfg, faulty, net, n, current)
    requires m.Commit? && StateOf(n.state, m.id) == 1
    requires |Counted(n.logPrePrepare, n.logCommit, m.id)| > Threshold(cfg.total)
    ensures var n' := Decide(cfg, n, m, Counted(n.logPrePrepare, n.logCommit, m.id));
            PeerInv(cfg, faulty, net, n', current) && Advances(n, n')
  {
    var counted := Counted(n.logPrePrepare, n.logCommit, m.id);
    CountedIsQuorum(cfg, faulty, net, n, current, m.id);
    DecideKeeps(cfg, n, m, counted);
    var n' := Decide(cfg, n, m, counted);
    assert n'.logCommit == n.logCommit;
    forall k | 0 <= k < |n'.stored|
      ensures StoredInv(cfg, faulty, net, n'.stored[k])
    {
      if k < |n.stored| {
        assert n'.stored[k] == n.stored[k];
      }
    }
  }

  /** A block is stored on a quorum of logged commits, once per id. */
  lemma CommitKeeps(cfg: Config, faulty: set<nat>, net: set<Msg>, n: Node, current: Option<Request>, m: Msg)
    requires Sound(cfg) && PeerInv(cfg, faulty, net, n, current)
    requires m.Commit? && m.src < cfg.total && (m in net || m.src in faulty)
    ensures var (n', r) := OnCommit(cfg, n, m);
            PeerInv(cfg, faulty, net, n', current) && Advances(n, n') && r == Ok({})
  {
    if m.src != n.addr {
      var n1 := n.(logCommit := Record(n.logCommit, m.src, m.id, m.digest));
      CommitLog(cfg, faulty, net, n, m);
      assert PeerInv(cfg, faulty, net, n1, current) && Advances(n, n1);
      if |Counted(n1.logPrePrepare, n1.logCommit, m.id)| > Threshold(cfg.total) && StateOf(n1.state, m.id) == 1 {
        DecidePeer(cfg, faulty, net, n1, current, m);
      }
    }
  }

  /** What a received message may be: sent by an honest peer, or forged. */
  ghost predicate Receivable(cfg: Config, faulty: set<nat>, net: set<Msg>, m: Msg) {
    && m.src < cfg.total && (m in net || m.src in faulty)
    && (m.PrePrepare? ==> cfg.total > 0 && Owner(cfg.total, m.id) == m.src)
  }

  lemma HandleKeeps(cfg: Config, faulty: set<nat>, net: set<Msg>, n: Node, current: Option<Request>, m: Msg)
    requires Sound(cfg) && PeerInv(cfg, faulty, net, n, current) && Receivable(cfg, faulty, net, m)
    ensures var (n', r) := Handle(cfg, n, m);
            && PeerInv(cfg, faulty, net + Sent(r), n', current) && Advances(n, n')
            && (forall c :: c in Sent(r) ==> !c.PrePrepare? && c.src == n.addr && SentBy(n', c))
  {
    match m
    case PrePrepare(_, _, _, _) =>
      PrePrepareKeeps(cfg, faulty, net, n, current, m);
    case Prepare(_, _, _) =>
      PrepareKeeps(cfg, faulty, net, n, current, m);
    case Commit(_, _, _) =>
      CommitKeeps(cfg, faulty, net, n, current, m);
      assert net + Sent(OnCommit(cfg, n, m).1) == net;
  }

  lemma ProposeStepKeeps(cfg: Config, faulty: set<nat>, s: Sys, i: nat, request: Request, first: bool)
    requires Sound(cfg) && Inv(cfg, faulty, s) && i < cfg.total && i !in faulty
    requires !first ==> s.current[i] == Some(request)
    ensures var (n, pp) := Propose(cfg, s.nodes[i], request, first);
            Inv(cfg, faulty, Sys(s.nodes[i := n], s.current[i := Some(request)], s.net + {pp}))
  {
    var (n, pp) := Propose(cfg, s.nodes[i], request, first);
    ProposeKeeps(cfg, faulty, s.net, s.nodes[i], s.current[i], request, first);
    OnePeer(cfg, faulty, s, i, n, Some(request), {pp});
  }

  lemma DeliverKeeps(cfg: Config, faulty: set<nat>, s: Sys, i: nat, m: Msg)
    requires Sound(cfg) && Inv(cfg, faulty, s) && i < cfg.total && i !in faulty
    requires m in s.net || Forged(cfg, faulty, m)
    ensures var (n, r) := Handle(cfg, s.nodes[i], m);
            Inv(cfg, faulty, Sys(s.nodes[i := n], s.current, s.net + Sent(r)))
  {
    assert PeerInv(cfg, faulty, s.net, s.nodes[i], s.current[i]);
    assert m in s.net ==> MsgInv(cfg, faulty, s.nodes, m);
    HandleKeeps(cfg, faulty, s.net, s.nodes[i], s.current[i], m);
    var (n, r) := Handle(cfg, s.nodes[i], m);
    OnePeer(cfg, faulty, s, i, n, s.current[i], Sent(r));
    assert s.current[i := s.current[i]] == s.current;
  }

  lemma StepKeeps(cfg: Config, faulty: set<nat>, s: Sys, e: Event)
    requires Sound(cfg) && Inv(cfg, faulty, s) && Enabled(cfg, faulty, s, e)
    ensures Inv(cfg, faulty, Step(cfg, faulty, s, e))
  {
    match e
    case Tag(i, request) =>
      ProposeStepKeeps(cfg, faulty, s, i, request, true);
    case Retag(i) =>
      ProposeStepKeeps(cfg, faulty, s, i, s.current[i].value, false);
      assert s.current[i := s.current[i]] == s.current;
    case Deliver(i, m) =>
      DeliverKeeps(cfg, faulty, s, i, m);
  }

  lemma {:induction false} RunKeeps(cfg: Config, faulty: set<nat>, es: seq<Event>)
    requires Sound(cfg) && Legal(cfg, faulty, es)
    ensures Inv(cfg, faulty, Run(cfg, faulty, es))
    decreases |es|
  {
    if es == [] {
      InitInv(cfg, faulty);
    } else {
      RunKeeps(cfg, faulty, es[..|es| - 1]);
      StepKeeps(cfg, faulty, Run(cfg, faulty, es[..|es| - 1]), es[|es| - 1]);
    }
  }

  // ----- what it gives

  /** The networks in which two commit quorums always share an honest peer. */
  predicate Tolerates(total: nat, faulty: nat) {
    total + faulty < 2 * (Threshold(total) + 1)
  }

  /** Tolerating a third of the peers, the promise made for the vote, fails for one residue only. */
  lemma ToleratesAThird(total: nat)
    requires total >= 3
    ensures Tolerates(total, (total - 1) / 3) <==> total % 3 != 2
  {
    var k := total / 3;
    assert total == 3 * k + total % 3;
    assert (total - 1) / 3 == if total % 3 == 0 then k - 1 else k;
  }

  ghost predicate Decided(s: Sys, i: nat, e: Stored) {
    i < |s.nodes| && e in s.nodes[i].stored
  }

  /** Any two honest peers that stored a block for an id had the same digest logged for it. */
  lemma {:induction false} CommitAgreement(cfg: Config, faulty: set<nat>, es: seq<Event>, i: nat, a: Stored, j: nat,
        b: Stored)
    requires Sound(cfg) && Legal(cfg, faulty, es) && Tolerates(cfg.total, |faulty|)
    requires i !in faulty && j !in faulty && a.id == b.id
    requires Decided(Run(cfg, faulty, es), i, a) && Decided(Run(cfg, faulty, es), j, b)
    ensures a.logged == b.logged
  {
    var s := Run(cfg, faulty, es);
    RunKeeps(cfg, faulty, es);
    assert PeerInv(cfg, faulty, s.net, s.nodes[i], s.current[i]);
    assert PeerInv(cfg, faulty, s.net, s.nodes[j], s.current[j]);
    var x := QuorumsMeet(cfg.total, a.voters, b.voters, faulty);
    assert CommitSent(s.net, a.logged, a.id, x) && CommitSent(s.net, b.logged, b.id, x);
    assert MsgInv(cfg, faulty, s.nodes, Commit(a.logged, a.id, x));
    assert MsgInv(cfg, faulty, s.nodes, Commit(b.logged, b.id, x));
  }

  /** A peer stores at most one block for an id. */
  lemma {:induction false} OneBlockPerID(cfg: Config, faulty: set<nat>, es: seq<Event>, i: nat, j: nat, k: nat)
    requires Sound(cfg) && Legal(cfg, faulty, es) && i < cfg.total && i !in faulty
    requires j < k < |Run(cfg, faulty, es).nodes[i].stored|
    ensures Run(cfg, faulty, es).nodes[i].stored[j].id != Run(cfg, faulty, es).nodes[i].stored[k].id
  {
    RunKeeps(cfg, faulty, es);
    var s := Run(cfg, faulty, es);
    assert PeerInv(cfg, faulty, s.net, s.nodes[i], s.current[i]);
  }

  ghost predicate MovesUp(before: map<nat, nat>, after: map<nat, nat>) {
    forall id :: StateOf(before, id) <= StateOf(after, id) <= StateOf(before, id) + 1 && StateOf(after, id) <= 2
  }

  lemma PrepareMovesUp(cfg: Config, n: Node, m: Msg)
    requires m.Prepare? && MovesUp(n.state, n.state)
    ensures MovesUp(n.state, OnPrepare(cfg, n, m).0.state)
  {
  }

  lemma CommitMovesUp(cfg: Config, n: Node, m: Msg)
    requires m.Commit? && cfg.total > 0 && MovesUp(n.state, n.state)
    ensures MovesUp(n.state, OnCommit(cfg, n, m).0.state)
  {
  }

  lemma HandleMovesUp(cfg: Config, n: Node, m: Msg)
    requires cfg.total > 0 && MovesUp(n.state, n.state)
    ensures MovesUp(n.state, Handle(cfg, n, m).0.state)
  {
    match m
    case PrePrepare(_, _, _, _) => assert OnPrePrepare(cfg, n, m).0.state == n.state;
    case Prepare(_, _, _) => PrepareMovesUp(cfg, n, m);
    case Commit(_, _, _) => CommitMovesUp(cfg, n, m);
  }

  lemma ProposeMovesUp(cfg: Config, n: Node, request: Request, first: bool)
    requires cfg.total > 0 && NodeInv(cfg, n)
    ensures MovesUp(n.state, Propose(cfg, n, request, first).0.state)
  {
    var id := n.pbftID + cfg.total;
    assert Owner(cfg.total, id) == n.addr by {
      assert n.pbftID == 0 ==> Owner(cfg.total, cfg.total) == cfg.total - 1;
    }
    assert StateOf(n.state, id) == 0;
  }

  /** The state of an id at an honest peer stays or moves on by one, from 0 to 1 to 2. */
  lemma {:induction false} StateMovesUp(cfg: Config, faulty: set<nat>, es: seq<Event>, i: nat)
    requires Sound(cfg) && Legal(cfg, faulty, es) && es != [] && i < cfg.total && i !in faulty
    ensures MovesUp(Run(cfg, faulty, es[..|es| - 1]).nodes[i].state, Run(cfg, faulty, es).nodes[i].state)
  {
    var s, e := Run(cfg, faulty, es[..|es| - 1]), es[|es| - 1];
    RunKeeps(cfg, faulty, es[..|es| - 1]);
    var n := s.nodes[i];
    assert PeerInv(cfg, faulty, s.net, n, s.current[i]);
    if e.peer == i {
      match e
      case Tag(_, request) =>
        ProposeMovesUp(cfg, n, request, true);
      case Retag(_) =>
        ProposeMovesUp(cfg, n, s.current[i].value, false);
      case Deliver(_, m) =>
        HandleMovesUp(cfg, n, m);
    }
  }
}
