/** What the two vote counts rest on: when a peer leaves state 0 and state 1, and what it says then. */
module PbftVotes {
  import opened Common
  import opened PbftNode
  import opened PbftRun

  /** The sources whose entry for an id in a log is the digest that this peer logged for it. */
  function Holders(n: Node, log: Log, id: nat): set<nat> {
    set src | src in log && id in n.logPrePrepare && id in log[src] && log[src][id] == n.logPrePrepare[id]
  }

  lemma HoldersCounted(cfg: Config, n: Node, log: Log, id: nat)
    requires Sound(cfg) && NodeInv(cfg, n)
    ensures Counted(n.logPrePrepare, log, id) == Holders(n, log, id)
  {
    CountedIsLogged(cfg, n, log, id);
    assert forall v :: v in Holders(n, log, id) ==> v in Counted(n.logPrePrepare, log, id);
  }

  // ----- a commit rests on a quorum of prepares

  ghost predicate PrepareSent(net: set<Msg>, digest: string, id: nat, src: nat) {
    Prepare(digest, id, src) in net
  }

  /** Whose prepares a log holds: peers, and the honest ones really sent them. */
  ghost predicate PreparesReal(cfg: Config, faulty: set<nat>, net: set<Msg>, log: Log) {
    forall src, id {:trigger log[src][id]} :: src in log && id in log[src] ==>
      src < cfg.total && (src !in faulty ==> PrepareSent(net, log[src][id], id, src))
  }

  /** Two thirds of the peers, in whole thirds, and the honest ones among them sent a prepare for a digest. */
  ghost predicate Quorum(cfg: Config, faulty: set<nat>, net: set<Msg>, q: set<nat>, digest: string, id: nat) {
    && q <= Peers(cfg.total) && |q| >= cfg.total / 3 * 2
    && forall v :: v in q && v !in faulty ==> PrepareSent(net, digest, id, v)
  }

  ghost predicate Backed(cfg: Config, faulty: set<nat>, net: set<Msg>, digest: string, id: nat) {
    exists q :: Quorum(cfg, faulty, net, q, digest, id)
  }

  ghost predicate Committed(net: set<Msg>, id: nat, src: nat) {
    exists d :: Commit(d, id, src) in net
  }

  /** An id past state 0 is logged, with a quorum for its digest, and this peer sent a commit for it. */
  ghost predicate PastZero(cfg: Config, faulty: set<nat>, net: set<Msg>, n: Node, id: nat) {
    StateOf(n.state, id) > 0 ==>
      && id in n.logPrePrepare && Backed(cfg, faulty, net, n.logPrePrepare[id], id) && Committed(net, id, n.addr)
  }

  ghost predicate VotesInv(cfg: Config, faulty: set<nat>, net: set<Msg>, n: Node) {
    && PreparesReal(cfg, faulty, net, n.logPrepare)
    && (forall id {:trigger PastZero(cfg, faulty, net, n, id)} :: PastZero(cfg, faulty, net, n, id))
  }

  lemma BackedGrows(cfg: Config, faulty: set<nat>, net: set<Msg>, net': set<Msg>, digest: string, id: nat)
    requires net <= net' && Backed(cfg, faulty, net, digest, id)
    ensures Backed(cfg, faulty, net', digest, id)
  {
    var q :| Quorum(cfg, faulty, net, q, digest, id);
    assert Quorum(cfg, faulty, net', q, digest, id);
  }

  lemma PastZeroGrows(cfg: Config, faulty: set<nat>, net: set<Msg>, net': set<Msg>, n: Node, n': Node, id: nat)
    requires PastZero(cfg, faulty, net, n, id) && net <= net' && n'.addr == n.addr
    requires StateOf(n'.state, id) > 0 ==> StateOf(n.state, id) > 0
    requires id in n.logPrePrepare && StateOf(n.state, id) > 0 ==>
               id in n'.logPrePrepare && n'.logPrePrepare[id] == n.logPrePrepare[id]
    ensures PastZero(cfg, faulty, net', n', id)
  {
    hide Backed;
    if StateOf(n'.state, id) > 0 {
      BackedGrows(cfg, faulty, net, net', n.logPrePrepare[id], id);
      var d :| Commit(d, id, n.addr) in net;
      assert Commit(d, id, n.addr) in net';
    }
  }

  /** A step that only logs or leaves state 0 behind on a quorum. */
  lemma VotesKept(cfg: Config, faulty: set<nat>, net: set<Msg>, net': set<Msg>, n: Node, n': Node)
    requires VotesInv(cfg, faulty, net, n) && net <= net' && n'.addr == n.addr
    requires PreparesReal(cfg, faulty, net', n'.logPrepare)
    requires forall id {:trigger StateOf(n'.state, id)} :: StateOf(n'.state, id) > 0 ==> StateOf(n.state, id) > 0
    requires forall id {:trigger StateOf(n.state, id)} :: id in n.logPrePrepare && StateOf(n.state, id) > 0 ==>
               id in n'.logPrePrepare && n'.logPrePrepare[id] == n.logPrePrepare[id]
    ensures VotesInv(cfg, faulty, net', n')
  {
    hide PastZero, PreparesReal;
    forall id
      ensures PastZero(cfg, faulty, net', n', id)
    {
      assert PastZero(cfg, faulty, net, n, id);
      PastZeroGrows(cfg, faulty, net, net', n, n', id);
    }
  }

  lemma PreparesGrow(cfg: Config, faulty: set<nat>, net: set<Msg>, net': set<Msg>, log: Log)
    requires PreparesReal(cfg, faulty, net, log) && net <= net'
    ensures PreparesReal(cfg, faulty, net', log)
  {
  }

  lemma PrepareLogged(cfg: Config, faulty: set<nat>, net: set<Msg>, log: Log, src: nat, id: nat, digest: string)
    requires PreparesReal(cfg, faulty, net, log) && src < cfg.total
    requires src !in faulty ==> Prepare(digest, id, src) in net
    ensures PreparesReal(cfg, faulty, net, Record(log, src, id, digest))
  {
    var log' := Record(log, src, id, digest);
    forall s, x | s in log' && x in log'[s]
      ensures s < cfg.total && (s !in faulty ==> PrepareSent(net, log'[s][x], x, s))
    {
      if s != src || x != id {
        assert log'[s][x] == log[s][x];
      }
    }
  }

  lemma ProposeVotes(cfg: Config, faulty: set<nat>, net: set<Msg>, n: Node, current: Option<Request>, request: Request,
        first: bool)
    requires cfg.total > 0 && PeerInv(cfg, faulty, net, n, current) && (!first ==> current == Some(request))
    requires VotesInv(cfg, faulty, net, n)
    ensures var (n', pp) := Propose(cfg, n, request, first); VotesInv(cfg, faulty, net + {pp}, n')
  {
    hide PreparesReal, PastZero;
    var (n', pp) := Propose(cfg, n, request, first);
    assert Owner(cfg.total, n.pbftID + cfg.total) == n.addr by {
      assert n.pbftID == 0 ==> Owner(cfg.total, cfg.total) == cfg.total - 1;
    }
    PreparesGrow(cfg, faulty, net, net + {pp}, n.logPrepare);
    VotesKept(cfg, faulty, net, net + {pp}, n, n');
  }

  lemma PrePrepareVotes(cfg: Config, faulty: set<nat>, net: set<Msg>, n: Node, m: Msg)
    requires m.PrePrepare? && VotesInv(cfg, faulty, net, n) && n.addr < cfg.total && n.role == 0
    ensures var (n', r) := OnPrePrepare(cfg, n, m); VotesInv(cfg, faulty, net + Sent(r), n')
  {
    hide PreparesReal, PastZero;
    var (n', r) := OnPrePrepare(cfg, n, m);
    var net' := net + Sent(r);
    PreparesGrow(cfg, faulty, net, net', n.logPrepare);
    if n' != n && r.Ok? {
      PrepareLogged(cfg, faulty, net', n.logPrepare, n.addr, m.id, m.digest);
    }
    VotesKept(cfg, faulty, net, net', n, n');
  }

  lemma HoldersQuorum(cfg: Config, faulty: set<nat>, net: set<Msg>, n: Node, id: nat)
    requires PreparesReal(cfg, faulty, net, n.logPrepare) && id in n.logPrePrepare
    requires |Holders(n, n.logPrepare, id)| >= cfg.total / 3 * 2
    ensures Backed(cfg, faulty, net, n.logPrePrepare[id], id)
  {
    assert Quorum(cfg, faulty, net, Holders(n, n.logPrepare, id), n.logPrePrepare[id], id);
  }

  lemma PrepareVotes(cfg: Config, faulty: set<nat>, net: set<Msg>, n: Node, m: Msg)
    requires Sound(cfg) && NodeInv(cfg, n) && m.Prepare? && VotesInv(cfg, faulty, net, n)
    requires m.src < cfg.total && (m in net || m.src in faulty)
    ensures var (n', r) := OnPrepare(cfg, n, m); VotesInv(cfg, faulty, net + Sent(r), n')
  {
    hide PreparesReal, PastZero, Holders, Record, Counted, Backed;
    var (n', r) := OnPrepare(cfg, n, m);
    var net' := net + Sent(r);
    if m.src == n.addr {
      assert net' == net;
      return;
    }
    PreparesGrow(cfg, faulty, net, net', n.logPrepare);
    PrepareLogged(cfg, faulty, net', n.logPrepare, m.src, m.id, m.digest);
    var n1 := n.(logPrepare := n'.logPrepare);
    VotesKept(cfg, faulty, net, net', n, n1);
    if n' != n1 {
      PrepareCasts(cfg, n, m);
      HoldersQuorum(cfg, faulty, net', n1, m.id);
      forall id
        ensures PastZero(cfg, faulty, net', n', id)
      {
        assert PastZero(cfg, faulty, net', n1, id);
        CastPastZero(cfg, faulty, net', n1, n', m, id);
      }
    }
  }

  lemma CastPastZero(cfg: Config, faulty: set<nat>, net: set<Msg>, n1: Node, n': Node, m: Msg, id: nat)
    requires m.Prepare? && n' == CastCommit(n1, m) && PastZero(cfg, faulty, net, n1, id)
    requires m.id in n1.logPrePrepare && Backed(cfg, faulty, net, n1.logPrePrepare[m.id], m.id)
    requires Commit(m.digest, m.id, n1.addr) in net
    ensures PastZero(cfg, faulty, net, n', id)
  {
    hide Backed, Record;
  }

  /** On what count a prepare of another peer moves its id, and what is said then. */
  lemma PrepareCasts(cfg: Config, n: Node, m: Msg)
    requires Sound(cfg) && NodeInv(cfg, n) && m.Prepare? && m.src != n.addr
    ensures var (n', r) := OnPrepare(cfg, n, m);
            var n1 := n.(logPrepare := Record(n.logPrepare, m.src, m.id, m.digest));
            if StateOf(n.state, m.id) == 0 && |Holders(n1, n1.logPrepare, m.id)| >= cfg.total / 3 * 2 then
              n' == CastCommit(n1, m) && r == Ok({Commit(m.digest, m.id, n.addr)}) && m.id in n.logPrePrepare
            else n' == n1 && r == Ok({})
  {
    hide Counted, Holders, Record;
    var n1 := n.(logPrepare := Record(n.logPrepare, m.src, m.id, m.digest));
    assert NodeInv(cfg, n1);
    HoldersCounted(cfg, n1, n1.logPrepare, m.id);
    if |Holders(n1, n1.logPrepare, m.id)| >= cfg.total / 3 * 2 {
      SomeHolder(n1, n1.logPrepare, m.id);
    }
  }

  lemma SomeHolder(n: Node, log: Log, id: nat)
    requires |Holders(n, log, id)| > 0
    ensures id in n.logPrePrepare
  {
    var v :| v in Holders(n, log, id);
  }

  lemma CommitVotes(cfg: Config, faulty: set<nat>, net: set<Msg>, n: Node, m: Msg)
    requires cfg.total > 0 && m.Commit? && VotesInv(cfg, faulty, net, n)
    ensures VotesInv(cfg, faulty, net, OnCommit(cfg, n, m).0)
  {
    hide PreparesReal, PastZero, Counted, Record, GetBlock, Append;
    var n' := OnCommit(cfg, n, m).0;
    VotesKept(cfg, faulty, net, net, n, n');
  }

  ghost predicate AllVotes(cfg: Config, faulty: set<nat>, s: Sys) {
    && |s.nodes| == cfg.total
    && forall i {:trigger s.nodes[i]} :: 0 <= i < cfg.total && i !in faulty ==> VotesInv(cfg, faulty, s.net, s.nodes[i])
  }

  lemma VotesGrow(cfg: Config, faulty: set<nat>, net: set<Msg>, net': set<Msg>, n: Node)
    requires VotesInv(cfg, faulty, net, n) && net <= net'
    ensures VotesInv(cfg, faulty, net', n)
  {
    hide PastZero, PreparesReal;
    PreparesGrow(cfg, faulty, net, net', n.logPrepare);
    VotesKept(cfg, faulty, net, net', n, n);
  }

  lemma StepVotes(cfg: Config, faulty: set<nat>, s: Sys, e: Event)
    requires Sound(cfg) && Inv(cfg, faulty, s) && AllVotes(cfg, faulty, s) && Enabled(cfg, faulty, s, e)
    ensures AllVotes(cfg, faulty, Step(cfg, faulty, s, e))
  {
    hide VotesInv, OnPrepare, OnCommit, OnPrePrepare, Propose;
    var n, s' := s.nodes[e.peer], Step(cfg, faulty, s, e);
    assert PeerInv(cfg, faulty, s.net, n, s.current[e.peer]);
    match e {
      case Tag(i, request) => ProposeVotes(cfg, faulty, s.net, n, s.current[i], request, true);
      case Retag(i) => ProposeVotes(cfg, faulty, s.net, n, s.current[i], s.current[i].value, false);
      case Deliver(_, m) =>
        assert m in s.net ==> MsgInv(cfg, faulty, s.nodes, m);
        match m {
          case PrePrepare(_, _, _, _) => PrePrepareVotes(cfg, faulty, s.net, n, m);
          case Prepare(_, _, _) => PrepareVotes(cfg, faulty, s.net, n, m);
          case Commit(_, _, _) =>
            CommitVotes(cfg, faulty, s.net, n, m);
            VotesGrow(cfg, faulty, s.net, s'.net, OnCommit(cfg, n, m).0);
        }
    }
    forall i | 0 <= i < cfg.total && i !in faulty
      ensures VotesInv(cfg, faulty, s'.net, s'.nodes[i])
    {
      if i != e.peer {
        VotesGrow(cfg, faulty, s.net, s'.net, s.nodes[i]);
      }
    }
  }

  lemma {:induction false} RunVotes(cfg: Config, faulty: set<nat>, es: seq<Event>)
    requires Sound(cfg) && Legal(cfg, faulty, es)
    ensures AllVotes(cfg, faulty, Run(cfg, faulty, es))
    decreases |es|
  {
    hide Inv, Step, Enabled;
    if es == [] {
      assert AllVotes(cfg, faulty, Init(cfg));
    } else {
      RunKeeps(cfg, faulty, es[..|es| - 1]);
      RunVotes(cfg, faulty, es[..|es| - 1]);
      StepVotes(cfg, faulty, Run(cfg, faulty, es[..|es| - 1]), es[|es| - 1]);
    }
  }

  /** In every run: an honest peer has an id past state 0 exactly when it sent a commit for it, and then two thirds of
      the peers, in whole thirds, stand behind its logged digest: the honest ones among them sent a prepare for it. */
  lemma {:induction false} CommitsArePrepared(cfg: Config, faulty: set<nat>, es: seq<Event>, i: nat, id: nat)
    requires Sound(cfg) && Legal(cfg, faulty, es) && i < cfg.total && i !in faulty
    ensures |Run(cfg, faulty, es).nodes| == cfg.total
    ensures var s := Run(cfg, faulty, es);
            StateOf(s.nodes[i].state, id) > 0 <==> exists d :: Commit(d, id, i) in s.net
    ensures var s := Run(cfg, faulty, es);
            StateOf(s.nodes[i].state, id) > 0 ==>
              && id in s.nodes[i].logPrePrepare
              && exists q: set<nat> ::
                   && q <= Peers(cfg.total) && |q| >= cfg.total / 3 * 2
                   && forall v :: v in q && v !in faulty ==> PrepareSent(s.net, s.nodes[i].logPrePrepare[id], id, v)
  {
    RunKeeps(cfg, faulty, es);
    RunVotes(cfg, faulty, es);
    var s := Run(cfg, faulty, es);
    var n := s.nodes[i];
    assert VotesInv(cfg, faulty, s.net, n) && PastZero(cfg, faulty, s.net, n, id);
    if d :| Commit(d, id, i) in s.net {
      assert MsgInv(cfg, faulty, s.nodes, Commit(d, id, i));
    }
    if StateOf(n.state, id) > 0 {
      var q :| Quorum(cfg, faulty, s.net, q, n.logPrePrepare[id], id);
    }
  }

  // ----- exactly when a message moves an id

  /** The last event of a run handed this peer a message of another one. */
  ghost predicate Received(cfg: Config, faulty: set<nat>, es: seq<Event>, i: nat, m: Msg) {
    Legal(cfg, faulty, es) && es != [] && es[|es| - 1] == Deliver(i, m) && m.src != i
  }

  /** After a log took one entry. */
  ghost predicate OneEntry(log: Log, log': Log, src: nat, id: nat, digest: string) {
    && src in log' && id in log'[src] && log'[src][id] == digest
    && forall s, x {:trigger log'[s][x]} {:trigger log[s][x]} :: s != src || x != id ==>
         ((s in log' && x in log'[s]) <==> (s in log && x in log[s]))
         && (s in log && x in log[s] ==> log'[s][x] == log[s][x])
  }

  lemma RecordIsEntry(log: Log, src: nat, id: nat, digest: string)
    ensures OneEntry(log, Record(log, src, id, digest), src, id, digest)
  {
  }

  /** A prepare is logged. It moves its id to state 1, and has the commit sent, exactly when the id was in state 0 and
      two thirds of the peers, in whole thirds, are now logged with the digest of the pre-prepare. */
  lemma {:induction false} PrepareMovesIff(cfg: Config, faulty: set<nat>, es: seq<Event>, i: nat, m: Msg)
    requires Sound(cfg) && Received(cfg, faulty, es, i, m) && m.Prepare?
    ensures var s, s' := Run(cfg, faulty, es[..|es| - 1]), Run(cfg, faulty, es);
            && i < |s.nodes| == |s'.nodes|
            && var n, n' := s.nodes[i], s'.nodes[i];
               var moves := StateOf(n.state, m.id) == 0 && |Holders(n', n'.logPrepare, m.id)| >= cfg.total / 3 * 2;
               && OneEntry(n.logPrepare, n'.logPrepare, m.src, m.id, m.digest)
               && StateOf(n'.state, m.id) == (if moves then 1 else StateOf(n.state, m.id))
               && (forall id :: id != m.id ==> StateOf(n'.state, id) == StateOf(n.state, id))
               && s'.net == s.net + (if moves then {Commit(m.digest, m.id, i)} else {})
  {
    hide Counted, Holders, Record;
    var before := es[..|es| - 1];
    RunKeeps(cfg, faulty, before);
    var s := Run(cfg, faulty, before);
    var n := s.nodes[i];
    assert PeerInv(cfg, faulty, s.net, n, s.current[i]);
    PrepareCasts(cfg, n, m);
    RecordIsEntry(n.logPrepare, m.src, m.id, m.digest);
    var n1 := n.(logPrepare := Record(n.logPrepare, m.src, m.id, m.digest));
    SameHolders(n1, OnPrepare(cfg, n, m).0, n1.logPrepare, m.id);
  }

  lemma SameHolders(n: Node, n': Node, log: Log, id: nat)
    requires n.logPrePrepare == n'.logPrePrepare
    ensures Holders(n, log, id) == Holders(n', log, id)
  {
  }

  /** On what count a commit of another peer decides its id. */
  lemma CommitStores(cfg: Config, n: Node, m: Msg)
    requires Sound(cfg) && NodeInv(cfg, n) && m.Commit? && m.src != n.addr
    ensures var (n', r) := OnCommit(cfg, n, m);
            var n1 := n.(logCommit := Record(n.logCommit, m.src, m.id, m.digest));
            && r == Ok({})
            && if StateOf(n.state, m.id) == 1 && |Holders(n1, n1.logCommit, m.id)| > cfg.total / 3 * 2 then
                 n' == Decide(cfg, n1, m, Holders(n1, n1.logCommit, m.id)) && m.id in n.logPrePrepare
               else n' == n1
  {
    hide Counted, Holders, Record, Decide;
    var n1 := n.(logCommit := Record(n.logCommit, m.src, m.id, m.digest));
    assert NodeInv(cfg, n1);
    HoldersCounted(cfg, n1, n1.logCommit, m.id);
    if |Holders(n1, n1.logCommit, m.id)| > cfg.total / 3 * 2 {
      SomeHolder(n1, n1.logCommit, m.id);
    }
  }

  /** A commit is logged. It moves its id to state 2, and has a block stored, exactly when the id was in state 1 and
      more than two thirds of the peers, in whole thirds, are now logged with the digest of the pre-prepare. */
  lemma {:induction false} CommitMovesIff(cfg: Config, faulty: set<nat>, es: seq<Event>, i: nat, m: Msg)
    requires Sound(cfg) && Received(cfg, faulty, es, i, m) && m.Commit?
    ensures var s, s' := Run(cfg, faulty, es[..|es| - 1]), Run(cfg, faulty, es);
            && i < |s.nodes| == |s'.nodes|
            && var n, n' := s.nodes[i], s'.nodes[i];
               var moves := StateOf(n.state, m.id) == 1 && |Holders(n', n'.logCommit, m.id)| > cfg.total / 3 * 2;
               && OneEntry(n.logCommit, n'.logCommit, m.src, m.id, m.digest)
               && StateOf(n'.state, m.id) == (if moves then 2 else StateOf(n.state, m.id))
               && (forall id :: id != m.id ==> StateOf(n'.state, id) == StateOf(n.state, id))
               && s'.net == s.net && (!moves ==> n'.stored == n.stored)
               && (moves ==>
                     && m.id in n.logPrePrepare && |n'.stored| == |n.stored| + 1 && n.stored <= n'.stored
                     && var e := n'.stored[|n.stored|];
                        && e.id == m.id && e.logged == n.logPrePrepare[m.id]
                        && e.voters == Holders(n', n'.logCommit, m.id))
  {
    hide Holders, Record, OnCommit, OnPrepare, OnPrePrepare, GetBlock, Append;
    var before := es[..|es| - 1];
    RunKeeps(cfg, faulty, before);
    var s := Run(cfg, faulty, before);
    var n := s.nodes[i];
    assert PeerInv(cfg, faulty, s.net, n, s.current[i]);
    CommitStores(cfg, n, m);
    RecordIsEntry(n.logCommit, m.src, m.id, m.digest);
    var n1 := n.(logCommit := Record(n.logCommit, m.src, m.id, m.digest));
    SameHolders(n1, OnCommit(cfg, n, m).0, n1.logCommit, m.id);
  }

  /** A pre-prepare whose digest is right and not at odds with the log is logged, voted for and answered with a
      prepare; one that is at odds keeps the lock. */
  lemma {:induction false} PrePrepareMovesIff(cfg: Config, faulty: set<nat>, es: seq<Event>, i: nat, m: Msg)
    requires Sound(cfg) && Received(cfg, faulty, es, i, m) && m.PrePrepare?
    ensures var s, s' := Run(cfg, faulty, es[..|es| - 1]), Run(cfg, faulty, es);
            && i < |s.nodes| == |s'.nodes|
            && var n, n' := s.nodes[i], s'.nodes[i];
               var odds := m.id in n.logPrePrepare && n.logPrePrepare[m.id] != m.digest;
               if cfg.digest(m.request) != m.digest then s' == s
               else if odds then s' == s.(nodes := s.nodes[i := n.(locked := true)])
               else
                 && n'.logPrePrepare == n.logPrePrepare[m.id := m.digest]
                 && n'.logRequest == n.logRequest[m.digest := m.request]
                 && OneEntry(n.logPrepare, n'.logPrepare, i, m.id, m.digest)
                 && n'.state == n.state && s'.net == s.net + {Prepare(m.digest, m.id, i)}
  {
    hide Record;
    var before := es[..|es| - 1];
    RunKeeps(cfg, faulty, before);
    var s := Run(cfg, faulty, before);
    assert PeerInv(cfg, faulty, s.net, s.nodes[i], s.current[i]);
    RecordIsEntry(s.nodes[i].logPrepare, i, m.id, m.digest);
  }

  /** A peer of any role answers at most once, and under the id heard or, with role 1, the next one. */
  lemma AnswersUnder(cfg: Config, n: Node, m: Msg, c: Msg)
    requires cfg.total > 0 && c in Sent(Handle(cfg, n, m).1)
    ensures c.id == (if n.role == 1 then m.id + 1 else m.id) && c.src == n.addr && c.digest == m.digest
    ensures if m.PrePrepare? then c.Prepare? else m.Prepare? && c.Commit?
  {
    hide Counted, Record;
  }
}
