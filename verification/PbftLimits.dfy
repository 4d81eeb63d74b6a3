/** Where the vote stops agreeing: the exact number of faulty peers it stands, and what one can do to a block. */
module PbftLimits {
  import opened Common
  import opened PbftNode
  import opened PbftRun
  import opened PbftHonest

  /** No run lets two honest peers store blocks of one id over different logged digests. */
  ghost predicate Agrees(cfg: Config, faulty: set<nat>) {
    forall es, i, a, j, b ::
      Legal(cfg, faulty, es) && i !in faulty && j !in faulty
      && Decided(Run(cfg, faulty, es), i, a) && Decided(Run(cfg, faulty, es), j, b) && a.id == b.id
      ==> a.logged == b.logged
  }

  ghost predicate Reached(cfg: Config, faulty: set<nat>, s: Sys) {
    exists es :: Legal(cfg, faulty, es) && Run(cfg, faulty, es) == s
  }

  lemma Start(cfg: Config, faulty: set<nat>)
    ensures Reached(cfg, faulty, Init(cfg))
  {
    assert Legal(cfg, faulty, []);
    assert Run(cfg, faulty, []) == Init(cfg);
  }

  lemma Extend(cfg: Config, faulty: set<nat>, s: Sys, e: Event)
    requires Reached(cfg, faulty, s) && Enabled(cfg, faulty, s, e)
    ensures Reached(cfg, faulty, Step(cfg, faulty, s, e))
  {
    var es :| Legal(cfg, faulty, es) && Run(cfg, faulty, es) == s;
    var es' := es + [e];
    assert es'[..|es'| - 1] == es;
    assert Legal(cfg, faulty, es');
    assert Run(cfg, faulty, es') == Step(cfg, faulty, s, e);
  }

  lemma {:induction false} PickSubset(s: set<nat>, k: nat) returns (t: set<nat>)
    requires k <= |s|
    ensures t <= s && |t| == k
  {
    if k == 0 {
      t := {};
    } else {
      var x :| x in s;
      t := PickSubset(s - {x}, k - 1);
      t := t + {x};
    }
  }

  // ----- one peer hearing a whole group

  /** A peer that accepted the pre-prepare of an id and nothing else. */
  ghost predicate Fresh(n: Node, x: nat, id: nat, d: string) {
    && n.addr == x && n.role == 0 && !n.locked
    && n.logPrePrepare == map[id := d] && StateOf(n.state, id) == 0
    && n.logPrepare == map[x := map[id := d]] && n.logCommit == map[]
  }

  /** A peer that also heard the prepares of `heard`, all for its own digest. */
  ghost predicate Hearing(cfg: Config, n: Node, x: nat, id: nat, d: string, heard: set<nat>) {
    && n.addr == x && n.role == 0 && !n.locked
    && n.logPrePrepare == map[id := d]
    && Votes(n.logPrepare, id, d) == heard + {x}
    && ((StateOf(n.state, id) == 0 && n.logCommit == map[] && (heard == {} || |heard + {x}| < Threshold(cfg.total)))
        || Prepared(n, x, id, d))
  }

  ghost predicate Prepared(n: Node, x: nat, id: nat, d: string) {
    && n.addr == x && n.role == 0 && !n.locked && n.logPrePrepare == map[id := d]
    && StateOf(n.state, id) == 1 && n.logCommit == map[x := map[id := d]]
  }

  lemma VoteAdded(log: Log, id: nat, d: string, y: nat)
    ensures Votes(Record(log, y, id, d), id, d) == Votes(log, id, d) + {y}
  {
    var log' := Record(log, y, id, d);
    forall src | src in log'
      ensures src in Votes(log', id, d) <==> src in Votes(log, id, d) + {y}
    {
      if src != y {
        assert log'[src] == log[src];
      }
    }
  }

  lemma FirstVote(id: nat, d: string, x: nat)
    ensures Record(map[], x, id, d) == map[x := map[id := d]]
  {
  }

  lemma HearPrepare(cfg: Config, n: Node, x: nat, id: nat, d: string, heard: set<nat>, y: nat)
    requires Hearing(cfg, n, x, id, d, heard) && y !in heard && y != x && d != ""
    ensures var (n', r) := OnPrepare(cfg, n, Prepare(d, id, y));
            && Hearing(cfg, n', x, id, d, heard + {y}) && r.Ok?
            && (Prepared(n', x, id, d) && !Prepared(n, x, id, d) ==> r.out == {Commit(d, id, x)})
  {
    hide Votes, Record;
    VoteAdded(n.logPrepare, id, d, y);
    FirstVote(id, d, x);
    assert heard + {x} + {y} == heard + {y} + {x};
  }

  ghost predicate Deciding(cfg: Config, n: Node, x: nat, id: nat, d: string, heard: set<nat>) {
    && n.addr == x && n.role == 0 && !n.locked && n.logPrePrepare == map[id := d]
    && Votes(n.logCommit, id, d) == heard + {x}
    && ((StateOf(n.state, id) == 1 && (heard == {} || |heard + {x}| <= Threshold(cfg.total))) || HasDecided(n, id, d))
  }

  ghost predicate HasDecided(n: Node, id: nat, d: string) {
    exists e :: e in n.stored && e.id == id && e.logged == d
  }

  lemma HearCommit(cfg: Config, n: Node, x: nat, id: nat, d: string, heard: set<nat>, y: nat)
    requires Deciding(cfg, n, x, id, d, heard) && y !in heard && y != x && d != "" && cfg.total > 0
    ensures var (n', r) := OnCommit(cfg, n, Commit(d, id, y));
            Deciding(cfg, n', x, id, d, heard + {y}) && r == Ok({})
  {
    var m := Commit(d, id, y);
    var (n', r) := OnCommit(cfg, n, m);
    var n1 := n.(logCommit := Record(n.logCommit, y, id, d));
    VoteAdded(n.logCommit, id, d, y);
    assert heard + {x} + {y} == heard + {y} + {x};
    if HasDecided(n, id, d) {
      var e :| e in n.stored && e.id == id && e.logged == d;
      assert e in n'.stored;
    } else if |heard + {y} + {x}| > Threshold(cfg.total) {
      assert n' == Decide(cfg, n1, m, heard + {y} + {x});
      assert n'.stored[|n.stored|] in n'.stored;
    }
  }

  // ----- the whole group

  /** Which of the two digests each peer is shown. */
  datatype Plot = Plot(id: nat, owner: nat, left: set<nat>, right: set<nat>, one: Request, other: Request)

  function Shown(p: Plot, x: nat): Request {
    if x in p.left then p.one else p.other
  }

  function Group(p: Plot, faulty: set<nat>, x: nat): set<nat> {
    if x in p.left then p.left + faulty else p.right + faulty
  }

  ghost predicate Plotted(cfg: Config, faulty: set<nat>, p: Plot) {
    && Sound(cfg)
    && p.owner in faulty && p.id == p.owner + 1 && faulty <= Peers(cfg.total)
    && p.left !! p.right && p.left + p.right == Peers(cfg.total) - faulty
    && |p.left + faulty| > Threshold(cfg.total) && |p.right + faulty| > Threshold(cfg.total)
    && cfg.digest(p.one) != cfg.digest(p.other)
  }

  function Seen(cfg: Config, p: Plot, x: nat): string {
    cfg.digest(Shown(p, x))
  }

  ghost predicate Live(cfg: Config, faulty: set<nat>, s: Sys) {
    Reached(cfg, faulty, s) && |s.nodes| == |s.current| == cfg.total
  }

  lemma Hand(cfg: Config, faulty: set<nat>, s: Sys, x: nat, m: Msg) returns (s': Sys)
    requires cfg.total > 0 && Live(cfg, faulty, s)
    requires x < cfg.total && x !in faulty && !s.nodes[x].locked
    requires m in s.net || Forged(cfg, faulty, m)
    ensures Live(cfg, faulty, s')
    ensures s'.nodes == s.nodes[x := Handle(cfg, s.nodes[x], m).0]
    ensures s'.net == s.net + Sent(Handle(cfg, s.nodes[x], m).1)
  {
    Extend(cfg, faulty, s, Deliver(x, m));
    s' := Step(cfg, faulty, s, Deliver(x, m));
  }

  ghost predicate Audible(faulty: set<nat>, net: set<Msg>, x: nat, total: nat, m: Msg) {
    m.src != x && m.src < total && (m.src in faulty || m in net)
  }

  lemma HeardNone(cfg: Config, n: Node, x: nat, id: nat, d: string)
    ensures d != "" && Fresh(n, x, id, d) ==> Hearing(cfg, n, x, id, d, {}) && !Prepared(n, x, id, d)
    ensures d != "" && Prepared(n, x, id, d) ==> Deciding(cfg, n, x, id, d, {})
  {
    if d != "" && Fresh(n, x, id, d) {
      assert Votes(n.logPrepare, id, d) == {x};
    }
    if d != "" && Prepared(n, x, id, d) {
      assert Votes(n.logCommit, id, d) == {x};
    }
  }

  lemma HearOnePrepare(cfg: Config, faulty: set<nat>, s: Sys, x: nat, id: nat, d: string, heard: set<nat>, y: nat)
    returns (s': Sys)
    requires cfg.total > 0 && Live(cfg, faulty, s) && x < cfg.total && x !in faulty && d != ""
    requires Hearing(cfg, s.nodes[x], x, id, d, heard) && y !in heard
    requires Prepared(s.nodes[x], x, id, d) ==> Commit(d, id, x) in s.net
    requires Audible(faulty, s.net, x, cfg.total, Prepare(d, id, y))
    ensures Live(cfg, faulty, s') && s.net <= s'.net && s'.nodes == s.nodes[x := s'.nodes[x]]
    ensures Hearing(cfg, s'.nodes[x], x, id, d, heard + {y})
    ensures Prepared(s'.nodes[x], x, id, d) ==> Commit(d, id, x) in s'.net
  {
    HearPrepare(cfg, s.nodes[x], x, id, d, heard, y);
    s' := Hand(cfg, faulty, s, x, Prepare(d, id, y));
  }

  lemma HearOneCommit(cfg: Config, faulty: set<nat>, s: Sys, x: nat, id: nat, d: string, heard: set<nat>, y: nat)
    returns (s': Sys)
    requires cfg.total > 0 && Live(cfg, faulty, s) && x < cfg.total && x !in faulty && d != ""
    requires Deciding(cfg, s.nodes[x], x, id, d, heard) && y !in heard
    requires Audible(faulty, s.net, x, cfg.total, Commit(d, id, y))
    ensures Live(cfg, faulty, s') && s.net <= s'.net && s'.nodes == s.nodes[x := s'.nodes[x]]
    ensures Deciding(cfg, s'.nodes[x], x, id, d, heard + {y})
  {
    HearCommit(cfg, s.nodes[x], x, id, d, heard, y);
    s' := Hand(cfg, faulty, s, x, Commit(d, id, y));
  }

  /** A peer hears prepares for its own digest from all of `heard`. */
  lemma {:induction false} HearPrepares(cfg: Config, faulty: set<nat>, s: Sys, x: nat, id: nat, d: string,
        heard: set<nat>)
    returns (s': Sys)
    requires cfg.total > 0 && Live(cfg, faulty, s) && x < cfg.total && x !in faulty && d != ""
    requires Fresh(s.nodes[x], x, id, d)
    requires forall y :: y in heard ==> Audible(faulty, s.net, x, cfg.total, Prepare(d, id, y))
    ensures Live(cfg, faulty, s') && s.net <= s'.net && s'.nodes == s.nodes[x := s'.nodes[x]]
    ensures Hearing(cfg, s'.nodes[x], x, id, d, heard)
    ensures Prepared(s'.nodes[x], x, id, d) ==> Commit(d, id, x) in s'.net
  {
    hide Reached, Hearing, Prepared, Fresh;
    if heard == {} {
      s' := s;
      HeardNone(cfg, s.nodes[x], x, id, d);
    } else {
      var y :| y in heard;
      var s1 := HearPrepares(cfg, faulty, s, x, id, d, heard - {y});
      assert Audible(faulty, s.net, x, cfg.total, Prepare(d, id, y));
      s' := HearOnePrepare(cfg, faulty, s1, x, id, d, heard - {y}, y);
      assert heard - {y} + {y} == heard;
    }
  }

  /** A peer that committed hears commits for its own digest from all of `heard`. */
  lemma {:induction false} HearCommits(cfg: Config, faulty: set<nat>, s: Sys, x: nat, id: nat, d: string,
        heard: set<nat>)
    returns (s': Sys)
    requires cfg.total > 0 && Live(cfg, faulty, s) && x < cfg.total && x !in faulty && d != ""
    requires Prepared(s.nodes[x], x, id, d)
    requires forall y :: y in heard ==> Audible(faulty, s.net, x, cfg.total, Commit(d, id, y))
    ensures Live(cfg, faulty, s') && s.net <= s'.net && s'.nodes == s.nodes[x := s'.nodes[x]]
    ensures Deciding(cfg, s'.nodes[x], x, id, d, heard)
  {
    hide Reached, Deciding, Prepared;
    if heard == {} {
      s' := s;
      HeardNone(cfg, s.nodes[x], x, id, d);
    } else {
      var y :| y in heard;
      var s1 := HearCommits(cfg, faulty, s, x, id, d, heard - {y});
      assert Audible(faulty, s.net, x, cfg.total, Commit(d, id, y));
      s' := HearOneCommit(cfg, faulty, s1, x, id, d, heard - {y}, y);
      assert heard - {y} + {y} == heard;
    }
  }

  lemma ShowOne(cfg: Config, x: nat, m: Msg)
    requires m.PrePrepare? && m.src != x && m.digest == cfg.digest(m.request)
    ensures var (n, r) := OnPrePrepare(cfg, NewNode(x, x + 1), m);
            Fresh(n, x, m.id, m.digest) && r == Ok({Prepare(m.digest, m.id, x)})
  {
  }

  /** A peer of the group was shown its digest and said so. */
  ghost predicate Told(cfg: Config, p: Plot, s: Sys, x: nat)
    requires x < |s.nodes|
  {
    Fresh(s.nodes[x], x, p.id, Seen(cfg, p, x)) && Prepare(Seen(cfg, p, x), p.id, x) in s.net
  }

  lemma Tell(cfg: Config, faulty: set<nat>, p: Plot, s: Sys, x: nat) returns (s': Sys)
    requires Plotted(cfg, faulty, p) && Live(cfg, faulty, s)
    requires x < cfg.total && x !in faulty && s.nodes[x] == NewNode(x, x + 1)
    ensures Live(cfg, faulty, s') && s.net <= s'.net && s'.nodes == s.nodes[x := s'.nodes[x]]
    ensures Told(cfg, p, s', x)
  {
    var m := PrePrepare(Shown(p, x), Seen(cfg, p, x), p.id, p.owner);
    ShowOne(cfg, x, m);
    s' := Hand(cfg, faulty, s, x, m);
  }

  lemma Honest(cfg: Config, faulty: set<nat>, p: Plot, x: nat)
    requires Plotted(cfg, faulty, p)
    ensures x in p.left + p.right <==> x < cfg.total && x !in faulty
  {
    assert x in Peers(cfg.total) - faulty <==> x < cfg.total && x !in faulty;
  }

  lemma ToldStays(cfg: Config, p: Plot, s: Sys, s': Sys, x: nat)
    requires x < |s.nodes| && x < |s'.nodes| && Told(cfg, p, s, x)
    requires s'.nodes[x] == s.nodes[x] && s.net <= s'.net
    ensures Told(cfg, p, s', x)
  {
  }

  /** Every peer of `shown` accepts the request it is shown. */
  lemma {:induction false} TellAll(cfg: Config, faulty: set<nat>, p: Plot, shown: set<nat>) returns (s: Sys)
    requires Plotted(cfg, faulty, p) && shown <= p.left + p.right
    ensures Live(cfg, faulty, s)
    ensures forall x :: x in shown ==> Told(cfg, p, s, x)
    ensures forall x :: x in p.left + p.right && x !in shown ==> s.nodes[x] == NewNode(x, x + 1)
  {
    hide Reached, Told, Plotted;
    forall x | x in p.left + p.right
      ensures x < cfg.total && x !in faulty
    {
      Honest(cfg, faulty, p, x);
    }
    if shown == {} {
      s := Init(cfg);
      Start(cfg, faulty);
    } else {
      var y :| y in shown;
      var s1 := TellAll(cfg, faulty, p, shown - {y});
      s := Tell(cfg, faulty, p, s1, y);
      forall x | x in shown
        ensures Told(cfg, p, s, x)
      {
        if x != y {
          ToldStays(cfg, p, s1, s, x);
        }
      }
    }
  }

  /** A peer of the group has committed to its digest. */
  ghost predicate Ready(cfg: Config, p: Plot, s: Sys, x: nat)
    requires x < |s.nodes|
  {
    Prepared(s.nodes[x], x, p.id, Seen(cfg, p, x)) && Commit(Seen(cfg, p, x), p.id, x) in s.net
  }

  lemma MakeReady(cfg: Config, faulty: set<nat>, p: Plot, s: Sys, x: nat) returns (s': Sys)
    requires Plotted(cfg, faulty, p) && Live(cfg, faulty, s)
    requires x in p.left + p.right && Told(cfg, p, s, x)
    requires forall y :: y in p.left + p.right ==> Prepare(Seen(cfg, p, y), p.id, y) in s.net
    ensures Live(cfg, faulty, s') && s.net <= s'.net && s'.nodes == s.nodes[x := s'.nodes[x]]
    ensures Ready(cfg, p, s', x)
  {
    hide Reached, Prepared, Fresh, Hearing, Forged;
    var group, d := Group(p, faulty, x), Seen(cfg, p, x);
    GroupHeard(cfg, faulty, p, s.net, x);
    s' := HearPrepares(cfg, faulty, s, x, p.id, d, group - {x});
    HeardEnough(cfg, s'.nodes[x], x, p.id, d, group - {x});
  }

  lemma GroupHeard(cfg: Config, faulty: set<nat>, p: Plot, net: set<Msg>, x: nat)
    requires Plotted(cfg, faulty, p) && x in p.left + p.right
    ensures |Group(p, faulty, x) - {x} + {x}| > Threshold(cfg.total) && Group(p, faulty, x) - {x} != {}
    ensures (forall y :: y in p.left + p.right ==> Prepare(Seen(cfg, p, y), p.id, y) in net) ==>
              forall y :: y in Group(p, faulty, x) - {x} ==>
                Audible(faulty, net, x, cfg.total, Prepare(Seen(cfg, p, x), p.id, y))
  {
    hide Peers;
    assert Group(p, faulty, x) - {x} + {x} == Group(p, faulty, x);
  }

  lemma HeardEnough(cfg: Config, n: Node, x: nat, id: nat, d: string, heard: set<nat>)
    requires Hearing(cfg, n, x, id, d, heard) && heard != {} && |heard + {x}| >= Threshold(cfg.total)
    ensures Prepared(n, x, id, d)
  {
  }

  lemma ReadyStays(cfg: Config, p: Plot, s: Sys, s': Sys, x: nat)
    requires x < |s.nodes| && x < |s'.nodes| && Ready(cfg, p, s, x)
    requires s'.nodes[x] == s.nodes[x] && s.net <= s'.net
    ensures Ready(cfg, p, s', x)
  {
  }

  lemma AllPrepared(cfg: Config, p: Plot, s: Sys)
    requires forall y :: y in p.left + p.right ==> y < |s.nodes| && Told(cfg, p, s, y)
    ensures forall y :: y in p.left + p.right ==> Prepare(Seen(cfg, p, y), p.id, y) in s.net
  {
  }

  /** Every peer of `done` has committed to the digest it was shown. */
  lemma {:induction false} ReadyAll(cfg: Config, faulty: set<nat>, p: Plot, done: set<nat>) returns (s: Sys)
    requires Plotted(cfg, faulty, p) && done <= p.left + p.right
    ensures Live(cfg, faulty, s)
    ensures forall x :: x in done ==> Ready(cfg, p, s, x)
    ensures forall x :: x in p.left + p.right && x !in done ==> Told(cfg, p, s, x)
    ensures forall y :: y in p.left + p.right ==> Prepare(Seen(cfg, p, y), p.id, y) in s.net
  {
    hide Reached, Told, Ready, Plotted;
    forall x | x in p.left + p.right
      ensures x < cfg.total && x !in faulty
    {
      Honest(cfg, faulty, p, x);
    }
    if done == {} {
      s := TellAll(cfg, faulty, p, p.left + p.right);
      assert forall y :: y in p.left + p.right ==> Told(cfg, p, s, y);
      AllPrepared(cfg, p, s);
    } else {
      var z :| z in done;
      var s1 := ReadyAll(cfg, faulty, p, done - {z});
      s := MakeReady(cfg, faulty, p, s1, z);
      forall x | x in done
        ensures Ready(cfg, p, s, x)
      {
        if x != z {
          ReadyStays(cfg, p, s1, s, x);
        }
      }
      forall x | x in p.left + p.right && x !in done
        ensures Told(cfg, p, s, x)
      {
        ToldStays(cfg, p, s1, s, x);
      }
    }
  }

  lemma GroupCommitted(cfg: Config, faulty: set<nat>, p: Plot, net: set<Msg>, x: nat)
    requires Plotted(cfg, faulty, p) && x in p.left + p.right
    requires forall y :: y in p.left + p.right ==> Commit(Seen(cfg, p, y), p.id, y) in net
    ensures forall y :: y in Group(p, faulty, x) - {x} ==>
              Audible(faulty, net, x, cfg.total, Commit(Seen(cfg, p, x), p.id, y))
  {
  }

  lemma CommittedEnough(cfg: Config, n: Node, x: nat, id: nat, d: string, heard: set<nat>)
    requires Deciding(cfg, n, x, id, d, heard) && heard != {} && |heard + {x}| > Threshold(cfg.total)
    ensures HasDecided(n, id, d)
  {
  }

  /** A peer hears the commits of its whole group, forged ones included, and stores a block. */
  lemma MakeDecide(cfg: Config, faulty: set<nat>, p: Plot, s: Sys, x: nat) returns (s': Sys)
    requires Plotted(cfg, faulty, p) && Live(cfg, faulty, s)
    requires x in p.left + p.right && Ready(cfg, p, s, x)
    requires forall y :: y in p.left + p.right ==> Commit(Seen(cfg, p, y), p.id, y) in s.net
    ensures Live(cfg, faulty, s') && s.net <= s'.net && s'.nodes == s.nodes[x := s'.nodes[x]]
    ensures HasDecided(s'.nodes[x], p.id, Seen(cfg, p, x))
  {
    GroupHeard(cfg, faulty, p, s.net, x);
    GroupCommitted(cfg, faulty, p, s.net, x);
    hide Reached, Prepared, Deciding, Audible;
    s' := HearCommits(cfg, faulty, s, x, p.id, Seen(cfg, p, x), Group(p, faulty, x) - {x});
    CommittedEnough(cfg, s'.nodes[x], x, p.id, Seen(cfg, p, x), Group(p, faulty, x) - {x});
  }

  lemma Apart(cfg: Config, faulty: set<nat>, p: Plot, x: nat, y: nat)
    requires Plotted(cfg, faulty, p) && x in p.left && y in p.right
    ensures x != y
  {
  }

  lemma AllCommitted(cfg: Config, p: Plot, s: Sys)
    requires forall y :: y in p.left + p.right ==> y < |s.nodes| && Ready(cfg, p, s, y)
    ensures forall y :: y in p.left + p.right ==> Commit(Seen(cfg, p, y), p.id, y) in s.net
  {
  }

  /** Two honest peers of the two groups store blocks of one id over the two digests. */
  lemma Split(cfg: Config, faulty: set<nat>, p: Plot, x: nat, y: nat) returns (s: Sys)
    requires Plotted(cfg, faulty, p) && x in p.left && y in p.right
    ensures Live(cfg, faulty, s)
    ensures HasDecided(s.nodes[x], p.id, Seen(cfg, p, x)) && HasDecided(s.nodes[y], p.id, Seen(cfg, p, y))
  {
    hide Reached, HasDecided, Ready, Plotted;
    forall z | z in p.left + p.right
      ensures z < cfg.total && z !in faulty
    {
      Honest(cfg, faulty, p, z);
    }
    Apart(cfg, faulty, p, x, y);
    var s0 := ReadyAll(cfg, faulty, p, p.left + p.right);
    AllCommitted(cfg, p, s0);
    var s1 := MakeDecide(cfg, faulty, p, s0, x);
    ReadyStays(cfg, p, s0, s1, y);
    s := MakeDecide(cfg, faulty, p, s1, y);
  }

  /** With too many faulty peers, the honest ones can be split in two groups that each look like a quorum. */
  lemma MakePlot(cfg: Config, faulty: set<nat>, one: Request, other: Request) returns (p: Plot, x: nat, y: nat)
    requires Sound(cfg) && faulty <= Peers(cfg.total) && |faulty| + 2 <= cfg.total
    requires !Tolerates(cfg.total, |faulty|) && cfg.digest(one) != cfg.digest(other)
    ensures Plotted(cfg, faulty, p) && x in p.left && y in p.right
    ensures p.one == one && p.other == other
  {
    hide Peers;
    var honest := Peers(cfg.total) - faulty;
    var t := Threshold(cfg.total);
    PeersSize(cfg.total);
    assert honest + faulty == Peers(cfg.total);
    assert |honest| == cfg.total - |faulty|;
    var k := if |faulty| < t then t + 1 - |faulty| else 1;
    var left := PickSubset(honest, k);
    var right := honest - left;
    assert |right| == |honest| - k;
    assert |left + faulty| == k + |faulty| && |right + faulty| == |honest| - k + |faulty|;
    assert faulty != {};
    var owner :| owner in faulty;
    p := Plot(owner + 1, owner, left, right, one, other);
    x :| x in left;
    y :| y in right;
  }

  /** The vote agrees in exactly the networks where two commit quorums always share an honest peer. */
  lemma {:induction false} AgreementIff(cfg: Config, faulty: set<nat>, one: Request, other: Request)
    requires Sound(cfg) && faulty <= Peers(cfg.total) && |faulty| + 2 <= cfg.total
    requires cfg.digest(one) != cfg.digest(other)
    ensures Agrees(cfg, faulty) <==> Tolerates(cfg.total, |faulty|)
  {
    if Tolerates(cfg.total, |faulty|) {
      forall es, i, a, j, b |
        Legal(cfg, faulty, es) && i !in faulty && j !in faulty
        && Decided(Run(cfg, faulty, es), i, a) && Decided(Run(cfg, faulty, es), j, b) && a.id == b.id
        ensures a.logged == b.logged
      {
        CommitAgreement(cfg, faulty, es, i, a, j, b);
      }
    } else {
      var p, x, y := MakePlot(cfg, faulty, one, other);
      Disagree(cfg, faulty, p, x, y);
    }
  }

  lemma Disagree(cfg: Config, faulty: set<nat>, p: Plot, x: nat, y: nat)
    requires Plotted(cfg, faulty, p) && x in p.left && y in p.right
    ensures !Agrees(cfg, faulty)
  {
    Honest(cfg, faulty, p, x);
    Honest(cfg, faulty, p, y);
    var s := Split(cfg, faulty, p, x, y);
    hide Legal, Run;
    var es :| Legal(cfg, faulty, es) && Run(cfg, faulty, es) == s;
    var a :| a in s.nodes[x].stored && a.id == p.id && a.logged == Seen(cfg, p, x);
    var b :| b in s.nodes[y].stored && b.id == p.id && b.logged == Seen(cfg, p, y);
    assert Decided(Run(cfg, faulty, es), x, a) && Decided(Run(cfg, faulty, es), y, b);
  }

  // ----- what a block contains

  /** A stored block holds the request its peer logged exactly when the commit that completed the count
      carried the logged digest, a request made of three empty strings aside. */
  lemma {:induction false} BlockContentsIff(cfg: Config, n: Node, m: Msg)
    requires Sound(cfg) && NodeInv(cfg, n) && m.Commit? && |OnCommit(cfg, n, m).0.stored| > |n.stored|
    ensures var e := OnCommit(cfg, n, m).0.stored[|n.stored|];
            && e.id == m.id && m.id in n.logPrePrepare && e.logged == n.logPrePrepare[m.id]
            && (cfg.digest(e.request) == e.logged <==>
                  m.digest == e.logged || (m.digest !in n.logRequest && cfg.digest(ZERO_REQUEST) == e.logged))
  {
  }

  const DECEIVED: nat := 5

  /** The owner, peer 0, commits once it heard the prepares of peers 1 and 2. */
  lemma OwnerCommits(cfg: Config, r: Request)
    requires cfg.total == 4 && cfg.digest(r) != ""
    ensures var d := cfg.digest(r);
            var n0 := Propose(cfg, NewNode(0, 1), r, true).0;
            var n1 := OnPrepare(cfg, n0, Prepare(d, DECEIVED, 1)).0;
            && OnPrepare(cfg, n0, Prepare(d, DECEIVED, 1)).1 == Ok({})
            && OnPrepare(cfg, n1, Prepare(d, DECEIVED, 2)).1 == Ok({Commit(d, DECEIVED, 0)})
            && !n0.locked && !n1.locked
  {
    var d := cfg.digest(r);
    var n0 := Propose(cfg, NewNode(0, 1), r, true).0;
    VoteAdded(n0.logPrepare, DECEIVED, d, 1);
    assert Votes(n0.logPrepare, DECEIVED, d) == {};
    var n1 := OnPrepare(cfg, n0, Prepare(d, DECEIVED, 1)).0;
    VoteAdded(n1.logPrepare, DECEIVED, d, 2);
  }

  lemma EarlyCommit(cfg: Config, n: Node, m: Msg)
    requires m.Commit? && m.src != n.addr && StateOf(n.state, m.id) == 0 && cfg.total > 0
    ensures OnCommit(cfg, n, m).0 == n.(logCommit := Record(n.logCommit, m.src, m.id, m.digest))
  {
  }

  /** Two commits of others and its own in its log, a peer waits for one more commit of any kind. */
  ghost predicate Waiting(n: Node, d: string) {
    && n.addr == 1 && !n.locked && n.logPrePrepare == map[DECEIVED := d]
    && StateOf(n.state, DECEIVED) == 1 && Votes(n.logCommit, DECEIVED, d) == {0, 2, 1}
    && 3 !in n.logCommit
  }

  lemma CommitsFirst(cfg: Config, n: Node, d: string)
    requires cfg.total == 4 && d != "" && Fresh(n, 1, DECEIVED, d)
    ensures var n1 := OnCommit(cfg, n, Commit(d, DECEIVED, 0)).0;
            var n2 := OnCommit(cfg, n1, Commit(d, DECEIVED, 2)).0;
            var n3 := OnPrepare(cfg, n2, Prepare(d, DECEIVED, 2)).0;
            !n1.locked && !n2.locked && Waiting(n3, d) && n3.logRequest == n.logRequest
  {
    EarlyCommit(cfg, n, Commit(d, DECEIVED, 0));
    var n1 := n.(logCommit := Record(n.logCommit, 0, DECEIVED, d));
    EarlyCommit(cfg, n1, Commit(d, DECEIVED, 2));
    var n2 := n1.(logCommit := Record(n1.logCommit, 2, DECEIVED, d));
    assert Votes(n.logCommit, DECEIVED, d) == {};
    VoteAdded(n.logCommit, DECEIVED, d, 0);
    VoteAdded(n1.logCommit, DECEIVED, d, 2);
    VoteAdded(n2.logCommit, DECEIVED, d, 1);
    OwnAndOne(cfg, n2, d);
  }

  lemma OwnAndOne(cfg: Config, n: Node, d: string)
    requires cfg.total == 4 && d != "" && n.addr == 1 && n.role == 0 && n.logPrePrepare == map[DECEIVED := d]
    requires StateOf(n.state, DECEIVED) == 0 && n.logPrepare == map[1 := map[DECEIVED := d]]
    ensures OnPrepare(cfg, n, Prepare(d, DECEIVED, 2)).0 ==
            CastCommit(n.(logPrepare := Record(n.logPrepare, 2, DECEIVED, d)), Prepare(d, DECEIVED, 2))
  {
    hide Votes, Record;
    OneVote(n.logPrepare, d);
    VoteAdded(n.logPrepare, DECEIVED, d, 2);
    assert |{1} + {2}| == 2;
  }

  lemma OneVote(log: Log, d: string)
    requires log == map[1 := map[DECEIVED := d]]
    ensures Votes(log, DECEIVED, d) == {1}
  {
  }

  lemma Misled(cfg: Config, n: Node, d: string, x: string)
    requires cfg.total == 4 && d != "" && x != d && x !in n.logRequest && Waiting(n, d)
    ensures exists e :: e in OnCommit(cfg, n, Commit(x, DECEIVED, 3)).0.stored
                        && e.id == DECEIVED && e.logged == d && e.request == ZERO_REQUEST
  {
    var log := Record(n.logCommit, 3, DECEIVED, x);
    assert Votes(log, DECEIVED, d) == {0, 2, 1};
    var n' := OnCommit(cfg, n, Commit(x, DECEIVED, 3)).0;
    assert n'.stored[|n.stored|] in n'.stored;
  }

  /** One faulty peer of four, fewer than a third, makes an honest peer store an empty record for the
      request that an honest owner announced. */
  lemma {:induction false} OneFaultyEmptiesABlock(cfg: Config, r: Request) returns (es: seq<Event>, e: Stored)
    requires Sound(cfg) && cfg.total == 4
    ensures Legal(cfg, {3}, es) && Decided(Run(cfg, {3}, es), 1, e)
    ensures e.id == DECEIVED && e.logged == cfg.digest(r) && e.request == ZERO_REQUEST
    ensures PrePrepare(r, cfg.digest(r), DECEIVED, 0) in Run(cfg, {3}, es).net
  {
    var d := cfg.digest(r);
    var s, x := Deceive(cfg, r);
    hide Legal, Run;
    es :| Legal(cfg, {3}, es) && Run(cfg, {3}, es) == s;
    e :| e in s.nodes[1].stored && e.id == DECEIVED && e.logged == d && e.request == ZERO_REQUEST;
  }

  lemma Deceive(cfg: Config, r: Request) returns (s: Sys, x: string)
    requires Sound(cfg) && cfg.total == 4
    ensures Live(cfg, {3}, s) && PrePrepare(r, cfg.digest(r), DECEIVED, 0) in s.net
    ensures exists e ::
              e in s.nodes[1].stored && e.id == DECEIVED && e.logged == cfg.digest(r) && e.request == ZERO_REQUEST
  {
    var d := cfg.digest(r);
    var pp := PrePrepare(r, d, DECEIVED, 0);
    var s1 := AllVoted(cfg, r);
    x := d + "!";
    CommitsFirst(cfg, s1.nodes[1], d);
    hide Reached, OnCommit, OnPrepare;
    s := Hand(cfg, {3}, s1, 1, Commit(d, DECEIVED, 0));
    s := Hand(cfg, {3}, s, 1, Commit(d, DECEIVED, 2));
    s := Hand(cfg, {3}, s, 1, Prepare(d, DECEIVED, 2));
    Misled(cfg, s.nodes[1], d, x);
    s := Hand(cfg, {3}, s, 1, Commit(x, DECEIVED, 3));
  }

  /** The owner announced a request, and peers 1 and 2 accepted it. */
  lemma TwoTold(cfg: Config, r: Request) returns (s: Sys)
    requires Sound(cfg) && cfg.total == 4
    ensures Live(cfg, {3}, s) && PrePrepare(r, cfg.digest(r), DECEIVED, 0) in s.net
    ensures s.nodes[0] == Propose(cfg, NewNode(0, 1), r, true).0
    ensures Fresh(s.nodes[1], 1, DECEIVED, cfg.digest(r)) && s.nodes[1].logRequest == map[cfg.digest(r) := r]
    ensures Fresh(s.nodes[2], 2, DECEIVED, cfg.digest(r))
    ensures {Prepare(cfg.digest(r), DECEIVED, 1), Prepare(cfg.digest(r), DECEIVED, 2)} <= s.net
  {
    var pp := PrePrepare(r, cfg.digest(r), DECEIVED, 0);
    Start(cfg, {3});
    Extend(cfg, {3}, Init(cfg), Tag(0, r));
    s := Step(cfg, {3}, Init(cfg), Tag(0, r));
    ShowOne(cfg, 1, pp);
    ShowOne(cfg, 2, pp);
    hide Reached;
    s := Hand(cfg, {3}, s, 1, pp);
    s := Hand(cfg, {3}, s, 2, pp);
  }

  /** All but peer 1 then committed to it. */
  lemma AllVoted(cfg: Config, r: Request) returns (s: Sys)
    requires Sound(cfg) && cfg.total == 4
    ensures Live(cfg, {3}, s) && PrePrepare(r, cfg.digest(r), DECEIVED, 0) in s.net
    ensures Fresh(s.nodes[1], 1, DECEIVED, cfg.digest(r)) && s.nodes[1].logRequest == map[cfg.digest(r) := r]
    ensures var d := cfg.digest(r);
            {Commit(d, DECEIVED, 0), Commit(d, DECEIVED, 2), Prepare(d, DECEIVED, 2)} <= s.net
  {
    var d := cfg.digest(r);
    var s1 := TwoTold(cfg, r);
    OwnerCommits(cfg, r);
    HeardNone(cfg, s1.nodes[2], 2, DECEIVED, d);
    HearPrepare(cfg, s1.nodes[2], 2, DECEIVED, d, {}, 1);
    HeardEnough(cfg, OnPrepare(cfg, s1.nodes[2], Prepare(d, DECEIVED, 1)).0, 2, DECEIVED, d, {} + {1});
    hide Reached, OnPrepare, Hearing, Propose, Prepared;
    s := Hand(cfg, {3}, s1, 0, Prepare(d, DECEIVED, 1));
    s := Hand(cfg, {3}, s, 0, Prepare(d, DECEIVED, 2));
    s := Hand(cfg, {3}, s, 2, Prepare(d, DECEIVED, 1));
  }
}
