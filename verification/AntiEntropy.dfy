/** Comparing two peers' tables, and what an answer to a status closes. */
module AntiEntropy {
  import opened Common
  import opened RumorTable
  import opened PlumTree
  import opened Gossip

  /** The statuses of the whole tables. */
  ghost predicate IsStatus(status: map<nat, nat>, logs: Logs) {
    forall o: nat {:trigger Seen(status, o)} :: Seen(status, o) == |Log(logs, o)|
  }

  /** Every origin but those left has been answered. */
  ghost predicate Answered(rs: seq<Rumor>, logs: Logs, theirs: map<nat, nat>, left: set<nat>) {
    forall o: nat {:trigger Of(rs, o)} :: Of(rs, o) == if o in left then [] else Newer(logs, theirs, o)
  }

  /** The entries of a log name its origin. */
  ghost predicate NamesOrigin(log: seq<Rumor>, o: nat) {
    forall k :: 0 <= k < |log| ==> log[k].origin == o
  }

  lemma AnsweredNext(rs: seq<Rumor>, logs: Logs, theirs: map<nat, nat>, left: set<nat>, origin: nat)
    requires Answered(rs, logs, theirs, left) && origin in left && NamesOrigin(Log(logs, origin), origin)
    ensures Answered(rs + Newer(logs, theirs, origin), logs, theirs, left - {origin})
  {
    var block := Newer(logs, theirs, origin);
    forall o: nat
      ensures Of(rs + block, o) == if o in left - {origin} then [] else Newer(logs, theirs, o)
    {
      assert Of(rs, o) == if o in left then [] else Newer(logs, theirs, o);
      OfJoin(rs, block, origin, o);
    }
  }

  method FindMyNew(table: SafeRumorTable, mine: map<nat, nat>, theirs: map<nat, nat>) returns (rumors: seq<Rumor>)
    requires mine == Status(table.rumorTable)
    requires forall o: nat :: NamesOrigin(Log(table.rumorTable, o), o)
    ensures IsAnswer(rumors, table.rumorTable, theirs)
  {
    hide Of;
    rumors := [];
    var origins := mine.Keys;
    NoneAnswered(table.rumorTable, theirs);
    while origins != {}
      invariant origins <= mine.Keys && Answered(rumors, table.rumorTable, theirs, origins)
    {
      var origin :| origin in origins;
      var remoteSeq := if origin in theirs then theirs[origin] else 0;
      AnsweredNext(rumors, table.rumorTable, theirs, origins, origin);
      if mine[origin] > remoteSeq {
        var interval := table.GetInterval(origin, remoteSeq, mine[origin]);
        assert interval == Newer(table.rumorTable, theirs, origin);
        rumors := rumors + interval;
      } else {
        assert rumors + [] == rumors;
      }
      origins := origins - {origin};
    }
  }

  lemma NoneAnswered(logs: Logs, theirs: map<nat, nat>)
    ensures Answered([], logs, theirs, logs.Keys)
  {
  }

  method FindRemoteNew(mine: map<nat, nat>, theirs: map<nat, nat>) returns (remoteHasNew: bool)
    ensures remoteHasNew <==> exists o :: o in theirs && theirs[o] > Seen(mine, o)
  {
    remoteHasNew := false;
    var origins := theirs.Keys;
    while origins != {}
      invariant origins <= theirs.Keys
      invariant forall o :: o in theirs && o !in origins ==> theirs[o] <= Seen(mine, o)
    {
      var origin :| origin in origins;
      var mySeq := if origin in mine then mine[origin] else 0;
      if mySeq < theirs[origin] {
        return true;
      }
      origins := origins - {origin};
    }
  }

  /** A block of rumors of one origin. */
  lemma {:induction false} OfJoin(rs: seq<Rumor>, block: seq<Rumor>, origin: nat, o: nat)
    requires forall k :: 0 <= k < |block| ==> block[k].origin == origin
    ensures Of(rs + block, o) == Of(rs, o) + if o == origin then block else []
  {
    if block == [] {
      assert rs + block == rs;
    } else {
      var last, all := |block| - 1, rs + block;
      OfJoin(rs, block[..last], origin, o);
      assert all[..|all| - 1] == rs + block[..last] && all[|all| - 1] == block[last];
      assert block == block[..last] + [block[last]];
      if o == origin {
        assert Of(rs, o) + block == Of(rs, o) + block[..last] + [block[last]];
      }
    }
  }

  // ----- nothing new on either side

  lemma HasNewer(answer: seq<Rumor>, logs: Logs, theirs: map<nat, nat>) returns (o: nat)
    requires answer != [] && IsAnswer(answer, logs, theirs)
    ensures Seen(theirs, o) < |Log(logs, o)|
  {
    OfHas(answer, 0);
    o := answer[0].origin;
    assert Of(answer, o) == Newer(logs, theirs, o);
  }

  /** Neither peer has anything new for the other exactly when their tables are the same. */
  lemma {:induction false} NothingNewIff(cfg: Config, es: seq<Event>, a: nat, b: nat, theirs: map<nat, nat>,
        answer: seq<Rumor>)
    requires Legal(cfg, es) && a < cfg.total && b < cfg.total && |Run(cfg, es).nodes| == cfg.total
    requires IsStatus(theirs, Run(cfg, es).nodes[b].logs) && IsAnswer(answer, Run(cfg, es).nodes[a].logs, theirs)
    ensures var mine, other := Run(cfg, es).nodes[a].logs, Run(cfg, es).nodes[b].logs;
            answer == [] && !RemoteIsAhead(mine, theirs) <==> forall o: nat :: Log(mine, o) == Log(other, o)
  {
    RunKeeps(cfg, es);
    var s := Run(cfg, es);
    var mine, other := s.nodes[a].logs, s.nodes[b].logs;
    if answer == [] && !RemoteIsAhead(mine, theirs) {
      forall o: nat
        ensures Log(mine, o) == Log(other, o)
      {
        assert Of(answer, o) == Newer(mine, theirs, o);
        assert LogOk(s.nodes, a, s.nodes[a], o) && LogOk(s.nodes, b, s.nodes[b], o);
        assert Seen(theirs, o) == |Log(other, o)|;
      }
    }
    if forall o: nat :: Log(mine, o) == Log(other, o) {
      if answer != [] {
        var o := HasNewer(answer, mine, theirs);
      }
      forall o | o in theirs
        ensures theirs[o] <= |Log(mine, o)|
      {
        assert Seen(theirs, o) == |Log(other, o)|;
      }
    }
  }

  // ----- an answer closes the gap

  /** Peer b sent peer a its status, as such or in an acknowledgement. */
  ghost predicate Reported(net: set<Packet>, b: nat, a: nat, theirs: map<nat, nat>) {
    Packet(b, a, Ask(theirs)) in net || Packet(b, a, Ack(theirs)) in net
  }

  /** One origin's rumors from some place of its log on: a peer that has that place takes all it lacks. */
  ghost predicate Block(rs: seq<Rumor>, log: seq<Rumor>, from: nat) {
    from + |rs| <= |log| && rs == log[from..from + |rs|]
  }

  /** Whatever the other origins' rumors do in between, the log of an origin after a message is at least what
      the message had of it. */
  lemma {:induction false} HandlesBlock(cfg: Config, n: Node, i: nat, rs: seq<Rumor>, src: nat, o: nat,
        log: seq<Rumor>, from: nat)
    requires Numbered(log, o) && Block(Of(rs, o), log, from) && Log(n.logs, o) <= log && from <= |Log(n.logs, o)|
    requires !HandleAll(cfg, n, i, rs, src).0.stuck
    ensures var n' := HandleAll(cfg, n, i, rs, src).0;
            Log(n'.logs, o) <= log && |Log(n'.logs, o)| >= from + |Of(rs, o)| && |Log(n'.logs, o)| >= |Log(n.logs, o)|
  {
    hide HandleOne;
    if rs != [] {
      var before, r := rs[..|rs| - 1], rs[|rs| - 1];
      var n1 := HandleAll(cfg, n, i, before, src).0;
      StuckStays(cfg, n1, i, r, src);
      if r.origin == o {
        BlockSnoc(Of(before, o), r, log, from);
      }
      HandlesBlock(cfg, n, i, before, src, o, log, from);
      OneOrigin(cfg, n1, i, r, src, o);
    }
  }

  lemma StuckStays(cfg: Config, n: Node, i: nat, r: Rumor, src: nat)
    requires !HandleOne(cfg, n, i, r, src).0.stuck
    ensures !n.stuck
  {
  }

  lemma BlockSnoc(rs: seq<Rumor>, r: Rumor, log: seq<Rumor>, from: nat)
    requires Block(rs + [r], log, from)
    ensures Block(rs, log, from) && r == log[from + |rs|]
  {
    assert (rs + [r])[..|rs|] == rs && (rs + [r])[|rs|] == r;
    assert log[from..from + |rs| + 1][..|rs|] == log[from..from + |rs|];
  }

  lemma {:induction false} OneOrigin(cfg: Config, n: Node, i: nat, r: Rumor, src: nat, o: nat)
    requires !n.stuck
    ensures Log(HandleOne(cfg, n, i, r, src).0.logs, o) ==
            if r.origin == o && r.sequence == |Log(n.logs, o)| + 1 then Log(n.logs, o) + [r] else Log(n.logs, o)
  {
  }

  lemma RunSize(cfg: Config, es: seq<Event>)
    requires Legal(cfg, es)
    ensures |Run(cfg, es).nodes| == cfg.total
  {
    RunKeeps(cfg, es);
  }

  /** Prefixes of one run: what came before is still there. */
  lemma {:induction false} RunExtends(cfg: Config, es: seq<Event>, es': seq<Event>, i: nat)
    requires Legal(cfg, es') && es <= es' && i < cfg.total
    ensures Legal(cfg, es) && |Run(cfg, es).nodes| == |Run(cfg, es').nodes| == cfg.total
    ensures Extends(Run(cfg, es).nodes[i].logs, Run(cfg, es').nodes[i].logs)
    ensures Run(cfg, es).net <= Run(cfg, es').net
    decreases |es'|
  {
    hide Inv, Extends, Step, Enabled;
    RunSize(cfg, es');
    if |es| == |es'| {
      assert es == es';
      ExtendsSame(Run(cfg, es).nodes[i].logs);
    } else {
      var before := es'[..|es'| - 1];
      RunExtends(cfg, es, before, i);
      StepExtends(cfg, Run(cfg, before), es'[|es'| - 1], i);
      ExtendsTwice(Run(cfg, es).nodes[i].logs, Run(cfg, before).nodes[i].logs, Run(cfg, es').nodes[i].logs);
    }
  }

  lemma {:induction false} HandleExtends(cfg: Config, n: Node, i: nat, rs: seq<Rumor>, src: nat)
    ensures Extends(n.logs, HandleAll(cfg, n, i, rs, src).0.logs)
  {
    if rs == [] {
      ExtendsSame(n.logs);
    } else {
      var n1 := HandleAll(cfg, n, i, rs[..|rs| - 1], src).0;
      HandleExtends(cfg, n, i, rs[..|rs| - 1], src);
      var n2 := HandleOne(cfg, n1, i, rs[|rs| - 1], src).0;
      forall o: nat
        ensures Log(n1.logs, o) <= Log(n2.logs, o)
      {
      }
      ExtendsTwice(n.logs, n1.logs, n2.logs);
    }
  }

  lemma {:induction false} StepExtends(cfg: Config, s: Sys, e: Event, j: nat)
    requires Enabled(cfg, s, e) && j < cfg.total
    ensures |Step(cfg, s, e).nodes| == cfg.total && Extends(s.nodes[j].logs, Step(cfg, s, e).nodes[j].logs)
    ensures s.net <= Step(cfg, s, e).net
  {
    hide HandleAll;
    ExtendsSame(s.nodes[j].logs);
    if j == e.i {
      if e.Hear? && e.pkt.msg.Rumors? {
        HandleExtends(cfg, s.nodes[j], j, e.pkt.msg.rs, e.pkt.src);
      } else if e.Broadcast? {
        forall o: nat
          ensures Log(s.nodes[j].logs, o) <= Log(Step(cfg, s, e).nodes[j].logs, o)
        {
        }
      }
    }
  }

  /** Peer a answers a status of peer b; by the time b handles the answer both may have heard anything else.
      If its handler gets through, b then has all that a had when it answered. */
  lemma {:induction false} GapCloses(cfg: Config, es: seq<Event>, es': seq<Event>, a: nat, b: nat,
        theirs: map<nat, nat>, rs: seq<Rumor>)
    requires Legal(cfg, es') && es <= es' && Legal(cfg, es) && a < cfg.total && b < cfg.total
    requires |Run(cfg, es).nodes| == |Run(cfg, es').nodes| == cfg.total
    requires Reported(Run(cfg, es).net, b, a, theirs) && IsAnswer(rs, Run(cfg, es).nodes[a].logs, theirs)
    requires !HandleAll(cfg, Run(cfg, es').nodes[b], b, rs, a).0.stuck
    ensures Extends(Run(cfg, es).nodes[a].logs, HandleAll(cfg, Run(cfg, es').nodes[b], b, rs, a).0.logs)
  {
    var s, s' := Run(cfg, es), Run(cfg, es');
    var logs, n := s.nodes[a].logs, s'.nodes[b];
    forall o: nat
      ensures Log(logs, o) <= Log(HandleAll(cfg, n, b, rs, a).0.logs, o)
    {
      GapClosesAt(cfg, es, es', a, b, theirs, rs, o);
    }
  }

  lemma {:induction false} GapClosesAt(cfg: Config, es: seq<Event>, es': seq<Event>, a: nat, b: nat,
        theirs: map<nat, nat>, rs: seq<Rumor>, o: nat)
    requires Legal(cfg, es') && es <= es' && Legal(cfg, es) && a < cfg.total && b < cfg.total
    requires |Run(cfg, es).nodes| == |Run(cfg, es').nodes| == cfg.total
    requires Reported(Run(cfg, es).net, b, a, theirs) && IsAnswer(rs, Run(cfg, es).nodes[a].logs, theirs)
    requires !HandleAll(cfg, Run(cfg, es').nodes[b], b, rs, a).0.stuck
    ensures Log(Run(cfg, es).nodes[a].logs, o) <= Log(HandleAll(cfg, Run(cfg, es').nodes[b], b, rs, a).0.logs, o)
  {
    hide Inv, Legal, Run, HandleAll, Extends, IsAnswer;
    RunKeeps(cfg, es);
    RunKeeps(cfg, es');
    RunExtends(cfg, es, es', a);
    RunExtends(cfg, es, es', b);
    GapAt(cfg, Run(cfg, es), Run(cfg, es'), a, b, theirs, rs, o);
  }

  function Start(logs: Logs, theirs: map<nat, nat>, o: nat): nat {
    if Seen(theirs, o) < |Log(logs, o)| then Seen(theirs, o) else 0
  }

  lemma NewerIsBlock(logs: Logs, theirs: map<nat, nat>, o: nat, own: seq<Rumor>)
    requires Log(logs, o) <= own
    ensures Block(Newer(logs, theirs, o), own, Start(logs, theirs, o))
    ensures Newer(logs, theirs, o) != [] ==> Start(logs, theirs, o) + |Newer(logs, theirs, o)| == |Log(logs, o)|
    ensures Newer(logs, theirs, o) == [] ==> |Log(logs, o)| <= Seen(theirs, o)
  {
  }

  lemma PrefixOfPrefix(a: seq<Rumor>, b: seq<Rumor>, own: seq<Rumor>)
    requires a <= own && b <= own && |a| <= |b|
    ensures a <= b
  {
  }

  /** What peer b has of an origin when the answer comes is a prefix of the origin's log, and no less than
      its status said. */
  lemma {:induction false} BeforeAnswer(cfg: Config, s: Sys, s': Sys, a: nat, b: nat, theirs: map<nat, nat>, o: nat)
    requires Inv(cfg, s) && Inv(cfg, s') && a < cfg.total && b < cfg.total
    requires Extends(s.nodes[a].logs, s'.nodes[a].logs) && Extends(s.nodes[b].logs, s'.nodes[b].logs)
    requires Reported(s.net, b, a, theirs)
    ensures Log(s.nodes[a].logs, o) <= Own(s'.nodes, o) && Log(s'.nodes[b].logs, o) <= Own(s'.nodes, o)
    ensures Seen(theirs, o) <= |Log(s'.nodes[b].logs, o)|
  {
    hide TreeOk;
    assert Log(s.nodes[a].logs, o) <= Log(s'.nodes[a].logs, o) && Log(s.nodes[b].logs, o) <= Log(s'.nodes[b].logs, o);
    assert LogOk(s'.nodes, a, s'.nodes[a], o) && LogOk(s'.nodes, b, s'.nodes[b], o);
    var pkt := if Packet(b, a, Ask(theirs)) in s.net then Packet(b, a, Ask(theirs)) else Packet(b, a, Ack(theirs));
    assert PacketOk(s.nodes, pkt);
  }

  lemma {:induction false} GapAt(cfg: Config, s: Sys, s': Sys, a: nat, b: nat, theirs: map<nat, nat>, rs: seq<Rumor>,
        o: nat)
    requires Inv(cfg, s) && Inv(cfg, s') && a < cfg.total && b < cfg.total
    requires Extends(s.nodes[a].logs, s'.nodes[a].logs) && Extends(s.nodes[b].logs, s'.nodes[b].logs)
    requires Reported(s.net, b, a, theirs) && IsAnswer(rs, s.nodes[a].logs, theirs)
    requires !HandleAll(cfg, s'.nodes[b], b, rs, a).0.stuck
    ensures Log(s.nodes[a].logs, o) <= Log(HandleAll(cfg, s'.nodes[b], b, rs, a).0.logs, o)
  {
    hide NodeOk, PacketOk, Extends, HandleAll, Newer, Block;
    var logs, n, own := s.nodes[a].logs, s'.nodes[b], Own(s'.nodes, o);
    assert Of(rs, o) == Newer(logs, theirs, o);
    BeforeAnswer(cfg, s, s', a, b, theirs, o);
    OwnNumbered(cfg, s', o);
    NewerIsBlock(logs, theirs, o, own);
    HandlesBlock(cfg, n, b, rs, a, o, own, Start(logs, theirs, o));
    PrefixOfPrefix(Log(logs, o), Log(HandleAll(cfg, n, b, rs, a).0.logs, o), own);
  }

  lemma OwnNumbered(cfg: Config, s: Sys, o: nat)
    requires Inv(cfg, s)
    ensures Numbered(Own(s.nodes, o), o)
  {
    if o < |s.nodes| {
      assert NodeOk(s.nodes, o, s.nodes[o]);
    }
  }

  lemma {:induction false} PlainNotStuck(cfg: Config, n: Node, i: nat, rs: seq<Rumor>, src: nat)
    requires !cfg.tree && !n.stuck
    ensures !HandleAll(cfg, n, i, rs, src).0.stuck
  {
    if rs != [] {
      PlainNotStuck(cfg, n, i, rs[..|rs| - 1], src);
    }
  }

  lemma {:induction false} PlainRunNotStuck(cfg: Config, es: seq<Event>, i: nat)
    requires !cfg.tree && Legal(cfg, es) && i < cfg.total
    ensures |Run(cfg, es).nodes| == cfg.total && !Run(cfg, es).nodes[i].stuck
  {
    hide HandleAll;
    RunSize(cfg, es);
    if es != [] {
      var before, e := es[..|es| - 1], es[|es| - 1];
      PlainRunNotStuck(cfg, before, i);
      if e.i == i && e.Hear? && e.pkt.msg.Rumors? {
        PlainNotStuck(cfg, Run(cfg, before).nodes[i], i, e.pkt.msg.rs, e.pkt.src);
      }
    }
  }

  /** Without trees every answer closes the gap. */
  lemma {:induction false} GapClosesWithoutTrees(cfg: Config, es: seq<Event>, es': seq<Event>, a: nat, b: nat,
        theirs: map<nat, nat>, rs: seq<Rumor>)
    requires !cfg.tree && Legal(cfg, es') && es <= es' && Legal(cfg, es) && a < cfg.total && b < cfg.total
    requires |Run(cfg, es).nodes| == |Run(cfg, es').nodes| == cfg.total
    requires Reported(Run(cfg, es).net, b, a, theirs) && IsAnswer(rs, Run(cfg, es).nodes[a].logs, theirs)
    ensures Extends(Run(cfg, es).nodes[a].logs, HandleAll(cfg, Run(cfg, es').nodes[b], b, rs, a).0.logs)
  {
    hide Run, Legal, HandleAll, Extends;
    PlainRunNotStuck(cfg, es', b);
    PlainNotStuck(cfg, Run(cfg, es').nodes[b], b, rs, a);
    GapCloses(cfg, es, es', a, b, theirs, rs);
  }

  // ----- with trees, the handler gets through only if no gap is larger than one

  /** No two rumors of one origin. */
  ghost predicate Distinct(rs: seq<Rumor>) {
    forall o: nat {:trigger Of(rs, o)} :: |Of(rs, o)| <= 1
  }

  /** While the handler gets on, no rumor of the message is ahead of what the peer has by then. */
  ghost predicate NoneEarly(cfg: Config, n: Node, i: nat, rs: seq<Rumor>, src: nat) {
    forall k {:trigger rs[k]} :: 0 <= k < |rs| ==> NotEarly(cfg, n, i, rs, src, k)
  }

  ghost predicate NotEarly(cfg: Config, n: Node, i: nat, rs: seq<Rumor>, src: nat, k: nat)
    requires k < |rs|
  {
    var n' := HandleAll(cfg, n, i, rs[..k], src).0;
    !n'.stuck ==> rs[k].sequence <= |Log(n'.logs, rs[k].origin)| + 1
  }

  lemma NoneEarlyBefore(cfg: Config, n: Node, i: nat, rs: seq<Rumor>, src: nat)
    requires rs != [] && NoneEarly(cfg, n, i, rs, src)
    ensures NoneEarly(cfg, n, i, rs[..|rs| - 1], src)
  {
    var before := rs[..|rs| - 1];
    forall k | 0 <= k < |before|
      ensures NotEarly(cfg, n, i, before, src, k)
    {
      assert before[..k] == rs[..k] && before[k] == rs[k];
    }
  }

  lemma DistinctSnoc(rs: seq<Rumor>)
    requires rs != []
    ensures Distinct(rs) <==> Distinct(rs[..|rs| - 1]) && Of(rs[..|rs| - 1], rs[|rs| - 1].origin) == []
  {
    var before, r := rs[..|rs| - 1], rs[|rs| - 1];
    if Distinct(rs) {
      forall o: nat
        ensures |Of(before, o)| <= 1
      {
        assert |Of(rs, o)| <= 1;
      }
      assert |Of(rs, r.origin)| <= 1;
    }
    if Distinct(before) && Of(before, r.origin) == [] {
      forall o: nat
        ensures |Of(rs, o)| <= 1
      {
        assert |Of(before, o)| <= 1;
      }
    }
  }

  /** With trees, a handler gets through a message exactly when no two of its rumors are of one origin. */
  lemma {:induction false} HeldAre(cfg: Config, n: Node, i: nat, rs: seq<Rumor>, src: nat)
    requires cfg.tree && !n.stuck && n.held == {} && NoneEarly(cfg, n, i, rs, src)
    ensures var n' := HandleAll(cfg, n, i, rs, src).0;
            && (!n'.stuck <==> Distinct(rs))
            && (!n'.stuck ==> forall o: nat :: o in n'.held <==> Of(rs, o) != [])
  {
    hide Distinct, HandleOne;
    if rs == [] {
      NoneDistinct();
      return;
    }
    var before, r := rs[..|rs| - 1], rs[|rs| - 1];
    NoneEarlyBefore(cfg, n, i, rs, src);
    HeldAre(cfg, n, i, before, src);
    DistinctSnoc(rs);
    assert NotEarly(cfg, n, i, rs, src, |rs| - 1);
    OneHeld(cfg, HandleAll(cfg, n, i, before, src).0, i, r, src);
  }

  /** A rumor that is not early takes the lock of its origin, or waits for it. */
  lemma OneHeld(cfg: Config, n: Node, i: nat, r: Rumor, src: nat)
    requires cfg.tree && (!n.stuck ==> r.sequence <= |Log(n.logs, r.origin)| + 1)
    ensures var n' := HandleOne(cfg, n, i, r, src).0;
            && (n'.stuck <==> n.stuck || r.origin in n.held)
            && (!n'.stuck ==> n'.held == n.held + {r.origin})
  {
  }

  lemma NoneDistinct()
    ensures Distinct([])
  {
  }

  lemma {:induction false} OfPrefix(rs: seq<Rumor>, k: nat, o: nat)
    requires k <= |rs|
    ensures Of(rs[..k], o) <= Of(rs, o)
  {
    if k == |rs| {
      assert rs[..k] == rs;
    } else {
      var before := rs[..|rs| - 1];
      OfPrefix(before, k, o);
      assert before[..k] == rs[..k];
    }
  }

  /** In a message that holds one block of an origin, that origin's rumors are never early. */
  lemma {:induction false} BlockNotEarly(cfg: Config, n: Node, i: nat, rs: seq<Rumor>, src: nat, k: nat,
        log: seq<Rumor>, from: nat)
    requires k < |rs| && Numbered(log, rs[k].origin) && Block(Of(rs, rs[k].origin), log, from)
    requires Log(n.logs, rs[k].origin) <= log && from <= |Log(n.logs, rs[k].origin)|
    ensures NotEarly(cfg, n, i, rs, src, k)
  {
    var o := rs[k].origin;
    OfPrefix(rs, k, o);
    OfPrefix(rs, k + 1, o);
    assert rs[..k + 1][..k] == rs[..k] && rs[..k + 1][k] == rs[k];
    var part := Of(rs[..k], o);
    assert Of(rs[..k + 1], o) == part + [rs[k]];
    assert Of(rs, o)[|part|] == rs[k] && rs[k] == log[from + |part|];
    assert Block(part, log, from);
    if !HandleAll(cfg, n, i, rs[..k], src).0.stuck {
      HandlesBlock(cfg, n, i, rs[..k], src, o, log, from);
    }
  }

  /** With trees, peer b gets through the answer to its status exactly when peer a was at most one rumor ahead
      for every origin; otherwise b handles nothing more. */
  lemma {:induction false} AnswerCompletesIff(cfg: Config, es: seq<Event>, es': seq<Event>, a: nat, b: nat,
        theirs: map<nat, nat>, rs: seq<Rumor>)
    requires cfg.tree && Legal(cfg, es') && es <= es' && Legal(cfg, es) && a < cfg.total && b < cfg.total
    requires |Run(cfg, es).nodes| == |Run(cfg, es').nodes| == cfg.total
    requires Reported(Run(cfg, es).net, b, a, theirs) && IsAnswer(rs, Run(cfg, es).nodes[a].logs, theirs)
    requires !Run(cfg, es').nodes[b].stuck
    ensures !HandleAll(cfg, Run(cfg, es').nodes[b], b, rs, a).0.stuck
            <==> forall o: nat :: |Log(Run(cfg, es).nodes[a].logs, o)| <= Seen(theirs, o) + 1
  {
    hide Legal, Run, HandleAll, Extends, NodeOk, PacketOk, Newer;
    var s, s' := Run(cfg, es), Run(cfg, es');
    var logs, n := s.nodes[a].logs, s'.nodes[b];
    RunKeeps(cfg, es);
    RunKeeps(cfg, es');
    RunExtends(cfg, es, es', a);
    RunExtends(cfg, es, es', b);
    forall k | 0 <= k < |rs|
      ensures NotEarly(cfg, n, b, rs, a, k)
    {
      var o := rs[k].origin;
      assert Of(rs, o) == Newer(logs, theirs, o);
      BeforeAnswer(cfg, s, s', a, b, theirs, o);
      OwnNumbered(cfg, s', o);
      NewerIsBlock(logs, theirs, o, Own(s'.nodes, o));
      BlockNotEarly(cfg, n, b, rs, a, k, Own(s'.nodes, o), Start(logs, theirs, o));
    }
    HeldAre(cfg, n, b, rs, a);
    AnswerDistinct(rs, logs, theirs);
  }

  lemma AnswerDistinct(rs: seq<Rumor>, logs: Logs, theirs: map<nat, nat>)
    requires IsAnswer(rs, logs, theirs)
    ensures Distinct(rs) <==> forall o: nat :: |Log(logs, o)| <= Seen(theirs, o) + 1
  {
    assert forall o: nat :: Of(rs, o) == Newer(logs, theirs, o);
    if forall o: nat :: |Log(logs, o)| <= Seen(theirs, o) + 1 {
      assert forall o: nat :: |Of(rs, o)| <= 1;
    }
    if Distinct(rs) {
      forall o: nat
        ensures |Log(logs, o)| <= Seen(theirs, o) + 1
      {
        assert |Of(rs, o)| <= 1;
      }
    }
  }

  /** The next rumor of an origin whose tree the handler has locked is taken, and then it waits for ever. */
  lemma SecondSticks(cfg: Config, n: Node, i: nat, r: Rumor, src: nat)
    requires cfg.tree && !n.stuck && r.origin in n.held && r.sequence == |Log(n.logs, r.origin)| + 1
    ensures var n' := HandleOne(cfg, n, i, r, src).0;
            n'.stuck && Log(n'.logs, r.origin) == Log(n.logs, r.origin) + [r]
  {
  }

  lemma FirstTaken(cfg: Config, i: nat, r: Rumor, src: nat)
    requires cfg.tree && r.sequence == 1
    ensures var n' := HandleOne(cfg, NEW_NODE, i, r, src).0;
            !n'.stuck && r.origin in n'.held && Log(n'.logs, r.origin) == [r]
  {
  }

  lemma HandleSnoc(cfg: Config, n: Node, i: nat, rs: seq<Rumor>, r: Rumor, src: nat)
    ensures HandleAll(cfg, n, i, rs + [r], src).0 == HandleOne(cfg, HandleAll(cfg, n, i, rs, src).0, i, r, src).0
  {
    assert (rs + [r])[..|rs|] == rs;
  }

  /** Of a log of two rumors or more a new peer takes two and waits. */
  lemma {:induction false} TwoTaken(cfg: Config, rs: seq<Rumor>)
    requires cfg.tree && Numbered(rs, 0) && |rs| >= 2
    ensures var n := HandleAll(cfg, NEW_NODE, 1, rs, 0).0; n.stuck && Log(n.logs, 0) == rs[..2]
  {
    hide HandleAll, HandleOne;
    var before, r := rs[..|rs| - 1], rs[|rs| - 1];
    assert rs == before + [r];
    HandleSnoc(cfg, NEW_NODE, 1, before, r, 0);
    if |rs| > 2 {
      TwoTaken(cfg, before);
      StuckIgnores(cfg, HandleAll(cfg, NEW_NODE, 1, before, 0).0, 1, r, 0);
    } else {
      HandleSnoc(cfg, NEW_NODE, 1, [], rs[0], 0);
      assert [] + [rs[0]] == [rs[0]] == before;
      NoneHandled(cfg, NEW_NODE, 1, 0);
      FirstTaken(cfg, 1, rs[0], 0);
      SecondSticks(cfg, HandleAll(cfg, NEW_NODE, 1, before, 0).0, 1, r, 0);
    }
  }

  lemma After(cfg: Config, es: seq<Event>, e: Event)
    requires Legal(cfg, es) && Enabled(cfg, Run(cfg, es), e)
    ensures Legal(cfg, es + [e]) && Run(cfg, es + [e]) == Step(cfg, Run(cfg, es), e)
  {
    hide Step, Enabled;
    assert (es + [e])[..|es|] == es;
  }

  /** Peer 0 alone broadcast k rumors. */
  ghost predicate Ahead(cfg: Config, s: Sys, k: nat) {
    && |s.nodes| == cfg.total >= 2 && s.nodes[1] == NEW_NODE && !s.nodes[0].stuck && s.nodes[0].held == {}
    && s.nodes[0].logs.Keys <= {0} && |Log(s.nodes[0].logs, 0)| == k && Numbered(Log(s.nodes[0].logs, 0), 0)
  }

  lemma BroadcastAhead(cfg: Config, s: Sys, k: nat)
    requires Ahead(cfg, s, k)
    ensures Enabled(cfg, s, Event.Broadcast(0, "", None))
    ensures Ahead(cfg, Step(cfg, s, Event.Broadcast(0, "", None)), k + 1)
  {
    hide Publish;
  }

  lemma {:induction false} GetAhead(cfg: Config, k: nat) returns (es: seq<Event>)
    requires cfg.total >= 2
    ensures Legal(cfg, es) && Ahead(cfg, Run(cfg, es), k)
  {
    hide Ahead, Step, Enabled;
    if k == 0 {
      es := [];
      assert Ahead(cfg, Init(cfg), 0) by {
        NoneAhead(cfg);
      }
    } else {
      es := GetAhead(cfg, k - 1);
      BroadcastAhead(cfg, Run(cfg, es), k - 1);
      After(cfg, es, Event.Broadcast(0, "", None));
      es := es + [Event.Broadcast(0, "", None)];
    }
  }

  lemma NoneAhead(cfg: Config)
    requires cfg.total >= 2
    ensures Ahead(cfg, Init(cfg), 0)
  {
  }

  lemma {:induction false} AnswersNew(logs: Logs)
    requires logs.Keys <= {0} && Numbered(Log(logs, 0), 0)
    ensures IsAnswer(Log(logs, 0), logs, map[])
  {
    hide Of;
    var rs := Log(logs, 0);
    forall o: nat
      ensures Of(rs, o) == Newer(logs, map[], o)
    {
      NoneOf(o);
      OfJoin([], rs, 0, o);
      assert [] + rs == rs;
    }
  }

  /** Peer 1 asks. */
  lemma Asks(cfg: Config, s: Sys, k: nat)
    requires Ahead(cfg, s, k)
    ensures Enabled(cfg, s, Event.AntiEntropy(1, 0))
    ensures var s' := Step(cfg, s, Event.AntiEntropy(1, 0)); Ahead(cfg, s', k) && Packet(1, 0, Ask(map[])) in s'.net
  {
    assert Status(NEW_NODE.logs) == map[];
  }

  /** Peer 0 answers with its whole log. */
  lemma Replies(cfg: Config, s: Sys, k: nat)
    requires Ahead(cfg, s, k) && k > 0 && Packet(1, 0, Ask(map[])) in s.net
    ensures var rs := Log(s.nodes[0].logs, 0);
            var e := Hear(0, Packet(1, 0, Ask(map[])), rs, None);
            && Enabled(cfg, s, e)
            && var s' := Step(cfg, s, e);
               Ahead(cfg, s', k) && Log(s'.nodes[0].logs, 0) == rs && Packet(0, 1, Rumors(rs)) in s'.net
  {
    AnswersNew(s.nodes[0].logs);
  }

  /** Peer 1 hears the answer. */
  lemma GetsStuck(cfg: Config, s: Sys, k: nat)
    requires cfg.tree && Ahead(cfg, s, k) && k >= 2 && Packet(0, 1, Rumors(Log(s.nodes[0].logs, 0))) in s.net
    ensures var rs := Log(s.nodes[0].logs, 0);
            var e := Hear(1, Packet(0, 1, Rumors(rs)), [], None);
            && Enabled(cfg, s, e)
            && var s' := Step(cfg, s, e);
               s'.nodes[1].stuck && Log(s'.nodes[1].logs, 0) == rs[..2] && s'.nodes[0] == s.nodes[0]
  {
    hide HandleAll;
    TwoTaken(cfg, Log(s.nodes[0].logs, 0));
  }

  /** With trees, a run in which a new peer asks another that is two rumors ahead or more: it takes two of them
      and handles nothing ever after, so the gap of three or more does not close. */
  lemma {:induction false} BehindIsStuck(cfg: Config, k: nat) returns (es: seq<Event>)
    requires cfg.tree && cfg.total >= 2 && k >= 2
    ensures Legal(cfg, es) && |Run(cfg, es).nodes| == cfg.total && Run(cfg, es).nodes[1].stuck
    ensures var log := Log(Run(cfg, es).nodes[0].logs, 0);
            |log| == k && Log(Run(cfg, es).nodes[1].logs, 0) == log[..2]
  {
    hide Legal, Run, Step, Enabled;
    es := GetAhead(cfg, k);
    Asks(cfg, Run(cfg, es), k);
    After(cfg, es, Event.AntiEntropy(1, 0));
    es := es + [Event.AntiEntropy(1, 0)];
    var s := Run(cfg, es);
    var rs := Log(s.nodes[0].logs, 0);
    Replies(cfg, s, k);
    After(cfg, es, Hear(0, Packet(1, 0, Ask(map[])), rs, None));
    es := es + [Hear(0, Packet(1, 0, Ask(map[])), rs, None)];
    GetsStuck(cfg, Run(cfg, es), k);
    After(cfg, es, Hear(1, Packet(0, 1, Rumors(rs)), [], None));
    es := es + [Hear(1, Packet(0, 1, Rumors(rs)), [], None)];
    RunSize(cfg, es);
  }

  lemma NoneOf(o: nat)
    ensures Of([], o) == []
  {
  }

  lemma NoneHandled(cfg: Config, n: Node, i: nat, src: nat)
    ensures HandleAll(cfg, n, i, [], src).0 == n
  {
  }

  lemma StuckIgnores(cfg: Config, n: Node, i: nat, r: Rumor, src: nat)
    requires n.stuck
    ensures HandleOne(cfg, n, i, r, src).0 == n
  {
  }
}
