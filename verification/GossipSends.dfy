/** What the gossip handlers send: which packets leave a peer, stated by their members. */
module GossipSends {
  import opened Common
  import opened RumorTable
  import opened PlumTree
  import opened Gossip

  /** These peers and no others are sent a message. */
  ghost predicate SentTo(out: set<Packet>, i: nat, m: Msg, peers: set<nat>) {
    && (forall p :: p in peers ==> Packet(i, p, m) in out)
    && (forall pkt :: pkt in out ==> pkt.src == i && pkt.msg == m && pkt.dest in peers)
  }

  /** With trees, a rumor that is not too early and finds its tree unlocked goes to all peers that were eager, but the
      one it came from, if it was not received before; if it was, its sender gets a prune and nobody anything else. */
  lemma {:induction false} RumorLeaves(cfg: Config, n: Node, i: nat, r: Rumor, src: nat)
    requires cfg.tree && !n.stuck && r.origin !in n.held && r.sequence <= |Log(n.logs, r.origin)| + 1
    ensures var (n', out) := HandleOne(cfg, n, i, r, src);
            var t, t' := TreeOf(n, r.origin), TreeOf(n', r.origin);
            && StatusOf(t', r.sequence).received && r.origin in n'.held && !n'.stuck
            && if StatusOf(t, r.sequence).received then
                 && SentTo(out, i, Msg.Prune(r.origin, r.sequence), {src}) && n'.pending == n.pending
                 && (src !in t.eagers ==> src in t'.lazys)
               else
                 && SentTo(out, i, Rumors([r]), t.eagers - {src})
                 && n'.pending == n.pending + {(r.origin, r.sequence)} && (src !in t.lazys ==> src in t'.eagers)
  {
  }

  /** In the other cases nothing leaves: too early, without trees, or while its tree is locked, which stops the peer. */
  lemma RumorStays(cfg: Config, n: Node, i: nat, r: Rumor, src: nat)
    requires !cfg.tree || n.stuck || r.origin in n.held || r.sequence > |Log(n.logs, r.origin)| + 1
    ensures HandleOne(cfg, n, i, r, src).1 == {}
    ensures HandleOne(cfg, n, i, r, src).0.trees == n.trees
    ensures HandleOne(cfg, n, i, r, src).0.stuck <==>
              n.stuck || (cfg.tree && r.origin in n.held && r.sequence <= |Log(n.logs, r.origin)| + 1)
  {
  }

  /** What leaves for one rumor of a message, leaves for the message. */
  lemma {:induction false} MessageLeaves(cfg: Config, n: Node, i: nat, rs: seq<Rumor>, src: nat, k: nat)
    requires k < |rs|
    ensures var before := HandleAll(cfg, n, i, rs[..k], src).0;
            HandleOne(cfg, before, i, rs[k], src).1 <= HandleAll(cfg, n, i, rs, src).1
  {
    hide HandleOne;
    if k < |rs| - 1 {
      var shorter := rs[..|rs| - 1];
      MessageLeaves(cfg, n, i, shorter, src, k);
      assert shorter[..k] == rs[..k];
    }
  }

  /** What a broadcast appends and to whom it goes. */
  lemma {:induction false} BroadcastLeaves(cfg: Config, n: Node, i: nat, msg: string, to: Option<nat>)
    ensures var (n', out) := OnBroadcast(cfg, n, i, msg, to);
            var log := Log(n.logs, i);
            var r := Rumor(i, |log| + 1, Some(msg));
            && Log(n'.logs, i) == log + [r]
            && if !cfg.tree then SentTo(out, i, Rumors([r]), if to.Some? then {to.value} else {})
               else if i in n.held then out == {}
               else
                 && SentTo(out, i, Rumors([r]), TreeOf(n, i).eagers - {i})
                 && (i, |log| + 1) in n'.pending && StatusOf(TreeOf(n', i), |log| + 1).received
  {
  }

  /** A status gives the length of every log. */
  ghost predicate Names(status: map<nat, nat>, logs: Logs) {
    forall o: nat :: Seen(status, o) == |Log(logs, o)|
  }

  /** After a message that holds something new its sender gets an acknowledgment with the length of every log, and
      without trees the chosen neighbor gets the message; a message without anything new is not answered. */
  lemma {:induction false} MessageAnswered(cfg: Config, n: Node, i: nat, rs: seq<Rumor>, src: nat, to: Option<nat>)
    requires !HandleAll(cfg, n, i, rs, src).0.stuck
    ensures var (n', out) := OnRumors(cfg, n, i, rs, src, to);
            var rest := HandleAll(cfg, n, i, rs, src).1;
            var isNew := |n'.processed| > |n.processed|;
            && n'.held == {} && rest <= out
            && (forall pkt :: pkt in out - rest && pkt.msg.Ack? ==>
                  isNew && src != i && pkt.src == i && pkt.dest == src)
            && (isNew && src != i ==>
                  exists status :: Packet(i, src, Ack(status)) in out && Names(status, n'.logs))
            && (isNew && !cfg.tree && to.Some? ==> Packet(i, to.value, Rumors(rs)) in out)
            && (forall pkt :: pkt in out - rest && pkt.msg.Rumors? ==>
                  isNew && !cfg.tree && to == Some(pkt.dest) && pkt.msg == Rumors(rs) && pkt.src == i)
  {
    hide HandleAll;
    var (n', out) := OnRumors(cfg, n, i, rs, src, to);
    var status := Status(n'.logs);
    assert Names(status, n'.logs);
    if |n'.processed| > |n.processed| && src != i {
      assert Packet(i, src, Ack(status)) in out;
    }
  }

  /** An announcement goes to every lazy peer. */
  lemma AnnounceLeaves(cfg: Config, s: Sys, i: nat, o: nat, q: nat)
    requires Enabled(cfg, s, Announce(i, o, q))
    ensures var (n', out) := Act(cfg, s, Announce(i, o, q));
            && SentTo(out, i, IHave(o, q), TreeOf(s.nodes[i], o).lazys)
            && n' == s.nodes[i].(pending := s.nodes[i].pending - {(o, q)})
  {
  }

  /** A turn of the graft loop asks one of the peers that announced the rumor, and that peer becomes eager. */
  lemma {:induction false} TickLeaves(cfg: Config, s: Sys, i: nat, o: nat, q: nat)
    requires Inv(cfg, s) && Enabled(cfg, s, Event.GraftTick(i, o, q))
    ensures var (n', out) := Act(cfg, s, Event.GraftTick(i, o, q));
            exists p :: p in StatusOf(TreeOf(s.nodes[i], o), q).lazyPeers && p in TreeOf(n', o).eagers
                        && SentTo(out, i, Msg.Graft(o, q), {p})
  {
    var t := TreeOf(s.nodes[i], o);
    InvTree(cfg, s, i, o);
    TickKeeps(t, q);
    var (t', p) := Tick(t, q);
    assert SentTo(Act(cfg, s, Event.GraftTick(i, o, q)).1, i, Msg.Graft(o, q), {p});
  }

  /** In every run a graft is answered with just the rumor asked for: number q of origin o. */
  lemma {:induction false} GraftAnswered(cfg: Config, es: seq<Event>, i: nat, pkt: Packet, answer: seq<Rumor>,
        to: Option<nat>)
    requires Legal(cfg, es) && es != [] && es[|es| - 1] == Hear(i, pkt, answer, to) && pkt.msg.Graft?
    ensures |Run(cfg, es).nodes| == cfg.total && i < cfg.total
    ensures var s := Run(cfg, es);
            && (exists r: Rumor :: r.origin == pkt.msg.origin && r.sequence == pkt.msg.q && Genuine(s.nodes, r)
                                   && Packet(i, pkt.src, Rumors([r])) in s.net)
            && pkt.src in TreeOf(s.nodes[i], pkt.msg.origin).eagers
  {
    var before := es[..|es| - 1];
    var s, s' := Run(cfg, before), Run(cfg, es);
    var o, q := pkt.msg.origin, pkt.msg.q;
    RunKeeps(cfg, before);
    RunKeeps(cfg, es);
    assert PacketOk(s.nodes, pkt);
    assert Holds(s.nodes, i, o, q);
    var r := Log(s.nodes[i].logs, o)[q - 1];
    LogIsOwn(cfg, s, i, o, q);
    assert Packet(i, pkt.src, Rumors([r])) in s'.net;
    assert PacketOk(s'.nodes, Packet(i, pkt.src, Rumors([r])));
    assert Genuine(s'.nodes, [r][0]);
  }

  /** Number q of a log is what its origin has under that number. */
  lemma {:induction false} LogIsOwn(cfg: Config, s: Sys, i: nat, o: nat, q: nat)
    requires Inv(cfg, s) && i < cfg.total && 1 <= q <= |Log(s.nodes[i].logs, o)|
    ensures Log(s.nodes[i].logs, o)[q - 1].origin == o && Log(s.nodes[i].logs, o)[q - 1].sequence == q
  {
    hide TreeOk;
    assert NodeOk(s.nodes, i, s.nodes[i]) && LogOk(s.nodes, i, s.nodes[i], o);
    assert o < cfg.total;
    assert NodeOk(s.nodes, o, s.nodes[o]);
  }

  /** A peer whose own tree is untouched broadcasts to all its neighbors. */
  lemma FirstBroadcast(cfg: Config, n: Node, i: nat, msg: string, to: Option<nat>)
    requires cfg.tree && i !in n.trees && i !in n.held
    ensures SentTo(OnBroadcast(cfg, n, i, msg, to).1, i, Rumors([Rumor(i, |Log(n.logs, i)| + 1, Some(msg))]),
                   n.neighbors - {i})
  {
    BroadcastLeaves(cfg, n, i, msg, to);
  }

  /** A status asked with, or without trees acknowledged with, is answered with the rumors it lacks, if any; if it
      names rumors that this peer lacks, its sender is asked with this peer's own; and if there is neither, the chosen
      neighbor is. Nothing else is sent, and nothing changes. */
  lemma {:induction false} StatusAnswered(cfg: Config, n: Node, i: nat, pkt: Packet, answer: seq<Rumor>,
        to: Option<nat>)
    requires pkt.msg.Ask? || (pkt.msg.Ack? && !cfg.tree)
    ensures var (n', out) := DoHear(cfg, n, i, pkt, answer, to);
            var theirs := pkt.msg.status;
            var lacks := exists o :: o in theirs && theirs[o] > |Log(n.logs, o)|;
            && n' == n
            && (Packet(i, pkt.src, Rumors(answer)) in out <==> answer != [])
            && (lacks ==> exists mine :: Names(mine, n.logs) && Packet(i, pkt.src, Ask(mine)) in out)
            && (answer == [] && !lacks && to.Some? ==>
                  exists mine :: Names(mine, n.logs) && Packet(i, to.value, Ask(mine)) in out)
            && forall p :: p in out ==>
                 && p.src == i && (p.msg == Rumors(answer) || (p.msg.Ask? && Names(p.msg.status, n.logs)))
                 && (p.msg.Ask? ==> (lacks && p.dest == pkt.src) || (!lacks && answer == [] && to == Some(p.dest)))
  {
    var out := DoHear(cfg, n, i, pkt, answer, to).1;
    var mine := Status(n.logs);
    assert Names(mine, n.logs);
    if RemoteIsAhead(n.logs, pkt.msg.status) {
      assert Packet(i, pkt.src, Ask(mine)) in out;
    } else if answer == [] && to.Some? {
      assert Packet(i, to.value, Ask(mine)) in out;
    }
  }

  /** A prune or a graft changes on which side of the named tree its sender is, an announcement adds its sender to those
      to ask for the rumor, unless that has come; no other tree changes, and with trees an acknowledgment is ignored. */
  lemma {:induction false} TreeMessages(cfg: Config, n: Node, i: nat, pkt: Packet, answer: seq<Rumor>, to: Option<nat>)
    ensures var (n', out) := DoHear(cfg, n, i, pkt, answer, to);
            match pkt.msg
            case Prune(o, _) =>
              && out == {} && pkt.src in TreeOf(n', o).lazys && pkt.src !in TreeOf(n', o).eagers
              && forall x :: x != o ==> TreeOf(n', x) == TreeOf(n, x)
            case Graft(o, _) =>
              && pkt.src in TreeOf(n', o).eagers && pkt.src !in TreeOf(n', o).lazys
              && forall x :: x != o ==> TreeOf(n', x) == TreeOf(n, x)
            case IHave(o, q) =>
              && out == {} && (forall x :: x != o ==> TreeOf(n', x) == TreeOf(n, x))
              && var st, st' := StatusOf(TreeOf(n, o), q), StatusOf(TreeOf(n', o), q);
                 if st.received then st' == st
                 else st'.lazyPeers == st.lazyPeers + [pkt.src] && st'.graft && (!st.graft ==> st'.grafting)
            case Ack(_) => cfg.tree ==> n' == n && out == {}
            case _ => true
  {
    hide OnRumors, OnStatus;
  }

  // ----- a graft that ended is over

  /** The rumor has come and nobody asks for it. */
  ghost predicate Over(t: Tree, q: nat) {
    StatusOf(t, q).received && !StatusOf(t, q).grafting
  }

  lemma {:induction false} GraftEndsIt(cfg: Config, s: Sys, i: nat, o: nat, q: nat)
    requires Inv(cfg, s) && Enabled(cfg, s, Event.GraftEnd(i, o, q))
    ensures Over(TreeOf(Act(cfg, s, Event.GraftEnd(i, o, q)).0, o), q)
  {
    InvTree(cfg, s, i, o);
    var t := TreeOf(s.nodes[i], o);
    FinishKeeps(t, q);
    assert Coherent(StatusOf(t, q), Pushes(t, q));
  }

  lemma {:induction false} OneOver(cfg: Config, n: Node, i: nat, r: Rumor, src: nat, o: nat, q: nat)
    requires Over(TreeOf(n, o), q)
    ensures Over(TreeOf(HandleOne(cfg, n, i, r, src).0, o), q)
  {
  }

  lemma {:induction false} AllOver(cfg: Config, n: Node, i: nat, rs: seq<Rumor>, src: nat, o: nat, q: nat)
    requires Over(TreeOf(n, o), q)
    ensures Over(TreeOf(HandleAll(cfg, n, i, rs, src).0, o), q)
  {
    hide HandleOne, Over, TreeOf;
    if rs != [] {
      AllOver(cfg, n, i, rs[..|rs| - 1], src, o, q);
      OneOver(cfg, HandleAll(cfg, n, i, rs[..|rs| - 1], src).0, i, rs[|rs| - 1], src, o, q);
    }
  }

  lemma {:induction false} RumorsOver(cfg: Config, n: Node, i: nat, rs: seq<Rumor>, src: nat, to: Option<nat>, o: nat,
        q: nat)
    requires Over(TreeOf(n, o), q)
    ensures Over(TreeOf(OnRumors(cfg, n, i, rs, src, to).0, o), q)
  {
    hide HandleAll;
    AllOver(cfg, n, i, rs, src, o, q);
  }

  lemma {:induction false} ActOver(cfg: Config, s: Sys, e: Event, o: nat, q: nat)
    requires Enabled(cfg, s, e) && Over(TreeOf(s.nodes[e.i], o), q) && !(e.Hear? && e.pkt.msg.Rumors?)
    ensures Over(TreeOf(Act(cfg, s, e).0, o), q)
  {
    hide HandleAll;
  }

  lemma {:induction false} StepOver(cfg: Config, s: Sys, e: Event, i: nat, o: nat, q: nat)
    requires Enabled(cfg, s, e) && i < |s.nodes| && Over(TreeOf(s.nodes[i], o), q)
    ensures i < |Step(cfg, s, e).nodes| && Over(TreeOf(Step(cfg, s, e).nodes[i], o), q)
  {
    hide Over, TreeOf, OnRumors, OnBroadcast;
    if e.i == i {
      if e.Hear? && e.pkt.msg.Rumors? {
        RumorsOver(cfg, s.nodes[i], i, e.pkt.msg.rs, e.pkt.src, e.to, o, q);
      } else {
        ActOver(cfg, s, e, o, q);
      }
    }
  }

  /** Once a rumor has come and its graft loop has ended, the loop does not run again, however the run goes on. */
  lemma {:induction false} GraftStaysOver(cfg: Config, es: seq<Event>, k: nat, i: nat, o: nat, q: nat)
    requires Legal(cfg, es) && k <= |es| && Legal(cfg, es[..k]) && i < |Run(cfg, es[..k]).nodes|
    requires Over(TreeOf(Run(cfg, es[..k]).nodes[i], o), q)
    ensures i < |Run(cfg, es).nodes| && Over(TreeOf(Run(cfg, es).nodes[i], o), q)
    decreases |es|
  {
    hide Over, TreeOf, Step, Enabled;
    if k == |es| {
      assert es[..k] == es;
    } else {
      var before := es[..|es| - 1];
      assert before[..k] == es[..k];
      GraftStaysOver(cfg, before, k, i, o, q);
      StepOver(cfg, Run(cfg, before), es[|es| - 1], i, o, q);
    }
  }

  // ----- what is pushed once was really sent

  /** Where a pushed rumor came from: this peer itself, or a message. */
  ghost predicate CameFrom(e: Event, r: Rumor, src: nat) {
    match e
    case Broadcast(i, _, _) => r.origin == i == src
    case Hear(_, pkt, _, _) => pkt.msg.Rumors? && r in pkt.msg.rs && pkt.src == src
    case _ => false
  }

  /** Everybody that is eager in a tree, but for the source, is sent the rumor. */
  ghost predicate AllGet(net: set<Packet>, i: nat, t: Tree, r: Rumor, src: nat) {
    forall p :: p in t.eagers && p != src ==> Packet(i, p, Rumors([r])) in net
  }

  ghost predicate PushedBy(e: Event, net: set<Packet>, i: nat, t: Tree, o: nat, q: nat) {
    exists r: Rumor, src: nat :: r.origin == o && r.sequence == q && CameFrom(e, r, src) && AllGet(net, i, t, r, src)
  }

  lemma {:induction false} OnePushes(cfg: Config, n: Node, i: nat, r: Rumor, src: nat, o: nat, q: nat)
    ensures var (n', out) := HandleOne(cfg, n, i, r, src);
            var t, t' := TreeOf(n, o), TreeOf(n', o);
            && n.held <= n'.held && (o in n.held || o !in n'.held ==> t' == t)
            && (Pushes(t', q) > Pushes(t, q) ==> r.origin == o && r.sequence == q && AllGet(out, i, t, r, src))
  {
  }

  lemma {:induction false} AllPush(cfg: Config, n: Node, i: nat, rs: seq<Rumor>, src: nat, o: nat, q: nat)
    requires n.held == {}
    ensures var (n', out) := HandleAll(cfg, n, i, rs, src);
            var t, t' := TreeOf(n, o), TreeOf(n', o);
            && (o !in n'.held ==> t' == t)
            && (Pushes(t', q) > Pushes(t, q) ==>
                  exists r: Rumor :: r in rs && r.origin == o && r.sequence == q && AllGet(out, i, t, r, src))
  {
    hide HandleOne, TreeOf, Pushes;
    if rs != [] {
      var before, last := rs[..|rs| - 1], rs[|rs| - 1];
      AllPush(cfg, n, i, before, src, o, q);
      var (n1, out1) := HandleAll(cfg, n, i, before, src);
      OnePushes(cfg, n1, i, last, src, o, q);
      var (n', out) := HandleAll(cfg, n, i, rs, src);
      if Pushes(TreeOf(n', o), q) > Pushes(TreeOf(n, o), q) {
        if Pushes(TreeOf(n1, o), q) > Pushes(TreeOf(n, o), q) {
          var r: Rumor :| r in before && r.origin == o && r.sequence == q && AllGet(out1, i, TreeOf(n, o), r, src);
          assert r in rs && AllGet(out, i, TreeOf(n, o), r, src);
        } else {
          assert last in rs && AllGet(out, i, TreeOf(n, o), last, src);
        }
      }
    }
  }

  lemma {:induction false} RumorsPush(cfg: Config, n: Node, i: nat, pkt: Packet, answer: seq<Rumor>, to: Option<nat>,
        net: set<Packet>, o: nat, q: nat)
    requires pkt.msg.Rumors? && n.held == {} && OnRumors(cfg, n, i, pkt.msg.rs, pkt.src, to).1 <= net
    requires Pushes(TreeOf(OnRumors(cfg, n, i, pkt.msg.rs, pkt.src, to).0, o), q) > Pushes(TreeOf(n, o), q)
    ensures PushedBy(Hear(i, pkt, answer, to), net, i, TreeOf(n, o), o, q)
  {
    hide HandleAll;
    AllPush(cfg, n, i, pkt.msg.rs, pkt.src, o, q);
    var (n1, out) := HandleAll(cfg, n, i, pkt.msg.rs, pkt.src);
    var r: Rumor :| r in pkt.msg.rs && r.origin == o && r.sequence == q && AllGet(out, i, TreeOf(n, o), r, pkt.src);
    assert AllGet(net, i, TreeOf(n, o), r, pkt.src);
  }

  lemma {:induction false} BroadcastPushes(cfg: Config, n: Node, i: nat, msg: string, to: Option<nat>,
        net: set<Packet>, o: nat, q: nat)
    requires OnBroadcast(cfg, n, i, msg, to).1 <= net
    requires Pushes(TreeOf(OnBroadcast(cfg, n, i, msg, to).0, o), q) > Pushes(TreeOf(n, o), q)
    ensures PushedBy(Event.Broadcast(i, msg, to), net, i, TreeOf(n, o), o, q)
  {
    var r := NextRumor(n.logs, i, msg);
    assert AllGet(net, i, TreeOf(n, o), r, i);
  }

  /** No other event pushes. */
  lemma {:induction false} OthersPushNothing(cfg: Config, s: Sys, e: Event, o: nat, q: nat)
    requires Enabled(cfg, s, e) && !e.Broadcast? && (e.Hear? ==> !e.pkt.msg.Rumors?)
    ensures Pushes(TreeOf(Act(cfg, s, e).0, o), q) == Pushes(TreeOf(s.nodes[e.i], o), q)
  {
  }

  lemma {:induction false} StepPushes(cfg: Config, s: Sys, e: Event, i: nat, o: nat, q: nat)
    requires Inv(cfg, s) && Enabled(cfg, s, e) && i < cfg.total
    requires Pushes(TreeOf(Step(cfg, s, e).nodes[i], o), q) > Pushes(TreeOf(s.nodes[i], o), q)
    ensures e.i == i && PushedBy(e, Step(cfg, s, e).net, i, TreeOf(s.nodes[i], o), o, q)
  {
    hide Pushes, TreeOf, NodeOk, PacketOk, OnRumors, OnBroadcast, PushedBy;
    var n, net := s.nodes[i], Step(cfg, s, e).net;
    if e.Broadcast? {
      BroadcastPushes(cfg, n, i, e.msg, e.to, net, o, q);
    } else if e.Hear? && e.pkt.msg.Rumors? {
      RumorsPush(cfg, n, i, e.pkt, e.answer, e.to, net, o, q);
    } else {
      OthersPushNothing(cfg, s, e, o, q);
    }
  }

  lemma PushedGrows(e: Event, net: set<Packet>, net': set<Packet>, i: nat, t: Tree, o: nat, q: nat)
    requires PushedBy(e, net, i, t, o, q) && net <= net'
    ensures PushedBy(e, net', i, t, o, q)
  {
    var r: Rumor, src: nat :| r.origin == o && r.sequence == q && CameFrom(e, r, src) && AllGet(net, i, t, r, src);
    assert AllGet(net', i, t, r, src);
  }

  lemma NothingPushed(cfg: Config, i: nat, o: nat, q: nat)
    requires i < cfg.total
    ensures Pushes(TreeOf(Init(cfg).nodes[i], o), q) == 0
  {
  }

  /** In every run, a rumor that a peer's tree counts as pushed was really sent: some event of the run brought it from a
      message or a broadcast, and everybody that was eager in the tree just before, but for its source, has a packet
      with it in the network. */
  lemma {:induction false} PushedIsSent(cfg: Config, es: seq<Event>, i: nat, o: nat, q: nat) returns (k: nat)
    requires Legal(cfg, es) && i < cfg.total && |Run(cfg, es).nodes| == cfg.total
    requires Pushes(TreeOf(Run(cfg, es).nodes[i], o), q) > 0
    ensures k < |es| && Legal(cfg, es[..k]) && |Run(cfg, es[..k]).nodes| == cfg.total && es[k].i == i
    ensures PushedBy(es[k], Run(cfg, es).net, i, TreeOf(Run(cfg, es[..k]).nodes[i], o), o, q)
  {
    hide Pushes, TreeOf, Inv, Act, Enabled, PushedBy, Init;
    if es == [] {
      NothingPushed(cfg, i, o, q);
      assert false;
    }
    var before, e := es[..|es| - 1], es[|es| - 1];
    RunKeeps(cfg, before);
    var s, s' := Run(cfg, before), Run(cfg, es);
    assert |s.nodes| == cfg.total by {
      InvSize(cfg, s);
    }
    if Pushes(TreeOf(s.nodes[i], o), q) > 0 {
      k := PushedIsSent(cfg, before, i, o, q);
      assert before[..k] == es[..k] && before[k] == es[k];
      PushedGrows(es[k], s.net, s'.net, i, TreeOf(Run(cfg, es[..k]).nodes[i], o), o, q);
    } else {
      k := |es| - 1;
      StepPushes(cfg, s, e, i, o, q);
    }
  }

  lemma InvSize(cfg: Config, s: Sys)
    requires Inv(cfg, s)
    ensures |s.nodes| == cfg.total
  {
  }
}
