/** Every run of peers that gossip rumors, plainly or along broadcast trees, over a network that may lose,
    repeat and reorder packets. */
module Gossip {
  import opened Common
  import opened RumorTable
  import opened PlumTree

  datatype Msg =
    | Rumors(rs: seq<Rumor>)
    | Ask(status: map<nat, nat>)
    | Ack(status: map<nat, nat>)
    | IHave(origin: nat, q: nat)
    | Graft(origin: nat, q: nat)
    | Prune(origin: nat, q: nat)

  datatype Packet = Packet(src: nat, dest: nat, msg: Msg)

  /** A peer. `processed` is history: the rumors it handed to their handlers. `held` are the tree locks that
      the message being handled has taken; a handler that waits for one of them never returns. `pending` are
      the announcements to send. */
  datatype Node = Node(
    logs: Logs,
    processed: seq<Rumor>,
    trees: map<nat, Tree>,
    neighbors: set<nat>,
    held: set<nat>,
    stuck: bool,
    pending: set<(nat, nat)>)

  /** How many peers, and whether they use the broadcast trees. */
  datatype Config = Config(total: nat, tree: bool)

  datatype Sys = Sys(nodes: seq<Node>, net: set<Packet>)

  const NEW_NODE := Node(map[], [], map[], {}, {}, false, {})

  function Init(cfg: Config): Sys {
    Sys(seq(cfg.total, _ => NEW_NODE), {})
  }

  function TreeOf(n: Node, o: nat): Tree {
    if o in n.trees then n.trees[o] else NewTree(n.neighbors)
  }

  function To(i: nat, peers: set<nat>, m: Msg): set<Packet> {
    set p | p in peers :: Packet(i, p, m)
  }

  function Choice(i: nat, to: Option<nat>, m: Msg): set<Packet> {
    if to.Some? then {Packet(i, to.value, m)} else {}
  }

  // ----- the handlers

  /** The tree's part in an accepted or old rumor. */
  function Spread(n: Node, i: nat, r: Rumor, src: nat): (Node, set<Packet>) {
    var (t, to, prune) := HearRumor(TreeOf(n, r.origin), r.sequence, src);
    if prune then (n.(trees := n.trees[r.origin := t]), {Packet(i, src, Msg.Prune(r.origin, r.sequence))})
    else (n.(trees := n.trees[r.origin := t], pending := n.pending + {(r.origin, r.sequence)}), To(i, to, Rumors([r])))
  }

  /** One rumor of a message: taken if it is the next, and passed to the tree unless it is too early. */
  function HandleOne(cfg: Config, n: Node, i: nat, r: Rumor, src: nat): (Node, set<Packet>) {
    if n.stuck then (n, {})
    else
      var (logs, verdict) := AcceptOrigin(n.logs, r);
      var n' := n.(logs := logs, processed := if verdict == Process then n.processed + [r] else n.processed);
      if verdict == Future || !cfg.tree then (n', {})
      else if r.origin in n.held then (n'.(stuck := true), {})
      else Spread(n'.(held := n.held + {r.origin}), i, r, src)
  }

  function HandleAll(cfg: Config, n: Node, i: nat, rs: seq<Rumor>, src: nat): (Node, set<Packet>) {
    if rs == [] then (n, {})
    else
      var before := HandleAll(cfg, n, i, rs[..|rs| - 1], src);
      var one := HandleOne(cfg, before.0, i, rs[|rs| - 1], src);
      (one.0, before.1 + one.1)
  }

  /** A rumors message; `to` is the neighbor it goes on to without trees. */
  function OnRumors(cfg: Config, n: Node, i: nat, rs: seq<Rumor>, src: nat, to: Option<nat>): (Node, set<Packet>) {
    var (n', out) := HandleAll(cfg, n, i, rs, src);
    if n'.stuck then (n', out)
    else
      var hasNew := |n'.processed| > |n.processed|;
      (n'.(held := {}),
       out + (if hasNew && src != i then {Packet(i, src, Ack(Status(n'.logs)))} else {})
           + (if hasNew && !cfg.tree then Choice(i, to, Rumors(rs)) else {}))
  }

  /** What a peer broadcasts goes to the eager peers, or to one neighbor without trees. */
  function OnBroadcast(cfg: Config, n: Node, i: nat, msg: string, to: Option<nat>): (Node, set<Packet>) {
    var r := NextRumor(n.logs, i, msg);
    var n' := n.(logs := n.logs[i := Log(n.logs, i) + [r]]);
    if !cfg.tree then (n', Choice(i, to, Rumors([r])))
    else if i in n.held then (n', {})
    else
      var (t, peers) := Publish(TreeOf(n, i), r.sequence, i);
      (n'.(trees := n.trees[i := t], pending := n.pending + {(i, r.sequence)}), To(i, peers, Rumors([r])))
  }

  /** The rumors that another peer's status lacks, origin by origin and each origin's in order. */
  ghost predicate IsAnswer(rs: seq<Rumor>, logs: Logs, theirs: map<nat, nat>) {
    forall o: nat {:trigger Of(rs, o)} :: Of(rs, o) == Newer(logs, theirs, o)
  }

  function Seen(status: map<nat, nat>, o: nat): nat {
    if o in status then status[o] else 0
  }

  function Newer(logs: Logs, theirs: map<nat, nat>, o: nat): seq<Rumor> {
    if Seen(theirs, o) < |Log(logs, o)| then Log(logs, o)[Seen(theirs, o)..] else []
  }

  /** The rumors of one origin. */
  function Of(rs: seq<Rumor>, o: nat): (t: seq<Rumor>)
    ensures |t| <= |rs|
  {
    if rs == [] then []
    else
      var last := rs[|rs| - 1];
      Of(rs[..|rs| - 1], o) + if last.origin == o then [last] else []
  }

  /** Another peer's status names rumors that this one lacks. */
  ghost predicate RemoteIsAhead(logs: Logs, theirs: map<nat, nat>) {
    exists o :: o in theirs && theirs[o] > |Log(logs, o)|
  }

  datatype Event =
    | Meet(i: nat, j: nat)
    | Broadcast(i: nat, msg: string, to: Option<nat>)
    | Hear(i: nat, pkt: Packet, answer: seq<Rumor>, to: Option<nat>)
    | Announce(i: nat, o: nat, q: nat)
    | GraftTick(i: nat, o: nat, q: nat)
    | GraftEnd(i: nat, o: nat, q: nat)
    | AntiEntropy(i: nat, j: nat)

  ghost function DoHear(cfg: Config, n: Node, i: nat, pkt: Packet, answer: seq<Rumor>,
        to: Option<nat>): (Node, set<Packet>) {
    match pkt.msg
    case Rumors(rs) => OnRumors(cfg, n, i, rs, pkt.src, to)
    case Ask(status) => OnStatus(n, i, pkt.src, status, answer, to)
    case Ack(status) => if cfg.tree then (n, {}) else OnStatus(n, i, pkt.src, status, answer, to)
    case IHave(o, q) => (n.(trees := n.trees[o := HearIHave(TreeOf(n, o), q, pkt.src)]), {})
    case Graft(o, q) =>
      (n.(trees := n.trees[o := MoveToEager(TreeOf(n, o), pkt.src)]),
       // the rumor asked for; GraftInBounds: in every run there is one
       if 1 <= q <= |Log(n.logs, o)| then {Packet(i, pkt.src, Rumors([Log(n.logs, o)[q - 1]]))} else {})
    case Prune(o, _) => (n.(trees := n.trees[o := MoveToLazy(TreeOf(n, o), pkt.src)]), {})
  }

  /** A status is answered with what it lacks, and with this peer's own if that one is ahead; if neither has
      anything new, this peer's own may go on to another neighbor. */
  ghost function OnStatus(n: Node, i: nat, src: nat, theirs: map<nat, nat>, answer: seq<Rumor>,
        to: Option<nat>): (Node, set<Packet>) {
    var ahead := RemoteIsAhead(n.logs, theirs);
    (n, (if answer != [] then {Packet(i, src, Rumors(answer))} else {})
        + (if ahead then {Packet(i, src, Ask(Status(n.logs)))} else {})
        + (if answer == [] && !ahead then Choice(i, to, Ask(Status(n.logs))) else {}))
  }

  ghost predicate Enabled(cfg: Config, s: Sys, e: Event) {
    && |s.nodes| == cfg.total && e.i < cfg.total
    && var n := s.nodes[e.i];
    && match e
       case Meet(i, j) => i != j
       case Broadcast(_, _, _) => true
       case Hear(i, pkt, answer, _) =>
         // a peer handles one message at a time; a stuck one handles no more
         && pkt in s.net && pkt.dest == i && !n.stuck
         && (pkt.msg.Ask? || pkt.msg.Ack? ==> IsAnswer(answer, n.logs, pkt.msg.status))
       case Announce(_, o, q) => (o, q) in n.pending && o !in n.held
       case GraftTick(_, o, q) => StatusOf(TreeOf(n, o), q).grafting && o !in n.held
       case GraftEnd(_, o, q) => StatusOf(TreeOf(n, o), q).grafting && StatusOf(TreeOf(n, o), q).closed > 0
       case AntiEntropy(_, _) => true
  }

  /** The graft loop asks the lazy peers of a rumor in turn; TickKeeps: in every run there is one to ask. */
  function OnTick(n: Node, i: nat, o: nat, q: nat): (Node, set<Packet>) {
    if StatusOf(TreeOf(n, o), q).lazyPeers == [] then (n, {})
    else
      var (t, peer) := Tick(TreeOf(n, o), q);
      (n.(trees := n.trees[o := t]), {Packet(i, peer, Graft(o, q))})
  }

  ghost function Act(cfg: Config, s: Sys, e: Event): (Node, set<Packet>)
    requires Enabled(cfg, s, e)
  {
    var n := s.nodes[e.i];
    match e
    case Meet(_, j) => (n.(neighbors := n.neighbors + {j}), {})
    case Broadcast(i, msg, to) => OnBroadcast(cfg, n, i, msg, to)
    case Hear(i, pkt, answer, to) => DoHear(cfg, n, i, pkt, answer, to)
    case Announce(i, o, q) => (n.(pending := n.pending - {(o, q)}), To(i, TreeOf(n, o).lazys, IHave(o, q)))
    case GraftTick(i, o, q) => OnTick(n, i, o, q)
    case GraftEnd(_, o, q) => (n.(trees := n.trees[o := Finish(TreeOf(n, o), q)]), {})
    case AntiEntropy(i, j) => (n, {Packet(i, j, Ask(Status(n.logs)))})
  }

  ghost function Step(cfg: Config, s: Sys, e: Event): Sys
    requires Enabled(cfg, s, e)
  {
    var (n, out) := Act(cfg, s, e);
    Sys(s.nodes[e.i := n], s.net + out)
  }

  ghost predicate Legal(cfg: Config, es: seq<Event>)
    decreases |es|, 0
  {
    es == [] ||
    var before := es[..|es| - 1];
    Legal(cfg, before) && Enabled(cfg, Run(cfg, before), es[|es| - 1])
  }

  ghost function Run(cfg: Config, es: seq<Event>): Sys
    requires Legal(cfg, es)
    decreases |es|, 1
  {
    if es == [] then Init(cfg) else Step(cfg, Run(cfg, es[..|es| - 1]), es[|es| - 1])
  }

  // ----- the invariant

  /** The log of an origin at that origin. */
  function Own(nodes: seq<Node>, o: nat): seq<Rumor> {
    if o < |nodes| then Log(nodes[o].logs, o) else []
  }

  /** A rumor is the entry its origin has under its number. */
  ghost predicate Genuine(nodes: seq<Node>, r: Rumor) {
    1 <= r.sequence <= |Own(nodes, r.origin)| && Own(nodes, r.origin)[r.sequence - 1] == r
  }

  ghost predicate Holds(nodes: seq<Node>, p: nat, o: nat, q: nat) {
    p < |nodes| && 1 <= q <= |Log(nodes[p].logs, o)|
  }

  /** What a message claims is true of its sender, or of the peer that is asked. */
  ghost predicate PacketOk(nodes: seq<Node>, pkt: Packet) {
    && pkt.src < |nodes|
    && match pkt.msg
       case Rumors(rs) => forall k :: 0 <= k < |rs| ==> Genuine(nodes, rs[k])
       case Ask(status) => forall o :: o in status ==> status[o] <= |Log(nodes[pkt.src].logs, o)|
       case Ack(status) => forall o :: o in status ==> status[o] <= |Log(nodes[pkt.src].logs, o)|
       case IHave(o, q) => Holds(nodes, pkt.src, o, q)
       case Graft(o, q) => Holds(nodes, pkt.dest, o, q)
       case Prune(_, _) => true
  }

  ghost predicate LogOk(nodes: seq<Node>, i: nat, n: Node, o: nat) {
    && Log(n.logs, o) <= Own(nodes, o)
    && (o != i ==> Of(n.processed, o) == Log(n.logs, o))
  }

  /** An own log is numbered from 1. */
  ghost predicate Numbered(log: seq<Rumor>, o: nat) {
    forall k :: 0 <= k < |log| ==> log[k].origin == o && log[k].sequence == k + 1
  }

  ghost predicate TreeOk(nodes: seq<Node>, i: nat, n: Node, o: nat) {
    && TreeInv(TreeOf(n, o))
    && (forall q: nat {:trigger StatusOf(TreeOf(n, o), q)} ::
          && (StatusOf(TreeOf(n, o), q).received ==> q <= |Log(n.logs, o)|)
          && (forall p :: p in StatusOf(TreeOf(n, o), q).lazyPeers ==> Holds(nodes, p, o, q)))
  }

  ghost predicate NodeOk(nodes: seq<Node>, i: nat, n: Node) {
    && Numbered(Log(n.logs, i), i)
    && (forall o: nat {:trigger LogOk(nodes, i, n, o)} :: LogOk(nodes, i, n, o))
    && (forall o: nat {:trigger TreeOk(nodes, i, n, o)} :: TreeOk(nodes, i, n, o))
    && (forall x {:trigger Holds(nodes, i, x.0, x.1)} :: x in n.pending ==> Holds(nodes, i, x.0, x.1))
  }

  ghost predicate Inv(cfg: Config, s: Sys) {
    && |s.nodes| == cfg.total
    && (forall i {:trigger s.nodes[i]} :: 0 <= i < cfg.total ==>
          NodeOk(s.nodes, i, s.nodes[i]) && (!s.nodes[i].stuck ==> s.nodes[i].held == {}))
    && (forall pkt {:trigger PacketOk(s.nodes, pkt)} :: pkt in s.net ==> PacketOk(s.nodes, pkt))
  }

  // ----- logs only grow

  ghost predicate Extends(a: Logs, b: Logs) {
    forall o: nat {:trigger Log(b, o)} {:trigger Log(a, o)} :: Log(a, o) <= Log(b, o)
  }

  lemma OwnGrows(nodes: seq<Node>, i: nat, n': Node, o: nat)
    requires i < |nodes| && Extends(nodes[i].logs, n'.logs)
    ensures Own(nodes, o) <= Own(nodes[i := n'], o)
  {
    assert o == i ==> Log(nodes[i].logs, o) <= Log(n'.logs, o);
  }

  lemma GenuineStays(nodes: seq<Node>, i: nat, n': Node, r: Rumor)
    requires i < |nodes| && Extends(nodes[i].logs, n'.logs) && Genuine(nodes, r)
    ensures Genuine(nodes[i := n'], r)
  {
    OwnGrows(nodes, i, n', r.origin);
  }

  lemma HoldsStays(nodes: seq<Node>, i: nat, n': Node, p: nat, o: nat, q: nat)
    requires i < |nodes| && Extends(nodes[i].logs, n'.logs) && Holds(nodes, p, o, q)
    ensures Holds(nodes[i := n'], p, o, q)
  {
    assert p == i ==> Log(nodes[i].logs, o) <= Log(n'.logs, o);
  }

  lemma {:induction false} PacketStays(nodes: seq<Node>, i: nat, n': Node, pkt: Packet)
    requires i < |nodes| && Extends(nodes[i].logs, n'.logs) && PacketOk(nodes, pkt)
    ensures PacketOk(nodes[i := n'], pkt)
  {
    match pkt.msg
    case Rumors(rs) =>
      forall k | 0 <= k < |rs|
        ensures Genuine(nodes[i := n'], rs[k])
      {
        GenuineStays(nodes, i, n', rs[k]);
      }
    case Ask(_) =>
      assert forall o: nat :: Log(nodes[i].logs, o) <= Log(n'.logs, o);
    case Ack(_) =>
      assert forall o: nat :: Log(nodes[i].logs, o) <= Log(n'.logs, o);
    case IHave(o, q) => HoldsStays(nodes, i, n', pkt.src, o, q);
    case Graft(o, q) => HoldsStays(nodes, i, n', pkt.dest, o, q);
    case Prune(_, _) =>
  }

  lemma {:induction false} NodeStays(nodes: seq<Node>, i: nat, n': Node, j: nat, n: Node)
    requires i < |nodes| && Extends(nodes[i].logs, n'.logs) && NodeOk(nodes, j, n)
    ensures NodeOk(nodes[i := n'], j, n)
  {
    var nodes' := nodes[i := n'];
    forall o: nat
      ensures LogOk(nodes', j, n, o)
    {
      assert LogOk(nodes, j, n, o);
      OwnGrows(nodes, i, n', o);
    }
    forall o: nat
      ensures TreeOk(nodes', j, n, o)
    {
      assert TreeOk(nodes, j, n, o);
      forall q: nat, p | p in StatusOf(TreeOf(n, o), q).lazyPeers
        ensures Holds(nodes', p, o, q)
      {
        HoldsStays(nodes, i, n', p, o, q);
      }
    }
    forall x | x in n.pending
      ensures Holds(nodes', j, x.0, x.1)
    {
      HoldsStays(nodes, i, n', j, x.0, x.1);
    }
  }

  /** A step of one peer that keeps its own state and packets sound keeps the system sound. */
  lemma {:induction false} OneNode(cfg: Config, s: Sys, i: nat, n': Node, out: set<Packet>)
    requires Inv(cfg, s) && i < cfg.total && Extends(s.nodes[i].logs, n'.logs)
    requires NodeOk(s.nodes[i := n'], i, n') && (!n'.stuck ==> n'.held == {})
    requires forall pkt {:trigger PacketOk(s.nodes[i := n'], pkt)} :: pkt in out ==> PacketOk(s.nodes[i := n'], pkt)
    ensures Inv(cfg, Sys(s.nodes[i := n'], s.net + out))
  {
    hide NodeOk, PacketOk, Extends;
    var s' := Sys(s.nodes[i := n'], s.net + out);
    forall j | 0 <= j < cfg.total
      ensures NodeOk(s'.nodes, j, s'.nodes[j]) && (!s'.nodes[j].stuck ==> s'.nodes[j].held == {})
    {
      if j != i {
        NodeStays(s.nodes, i, n', j, s.nodes[j]);
      }
    }
    forall pkt | pkt in s'.net
      ensures PacketOk(s'.nodes, pkt)
    {
      if pkt !in out {
        PacketStays(s.nodes, i, n', pkt);
      }
    }
  }

  // ----- what a node does to itself

  lemma SameLogs(nodes: seq<Node>, i: nat, n: Node, n': Node)
    requires i < |nodes| && n.logs == n'.logs && Extends(nodes[i].logs, n.logs) && NodeOk(nodes[i := n], i, n')
    ensures NodeOk(nodes[i := n'], i, n')
  {
    NodeStays(nodes[i := n], i, n', i, n');
    assert nodes[i := n][i := n'] == nodes[i := n'];
  }

  /** Setting one tree. */
  lemma {:induction false} TreeSet(nodes: seq<Node>, i: nat, n: Node, o: nat, t: Tree, n': Node)
    requires i < |nodes| && n == nodes[i] && NodeOk(nodes, i, n)
    requires n' == n.(trees := n.trees[o := t], pending := n'.pending, held := n'.held)
    requires TreeInv(t)
    requires forall q: nat {:trigger StatusOf(t, q)} ::
               && (StatusOf(t, q).received ==> q <= |Log(n.logs, o)|)
               && (forall p :: p in StatusOf(t, q).lazyPeers ==> Holds(nodes, p, o, q))
    requires forall x {:trigger Holds(nodes, i, x.0, x.1)} :: x in n'.pending ==> Holds(nodes, i, x.0, x.1)
    ensures NodeOk(nodes[i := n'], i, n') && Extends(n.logs, n'.logs)
  {
    hide TreeInv, Holds;
    forall x: nat
      ensures LogOk(nodes, i, n', x)
    {
      assert LogOk(nodes, i, n, x);
    }
    forall x: nat
      ensures TreeOk(nodes, i, n', x)
    {
      assert TreeOk(nodes, i, n, x);
      assert x != o ==> TreeOf(n', x) == TreeOf(n, x);
    }
    assert nodes[i := n] == nodes;
    SameLogs(nodes, i, n, n');
  }

  /** A genuine rumor of this peer is one it already has. */
  lemma NextIsForeign(nodes: seq<Node>, i: nat, n: Node, r: Rumor)
    requires i < |nodes| && n == nodes[i] && Genuine(nodes, r) && r.sequence == |Log(n.logs, r.origin)| + 1
    ensures r.origin != i
  {
  }

  function Taken(n: Node, r: Rumor): Node {
    n.(logs := n.logs[r.origin := Log(n.logs, r.origin) + [r]], processed := n.processed + [r])
  }

  lemma {:induction false} OfSnoc(rs: seq<Rumor>, r: Rumor, o: nat)
    ensures Of(rs + [r], o) == if r.origin == o then Of(rs, o) + [r] else Of(rs, o)
  {
    assert (rs + [r])[..|rs|] == rs;
  }

  lemma {:induction false} TakeLog(nodes: seq<Node>, i: nat, n: Node, r: Rumor, o: nat)
    requires i < |nodes| && n == nodes[i] && LogOk(nodes, i, n, o) && Genuine(nodes, r)
    requires r.sequence == |Log(n.logs, r.origin)| + 1
    ensures Log(n.logs, o) <= Log(Taken(n, r).logs, o)
    ensures LogOk(nodes[i := Taken(n, r)], i, Taken(n, r), o)
  {
    NextIsForeign(nodes, i, n, r);
    OfSnoc(n.processed, r, o);
  }

  lemma {:induction false} TakeKeeps(nodes: seq<Node>, i: nat, n: Node, r: Rumor)
    requires i < |nodes| && n == nodes[i] && NodeOk(nodes, i, n) && Genuine(nodes, r)
    requires r.sequence == |Log(n.logs, r.origin)| + 1
    ensures var n' := Taken(n, r);
            NodeOk(nodes[i := n'], i, n') && Extends(n.logs, n'.logs)
  {
    hide TreeInv, TreeOk, LogOk, Genuine, Holds;
    var n' := Taken(n, r);
    var nodes' := nodes[i := n'];
    forall o: nat
      ensures Log(n.logs, o) <= Log(n'.logs, o) && LogOk(nodes', i, n', o)
    {
      assert LogOk(nodes, i, n, o);
      TakeLog(nodes, i, n, r, o);
    }
    NextIsForeign(nodes, i, n, r);
    NodeStays(nodes, i, n', i, n);
    forall o: nat
      ensures TreeOk(nodes', i, n', o)
    {
      assert TreeOk(nodes', i, n, o);
      TreeOkGrows(nodes', i, n, n', o);
    }
  }

  lemma TreeOkGrows(nodes: seq<Node>, i: nat, n: Node, n': Node, o: nat)
    requires TreeOk(nodes, i, n, o) && n'.trees == n.trees && n'.neighbors == n.neighbors && Extends(n.logs, n'.logs)
    ensures TreeOk(nodes, i, n', o)
  {
    assert TreeOf(n', o) == TreeOf(n, o);
    assert Log(n.logs, o) <= Log(n'.logs, o);
  }

  lemma {:induction false} SpreadKeeps(nodes: seq<Node>, i: nat, n: Node, r: Rumor, src: nat, n0: Node)
    requires i < |nodes| && n == nodes[i] && NodeOk(nodes, i, n) && Genuine(nodes, r)
    requires r.sequence <= |Log(n.logs, r.origin)| && n0 == n.(held := n0.held)
    ensures var (n', out) := Spread(n0, i, r, src);
            && NodeOk(nodes[i := n'], i, n') && Extends(n.logs, n'.logs)
            && forall pkt :: pkt in out ==> PacketOk(nodes, pkt)
  {
    hide TreeInv;
    var o, q := r.origin, r.sequence;
    var (n', out) := Spread(n0, i, r, src);
    assert TreeOk(nodes, i, n, o);
    RumorKeeps(TreeOf(n, o), q, src);
    var t := HearRumor(TreeOf(n, o), q, src).0;
    forall x: nat
      ensures StatusOf(t, x).lazyPeers == StatusOf(TreeOf(n, o), x).lazyPeers
      ensures x != q ==> StatusOf(t, x).received == StatusOf(TreeOf(n, o), x).received
    {
    }
    TreeSet(nodes, i, n, o, t, n');
  }

  lemma {:induction false} HandleOneKeeps(cfg: Config, nodes: seq<Node>, i: nat, n: Node, r: Rumor, src: nat)
    requires i < |nodes| && n == nodes[i] && NodeOk(nodes, i, n) && Genuine(nodes, r)
    ensures var (n', out) := HandleOne(cfg, n, i, r, src);
            && NodeOk(nodes[i := n'], i, n') && Extends(n.logs, n'.logs)
            && forall pkt :: pkt in out ==> PacketOk(nodes[i := n'], pkt)
  {
    hide NodeOk, PacketOk, Spread;
    var (n', out) := HandleOne(cfg, n, i, r, src);
    var (logs, verdict) := AcceptOrigin(n.logs, r);
    var n1 := if verdict == Process then Taken(n, r) else n;
    assert nodes[i := n] == nodes;
    if verdict == Process {
      TakeKeeps(nodes, i, n, r);
      GenuineStays(nodes, i, n1, r);
    }
    var nodes1 := nodes[i := n1];
    if !n.stuck {
      if verdict != Future && cfg.tree && r.origin !in n.held {
        SpreadKeeps(nodes1, i, n1, r, src, n1.(held := n.held + {r.origin}));
        assert nodes1[i := n'] == nodes[i := n'];
        assert n1.logs == logs;
        forall o: nat
          ensures Log(n.logs, o) <= Log(n'.logs, o)
        {
          assert Log(n.logs, o) <= Log(n1.logs, o) <= Log(n'.logs, o);
        }
        forall pkt | pkt in out
          ensures PacketOk(nodes[i := n'], pkt)
        {
          PacketStays(nodes1, i, n', pkt);
        }
      } else {
        assert n' == n1 || n' == n1.(stuck := true);
        OnlyStuck(nodes1, i, n1, n');
        assert nodes1[i := n'] == nodes[i := n'];
      }
    }
  }

  lemma {:induction false} OnlyStuck(nodes: seq<Node>, i: nat, n: Node, n': Node)
    requires i < |nodes| && n == nodes[i] && NodeOk(nodes, i, n)
    requires n' == n.(stuck := n'.stuck, held := n'.held)
    ensures NodeOk(nodes[i := n'], i, n')
  {
    hide TreeInv, Holds, Own;
    forall o: nat
      ensures LogOk(nodes, i, n', o) && TreeOk(nodes, i, n', o)
    {
      assert LogOk(nodes, i, n, o) && TreeOk(nodes, i, n, o);
      assert TreeOf(n', o) == TreeOf(n, o);
    }
    assert nodes[i := n] == nodes;
    SameLogs(nodes, i, n, n');
  }

  lemma ExtendsTwice(a: Logs, b: Logs, c: Logs)
    requires Extends(a, b) && Extends(b, c)
    ensures Extends(a, c)
  {
    forall o: nat
      ensures Log(a, o) <= Log(c, o)
    {
      assert Log(a, o) <= Log(b, o) <= Log(c, o);
    }
  }

  lemma {:induction false} HandleAllKeeps(cfg: Config, nodes: seq<Node>, i: nat, n: Node, rs: seq<Rumor>, src: nat)
    requires i < |nodes| && n == nodes[i] && NodeOk(nodes, i, n)
    requires forall k :: 0 <= k < |rs| ==> Genuine(nodes, rs[k])
    ensures var (n', out) := HandleAll(cfg, n, i, rs, src);
            && NodeOk(nodes[i := n'], i, n') && Extends(n.logs, n'.logs)
            && forall pkt :: pkt in out ==> PacketOk(nodes[i := n'], pkt)
  {
    hide NodeOk, PacketOk, HandleOne, Extends, Genuine;
    var (n', out) := HandleAll(cfg, n, i, rs, src);
    if rs == [] {
      assert nodes[i := n] == nodes;
      ExtendsSame(n.logs);
    } else {
      var before := HandleAll(cfg, n, i, rs[..|rs| - 1], src);
      var r, n1 := rs[|rs| - 1], before.0;
      HandleAllKeeps(cfg, nodes, i, n, rs[..|rs| - 1], src);
      GenuineStays(nodes, i, n1, r);
      HandleOneKeeps(cfg, nodes[i := n1], i, n1, r, src);
      assert nodes[i := n1][i := n'] == nodes[i := n'];
      ExtendsTwice(n.logs, n1.logs, n'.logs);
      forall pkt | pkt in out
        ensures PacketOk(nodes[i := n'], pkt)
      {
        if pkt in before.1 {
          PacketStays(nodes[i := n1], i, n', pkt);
        }
      }
    }
  }

  lemma ExtendsSame(a: Logs)
    ensures Extends(a, a)
  {
  }

  // ----- each event

  lemma {:induction false} RumorsKeep(cfg: Config, s: Sys, i: nat, pkt: Packet, to: Option<nat>)
    requires Inv(cfg, s) && i < cfg.total && pkt in s.net && pkt.msg.Rumors?
    ensures var (n', out) := OnRumors(cfg, s.nodes[i], i, pkt.msg.rs, pkt.src, to);
            Inv(cfg, Sys(s.nodes[i := n'], s.net + out))
  {
    hide NodeOk, HandleAll, Extends;
    var n, rs := s.nodes[i], pkt.msg.rs;
    var (n1, out1) := HandleAll(cfg, n, i, rs, pkt.src);
    var (n', out) := OnRumors(cfg, n, i, rs, pkt.src, to);
    assert PacketOk(s.nodes, pkt);
    HandleAllKeeps(cfg, s.nodes, i, n, rs, pkt.src);
    OnlyStuck(s.nodes[i := n1], i, n1, n');
    assert s.nodes[i := n1][i := n'] == s.nodes[i := n'];
    ExtendsSame(n1.logs);
    forall p | p in out
      ensures PacketOk(s.nodes[i := n'], p)
    {
      if p in out1 {
        PacketStays(s.nodes[i := n1], i, n', p);
      } else if p.msg.Rumors? {
        PacketStays(s.nodes, i, n', Packet(i, p.dest, pkt.msg));
      }
    }
    OneNode(cfg, s, i, n', out);
  }

  lemma {:induction false} OfHas(rs: seq<Rumor>, k: nat)
    requires k < |rs|
    ensures rs[k] in Of(rs, rs[k].origin)
  {
    if k < |rs| - 1 {
      OfHas(rs[..|rs| - 1], k);
    }
  }

  /** What a peer holds is genuine. */
  lemma {:induction false} LogGenuine(cfg: Config, s: Sys, i: nat, o: nat, k: nat)
    requires Inv(cfg, s) && i < cfg.total && k < |Log(s.nodes[i].logs, o)|
    ensures Genuine(s.nodes, Log(s.nodes[i].logs, o)[k]) && Log(s.nodes[i].logs, o)[k].origin == o
  {
    hide TreeOk;
    assert LogOk(s.nodes, i, s.nodes[i], o);
    assert NodeOk(s.nodes, o, s.nodes[o]);
  }

  lemma {:induction false} AnswerGenuine(cfg: Config, s: Sys, i: nat, theirs: map<nat, nat>, rs: seq<Rumor>)
    requires Inv(cfg, s) && i < cfg.total && IsAnswer(rs, s.nodes[i].logs, theirs)
    ensures forall k :: 0 <= k < |rs| ==> Genuine(s.nodes, rs[k])
  {
    hide NodeOk, PacketOk;
    var logs := s.nodes[i].logs;
    forall k | 0 <= k < |rs|
      ensures Genuine(s.nodes, rs[k])
    {
      OfHas(rs, k);
      var o := rs[k].origin;
      assert Of(rs, o) == Newer(logs, theirs, o);
      var j :| 0 <= j < |Newer(logs, theirs, o)| && Newer(logs, theirs, o)[j] == rs[k];
      LogGenuine(cfg, s, i, o, Seen(theirs, o) + j);
    }
  }

  lemma {:induction false} StatusKeeps(cfg: Config, s: Sys, i: nat, src: nat, theirs: map<nat, nat>,
        answer: seq<Rumor>, to: Option<nat>)
    requires Inv(cfg, s) && i < cfg.total && IsAnswer(answer, s.nodes[i].logs, theirs)
    ensures var (n', out) := OnStatus(s.nodes[i], i, src, theirs, answer, to);
            Inv(cfg, Sys(s.nodes[i := n'], s.net + out))
  {
    hide NodeOk;
    var n := s.nodes[i];
    var out := OnStatus(n, i, src, theirs, answer, to).1;
    assert s.nodes[i := n] == s.nodes;
    AnswerGenuine(cfg, s, i, theirs, answer);
    forall p | p in out
      ensures PacketOk(s.nodes, p)
    {
    }
    OneNode(cfg, s, i, n, out);
  }

  lemma {:induction false} IHaveStep(cfg: Config, s: Sys, i: nat, pkt: Packet)
    requires Inv(cfg, s) && i < cfg.total && pkt in s.net && pkt.msg.IHave?
    ensures var n := s.nodes[i];
            Inv(cfg, Sys(s.nodes[i := n.(trees := n.trees[pkt.msg.origin := HearIHave(TreeOf(n, pkt.msg.origin),
                  pkt.msg.q, pkt.src)])], s.net + {}))
  {
    hide TreeInv, Holds;
    var n, o, q := s.nodes[i], pkt.msg.origin, pkt.msg.q;
    var t, t' := TreeOf(n, o), HearIHave(TreeOf(n, o), q, pkt.src);
    assert PacketOk(s.nodes, pkt);
    assert TreeOk(s.nodes, i, n, o);
    IHaveKeeps(t, q, pkt.src);
    forall x: nat
      ensures StatusOf(t', x).received == StatusOf(t, x).received
      ensures forall p :: p in StatusOf(t', x).lazyPeers ==> p in StatusOf(t, x).lazyPeers || (x == q && p == pkt.src)
    {
    }
    TreeSet(s.nodes, i, n, o, t', n.(trees := n.trees[o := t']));
    OneNode(cfg, s, i, n.(trees := n.trees[o := t']), {});
  }

  /** Moving a peer between the eager and the lazy ones, or ending a graft, changes no more of the tree. */
  ghost predicate SameRumors(t: Tree, t': Tree) {
    forall q: nat {:trigger StatusOf(t', q)} ::
      StatusOf(t', q).received == StatusOf(t, q).received && StatusOf(t', q).lazyPeers == StatusOf(t, q).lazyPeers
  }

  lemma {:induction false} TreeStep(cfg: Config, s: Sys, i: nat, o: nat, t': Tree, out: set<Packet>)
    requires Inv(cfg, s) && i < cfg.total && TreeInv(t') && SameRumors(TreeOf(s.nodes[i], o), t')
    requires forall p :: p in out ==> PacketOk(s.nodes, p)
    ensures var n := s.nodes[i];
            Inv(cfg, Sys(s.nodes[i := n.(trees := n.trees[o := t'])], s.net + out))
  {
    hide TreeInv, Holds, PacketOk;
    var n := s.nodes[i];
    var n' := n.(trees := n.trees[o := t']);
    assert TreeOk(s.nodes, i, n, o);
    TreeSet(s.nodes, i, n, o, t', n');
    forall p | p in out
      ensures PacketOk(s.nodes[i := n'], p)
    {
      PacketStays(s.nodes, i, n', p);
    }
    OneNode(cfg, s, i, n', out);
  }

  lemma {:induction false} GraftStep(cfg: Config, s: Sys, i: nat, pkt: Packet)
    requires Inv(cfg, s) && i < cfg.total && pkt in s.net && pkt.msg.Graft? && pkt.dest == i
    ensures 1 <= pkt.msg.q <= |Log(s.nodes[i].logs, pkt.msg.origin)|
    ensures var (n', out) := DoHear(cfg, s.nodes[i], i, pkt, [], None);
            Inv(cfg, Sys(s.nodes[i := n'], s.net + out))
  {
    hide TreeInv;
    var n, o, q := s.nodes[i], pkt.msg.origin, pkt.msg.q;
    assert PacketOk(s.nodes, pkt);
    assert TreeOk(s.nodes, i, n, o);
    MovesKeep(TreeOf(n, o), pkt.src);
    LogGenuine(cfg, s, i, o, q - 1);
    TreeStep(cfg, s, i, o, MoveToEager(TreeOf(n, o), pkt.src), {Packet(i, pkt.src, Rumors([Log(n.logs, o)[q - 1]]))});
  }

  lemma {:induction false} HearKeeps(cfg: Config, s: Sys, i: nat, pkt: Packet, answer: seq<Rumor>, to: Option<nat>)
    requires Inv(cfg, s) && Enabled(cfg, s, Hear(i, pkt, answer, to))
    ensures Inv(cfg, Step(cfg, s, Hear(i, pkt, answer, to)))
  {
    hide TreeInv, NodeOk, OnRumors, OnStatus;
    var n := s.nodes[i];
    match pkt.msg
    case Rumors(rs) => RumorsKeep(cfg, s, i, pkt, to);
    case Ask(status) => StatusKeeps(cfg, s, i, pkt.src, status, answer, to);
    case Ack(status) =>
      if cfg.tree {
        assert s.nodes[i := n] == s.nodes && s.net + {} == s.net;
      } else {
        StatusKeeps(cfg, s, i, pkt.src, status, answer, to);
      }
    case IHave(_, _) => IHaveStep(cfg, s, i, pkt);
    case Graft(_, _) => GraftStep(cfg, s, i, pkt);
    case Prune(o, _) => PruneStep(cfg, s, i, o, pkt.src);
  }

  lemma {:induction false} PruneStep(cfg: Config, s: Sys, i: nat, o: nat, p: nat)
    requires Inv(cfg, s) && i < cfg.total
    ensures var n := s.nodes[i];
            Inv(cfg, Sys(s.nodes[i := n.(trees := n.trees[o := MoveToLazy(TreeOf(n, o), p)])], s.net + {}))
  {
    assert TreeOk(s.nodes, i, s.nodes[i], o);
    MovesKeep(TreeOf(s.nodes[i], o), p);
    TreeStep(cfg, s, i, o, MoveToLazy(TreeOf(s.nodes[i], o), p), {});
  }

  lemma {:induction false} TickStep(cfg: Config, s: Sys, i: nat, o: nat, q: nat)
    requires Inv(cfg, s) && Enabled(cfg, s, GraftTick(i, o, q))
    ensures StatusOf(TreeOf(s.nodes[i], o), q).lazyPeers != []
    ensures Inv(cfg, Step(cfg, s, GraftTick(i, o, q)))
  {
    hide TreeInv, NodeOk;
    var n := s.nodes[i];
    var t := TreeOf(n, o);
    InvTree(cfg, s, i, o);
    TickKeeps(t, q);
    var (t', peer) := Tick(t, q);
    TreeStep(cfg, s, i, o, t', {Packet(i, peer, Graft(o, q))});
  }

  lemma InvTree(cfg: Config, s: Sys, i: nat, o: nat)
    requires Inv(cfg, s) && i < cfg.total
    ensures TreeInv(TreeOf(s.nodes[i], o))
    ensures forall q: nat, p {:trigger p in StatusOf(TreeOf(s.nodes[i], o), q).lazyPeers} ::
              p in StatusOf(TreeOf(s.nodes[i], o), q).lazyPeers ==> Holds(s.nodes, p, o, q)
    ensures forall q: nat {:trigger StatusOf(TreeOf(s.nodes[i], o), q)} ::
              StatusOf(TreeOf(s.nodes[i], o), q).received ==> q <= |Log(s.nodes[i].logs, o)|
  {
    assert TreeOk(s.nodes, i, s.nodes[i], o);
  }

  lemma {:induction false} EndStep(cfg: Config, s: Sys, i: nat, o: nat, q: nat)
    requires Inv(cfg, s) && Enabled(cfg, s, GraftEnd(i, o, q))
    ensures Inv(cfg, Step(cfg, s, GraftEnd(i, o, q)))
  {
    hide TreeInv, NodeOk;
    var t := TreeOf(s.nodes[i], o);
    InvTree(cfg, s, i, o);
    FinishKeeps(t, q);
    TreeStep(cfg, s, i, o, Finish(t, q), {});
  }

  lemma {:induction false} AnnounceStep(cfg: Config, s: Sys, i: nat, o: nat, q: nat)
    requires Inv(cfg, s) && Enabled(cfg, s, Announce(i, o, q))
    ensures Inv(cfg, Step(cfg, s, Announce(i, o, q)))
  {
    hide TreeInv;
    var n := s.nodes[i];
    var n' := n.(pending := n.pending - {(o, q)});
    assert Holds(s.nodes, i, (o, q).0, (o, q).1);
    forall x: nat
      ensures LogOk(s.nodes, i, n', x) && TreeOk(s.nodes, i, n', x)
    {
      assert LogOk(s.nodes, i, n, x) && TreeOk(s.nodes, i, n, x);
      assert TreeOf(n', x) == TreeOf(n, x);
    }
    assert s.nodes[i := n] == s.nodes;
    SameLogs(s.nodes, i, n, n');
    HoldsStays(s.nodes, i, n', i, o, q);
    OneNode(cfg, s, i, n', To(i, TreeOf(n, o).lazys, IHave(o, q)));
  }

  lemma {:induction false} MeetStep(cfg: Config, s: Sys, i: nat, j: nat)
    requires Inv(cfg, s) && Enabled(cfg, s, Meet(i, j))
    ensures Inv(cfg, Step(cfg, s, Meet(i, j)))
  {
    var n := s.nodes[i];
    var n' := n.(neighbors := n.neighbors + {j});
    forall x: nat
      ensures LogOk(s.nodes, i, n', x) && TreeOk(s.nodes, i, n', x)
    {
      assert LogOk(s.nodes, i, n, x) && TreeOk(s.nodes, i, n, x);
    }
    assert s.nodes[i := n] == s.nodes;
    SameLogs(s.nodes, i, n, n');
    OneNode(cfg, s, i, n', {});
  }

  function Extended(n: Node, i: nat, r: Rumor): Node {
    n.(logs := n.logs[i := Log(n.logs, i) + [r]])
  }

  /** A new rumor of this peer. */
  lemma {:induction false} OwnRumor(nodes: seq<Node>, i: nat, n: Node, msg: string)
    requires i < |nodes| && n == nodes[i] && NodeOk(nodes, i, n)
    ensures var r := NextRumor(n.logs, i, msg);
            var n' := Extended(n, i, r);
            && NodeOk(nodes[i := n'], i, n') && Extends(n.logs, n'.logs) && Genuine(nodes[i := n'], r)
            && Holds(nodes[i := n'], i, i, r.sequence)
  {
    hide TreeInv, TreeOk;
    var r := NextRumor(n.logs, i, msg);
    var n' := Extended(n, i, r);
    forall o: nat
      ensures Log(n.logs, o) <= Log(n'.logs, o)
    {
    }
    NodeStays(nodes, i, n', i, n);
    var nodes' := nodes[i := n'];
    forall o: nat
      ensures LogOk(nodes', i, n', o) && TreeOk(nodes', i, n', o)
    {
      assert LogOk(nodes, i, n, o) && TreeOk(nodes', i, n, o);
      TreeOkGrows(nodes', i, n, n', o);
    }
  }

  /** Whoever announced a rumor of this peer has it, so this peer sent it. */
  lemma {:induction false} AnnouncedExists(cfg: Config, s: Sys, i: nat, q: nat)
    requires Inv(cfg, s) && i < cfg.total && StatusOf(TreeOf(s.nodes[i], i), q).lazyPeers != []
    ensures q <= |Log(s.nodes[i].logs, i)|
  {
    InvTree(cfg, s, i, i);
    var p := StatusOf(TreeOf(s.nodes[i], i), q).lazyPeers[0];
    assert p in StatusOf(TreeOf(s.nodes[i], i), q).lazyPeers;
    assert LogOk(s.nodes, p, s.nodes[p], i);
  }

  /** So nobody can have announced its next rumor. */
  lemma {:induction false} NextUnheard(cfg: Config, s: Sys, i: nat, q: nat)
    requires Inv(cfg, s) && i < cfg.total && q == |Log(s.nodes[i].logs, i)| + 1
    ensures !StatusOf(TreeOf(s.nodes[i], i), q).graft && !StatusOf(TreeOf(s.nodes[i], i), q).received
  {
    InvTree(cfg, s, i, i);
    assert Coherent(StatusOf(TreeOf(s.nodes[i], i), q), Pushes(TreeOf(s.nodes[i], i), q));
    if StatusOf(TreeOf(s.nodes[i], i), q).lazyPeers != [] {
      AnnouncedExists(cfg, s, i, q);
    }
  }

  lemma {:induction false} BroadcastStep(cfg: Config, s: Sys, i: nat, msg: string, to: Option<nat>)
    requires Inv(cfg, s) && i < cfg.total
    ensures Inv(cfg, Step(cfg, s, Broadcast(i, msg, to)))
  {
    hide TreeInv, NodeOk, Extends;
    var n := s.nodes[i];
    var r := NextRumor(n.logs, i, msg);
    var n1 := Extended(n, i, r);
    var nodes1 := s.nodes[i := n1];
    var (n', out) := OnBroadcast(cfg, n, i, msg, to);
    OwnRumor(s.nodes, i, n, msg);
    if cfg.tree && i !in n.held {
      var t := TreeOf(n, i);
      InvTree(cfg, s, i, i);
      NextUnheard(cfg, s, i, r.sequence);
      PublishKeepsIff(t, r.sequence, i);
      PublishSet(nodes1, i, n1, r.sequence, n');
      assert nodes1[i := n'] == s.nodes[i := n'];
      ExtendsTwice(n.logs, n1.logs, n'.logs);
      GenuineStays(nodes1, i, n', r);
    } else {
      assert n' == n1;
    }
    OneNode(cfg, s, i, n', out);
  }

  lemma {:induction false} PublishSet(nodes: seq<Node>, i: nat, n: Node, q: nat, n': Node)
    requires i < |nodes| && n == nodes[i] && NodeOk(nodes, i, n) && Holds(nodes, i, i, q)
    requires n' == n.(trees := n.trees[i := Publish(TreeOf(n, i), q, i).0], pending := n.pending + {(i, q)})
    requires TreeInv(Publish(TreeOf(n, i), q, i).0)
    ensures NodeOk(nodes[i := n'], i, n') && Extends(n.logs, n'.logs)
  {
    hide TreeInv;
    var t, t' := TreeOf(n, i), Publish(TreeOf(n, i), q, i).0;
    assert TreeOk(nodes, i, n, i);
    forall x: nat
      ensures StatusOf(t', x).lazyPeers == StatusOf(t, x).lazyPeers
      ensures x != q ==> StatusOf(t', x).received == StatusOf(t, x).received
    {
    }
    TreeSet(nodes, i, n, i, t', n');
  }

  lemma {:induction false} StepKeeps(cfg: Config, s: Sys, e: Event)
    requires Inv(cfg, s) && Enabled(cfg, s, e)
    ensures Inv(cfg, Step(cfg, s, e))
  {
    hide Inv, DoHear, OnBroadcast;
    match e
    case Meet(i, j) => MeetStep(cfg, s, i, j);
    case Broadcast(i, msg, to) => BroadcastStep(cfg, s, i, msg, to);
    case Hear(i, pkt, answer, to) => HearKeeps(cfg, s, i, pkt, answer, to);
    case Announce(i, o, q) => AnnounceStep(cfg, s, i, o, q);
    case GraftTick(i, o, q) => TickStep(cfg, s, i, o, q);
    case GraftEnd(i, o, q) => EndStep(cfg, s, i, o, q);
    case AntiEntropy(i, j) => AskStep(cfg, s, i, j);
  }

  lemma {:induction false} AskStep(cfg: Config, s: Sys, i: nat, j: nat)
    requires Inv(cfg, s) && i < cfg.total
    ensures Inv(cfg, Sys(s.nodes[i := s.nodes[i]], s.net + {Packet(i, j, Ask(Status(s.nodes[i].logs)))}))
  {
    hide NodeOk;
    var out := {Packet(i, j, Ask(Status(s.nodes[i].logs)))};
    assert s.nodes[i := s.nodes[i]] == s.nodes;
    assert forall p :: p in out ==> PacketOk(s.nodes, p);
    OneNode(cfg, s, i, s.nodes[i], out);
  }

  lemma InitInv(cfg: Config)
    ensures Inv(cfg, Init(cfg))
  {
    forall i: nat, o: nat | i < cfg.total
      ensures LogOk(Init(cfg).nodes, i, NEW_NODE, o) && TreeOk(Init(cfg).nodes, i, NEW_NODE, o)
    {
    }
  }

  /** Every run keeps all of it: logs that are prefixes of their origin's, genuine rumors in flight, each
      rumor processed once in order, and coherent trees. */
  lemma {:induction false} RunKeeps(cfg: Config, es: seq<Event>)
    requires Legal(cfg, es)
    ensures Inv(cfg, Run(cfg, es))
  {
    hide Inv;
    if es == [] {
      InitInv(cfg);
    } else {
      RunKeeps(cfg, es[..|es| - 1]);
      StepKeeps(cfg, Run(cfg, es[..|es| - 1]), es[|es| - 1]);
    }
  }

  // ----- what that says

  /** In every run a peer's log of an origin is a prefix of the origin's own, and what the peer handed to its
      handlers from that origin is exactly that log: rumor 1, 2, 3 and so on, once each, in that order. */
  lemma {:induction false} PrefixInOrder(cfg: Config, es: seq<Event>, i: nat, o: nat)
    requires Legal(cfg, es) && i < cfg.total && o < cfg.total && o != i
    ensures var nodes := Run(cfg, es).nodes;
            && |nodes| == cfg.total
            && Log(nodes[i].logs, o) <= Log(nodes[o].logs, o)
            && Of(nodes[i].processed, o) == Log(nodes[i].logs, o)
            && Numbered(Of(nodes[i].processed, o), o)
  {
    RunKeeps(cfg, es);
    var s := Run(cfg, es);
    assert LogOk(s.nodes, i, s.nodes[i], o);
    assert NodeOk(s.nodes, o, s.nodes[o]);
  }

  /** Every rumor in flight is the entry of its origin's own log under its number. */
  lemma {:induction false} InFlightGenuine(cfg: Config, es: seq<Event>, pkt: Packet, k: nat)
    requires Legal(cfg, es) && pkt in Run(cfg, es).net && pkt.msg.Rumors? && k < |pkt.msg.rs|
    ensures Genuine(Run(cfg, es).nodes, pkt.msg.rs[k])
  {
    RunKeeps(cfg, es);
    assert PacketOk(Run(cfg, es).nodes, pkt);
  }

  /** In every run each tree keeps its eager and lazy peers apart, has somebody to ask while it grafts, closes
      a channel exactly when the rumor asked for came, and pushed each rumor at most once. */
  lemma {:induction false} TreesCoherent(cfg: Config, es: seq<Event>, i: nat, o: nat, q: nat)
    requires Legal(cfg, es) && i < cfg.total
    ensures |Run(cfg, es).nodes| == cfg.total
    ensures var t := TreeOf(Run(cfg, es).nodes[i], o);
            var st := StatusOf(t, q);
            && t.eagers !! t.lazys
            && (st.graft ==> st.lazyPeers != [])
            && st.closed <= 1 && (st.closed == 1 <==> st.graft && st.received)
            && Pushes(t, q) <= 1
  {
    RunKeeps(cfg, es);
    InvTree(cfg, Run(cfg, es), i, o);
    assert Coherent(StatusOf(TreeOf(Run(cfg, es).nodes[i], o), q), Pushes(TreeOf(Run(cfg, es).nodes[i], o), q));
  }

  /** A graft never asks a peer for a rumor that it lacks: the interval it reads is within its log. */
  lemma {:induction false} GraftInBounds(cfg: Config, es: seq<Event>, pkt: Packet)
    requires Legal(cfg, es) && pkt in Run(cfg, es).net && pkt.msg.Graft?
    ensures Holds(Run(cfg, es).nodes, pkt.dest, pkt.msg.origin, pkt.msg.q)
  {
    RunKeeps(cfg, es);
    assert PacketOk(Run(cfg, es).nodes, pkt);
  }
}
