/** What Paxos does not keep: proposers that reset themselves in the middle of a step can have two values chosen. */
module PaxosLimits {
  import opened Common
  import opened Chain
  import opened PaxosNode
  import opened Tlc
  import opened PaxosRun

  /** No run chooses two values in one step. */
  ghost predicate OneChoice(cfg: Config, rule: Rule) {
    forall es, step, id, v, id', v' ::
      Legal(cfg, rule, es) && Chosen(cfg, Run(cfg, rule, es).net, step, id, v)
            && Chosen(cfg, Run(cfg, rule, es).net, step, id', v')
      ==> v == v'
  }

  ghost predicate Unclosed(es: seq<Event>) {
    forall k :: 0 <= k < |es| ==> !es[k].Close?
  }

  /** A state that some run without any TLC message leads to. */
  ghost predicate Reached(cfg: Config, rule: Rule, s: Sys) {
    exists es :: Legal(cfg, rule, es) && Run(cfg, rule, es) == s && Unclosed(es)
  }

  lemma Start(cfg: Config, rule: Rule)
    ensures Reached(cfg, rule, Init(cfg))
  {
    assert Legal(cfg, rule, []);
    assert Run(cfg, rule, []) == Init(cfg);
  }

  lemma UnclosedSnoc(es: seq<Event>, e: Event)
    requires Unclosed(es) && !e.Close?
    ensures Unclosed(es + [e])
  {
  }

  lemma Extend(cfg: Config, rule: Rule, s: Sys, e: Event)
    requires Reached(cfg, rule, s) && Enabled(cfg, rule, s, e) && !e.Close?
    ensures Reached(cfg, rule, Step(cfg, rule, s, e))
  {
    hide Step, Enabled, Unclosed;
    var es :| Legal(cfg, rule, es) && Run(cfg, rule, es) == s && Unclosed(es);
    UnclosedSnoc(es, e);
    var es' := es + [e];
    assert es'[..|es'| - 1] == es;
    assert Legal(cfg, rule, es');
    assert Run(cfg, rule, es') == Step(cfg, rule, s, e);
  }

  lemma HandleAt(cfg: Config, rule: Rule, s: Sys, i: nat, pkt: Packet) returns (s': Sys)
    requires Reached(cfg, rule, s) && |s.nodes| == cfg.total && i < cfg.total && Valid(s.nodes[i].peer.paxos)
    requires pkt in s.net && pkt !in s.nodes[i].handled && (pkt.dest == None || pkt.dest == Some(i))
    ensures Reached(cfg, rule, s')
    ensures var (n', out) := DoHandle(cfg, s.nodes[i], i, pkt); s' == Sys(s.nodes[i := n'], s.net + out)
  {
    hide Reached, DoHandle;
    Extend(cfg, rule, s, Handle(i, pkt));
    s' := Step(cfg, rule, s, Handle(i, pkt));
  }

  // ----- one ballot, heard by a quorum

  /** A proposer, its id, the ids that came before, the value it was called with, and the value it ends up with:
      that one, or the one that a voter accepted before. */
  datatype Attempt = Attempt(p: nat, id: nat, before: nat, own: PaxosValue, v: PaxosValue, voter: nat)

  function Ask(b: Attempt): Packet {
    Packet(b.p, None, Prepare(0, b.id, b.p))
  }

  function Offer(b: Attempt): Packet {
    Packet(b.p, None, Propose(0, b.id, b.v))
  }

  /** In step 0, with no accept counted, no TLC message heard and no block announced. */
  ghost predicate Quiet(n: Node) {
    && Clock(n) == 0 && Valid(n.peer.paxos) && n.peer.paxos.accepts == map[] && 0 !in n.peer.paxos.acceptedMap
          && 0 !in n.learned
    && Silent(n.peer) && n.peer.sent == []
  }

  ghost predicate Silent(peer: Peer) {
    peer.chain == map[] && peer.paxos.tlcs == map[] && peer.paxos.consensus == map[]
  }

  ghost predicate HeardUpTo(n: Node, b: Attempt, promised: bool, accepted: bool) {
    && (forall pkt :: pkt in n.handled ==> pkt.msg.id <= b.id && !pkt.msg.Accept?)
    && (forall pkt :: pkt in n.handled && (pkt.msg.Propose? || (pkt.msg.Prepare? && !promised)) && !accepted ==>
          pkt.msg.id <= b.before)
  }

  ghost predicate SameProposer(n: Node, n0: Node) {
    && n.waiting == n0.waiting && n.peer.paxos.promises == n0.peer.paxos.promises
    && n.peer.paxos.preparedFlag == n0.peer.paxos.preparedFlag
          && n.peer.paxos.proposedValue == n0.peer.paxos.proposedValue
  }

  ghost predicate SameCaller(n: Node, n0: Node) {
    n.call == n0.call && n.tags == n0.tags && n.attempted == n0.attempted
  }

  /** What the ballot did to an acceptor that promised, or accepted, or neither. */
  ghost predicate Acceptor(n: Node, n0: Node, b: Attempt, promised: bool, accepted: bool) {
    && Quiet(n) && HeardUpTo(n, b, promised, accepted) && SameCaller(n, n0)
    && n.peer.paxos.maxID == (if promised then b.id else n0.peer.paxos.maxID)
    && n.peer.paxos.acceptedID == (if accepted then b.id else n0.peer.paxos.acceptedID)
    && n.peer.paxos.acceptedValue == (if accepted then b.v else n0.peer.paxos.acceptedValue)
  }

  /** From s0, the peers of `promised` and then those of `accepted` took part in the ballot. */
  ghost predicate At(cfg: Config, s0: Sys, s: Sys, b: Attempt, promised: set<nat>, accepted: set<nat>) {
    && |s0.nodes| == |s.nodes| == cfg.total && s0.net <= s.net
    && (forall a {:trigger s.nodes[a]} :: 0 <= a < cfg.total ==>
          && Acceptor(s.nodes[a], s0.nodes[a], b, a in promised, a in accepted)
          && (a != b.p ==> SameProposer(s.nodes[a], s0.nodes[a])))
    && (forall a {:trigger Voted(s.net, a, 0, b.id, b.v)} :: a in accepted ==> Voted(s.net, a, 0, b.id, b.v))
  }

  /** A promise that tells of the value. */
  ghost predicate Reports(m: Msg, b: Attempt) {
    m.Promise? && m.acceptedID > 0 && m.acceptedValue == Some(b.v)
  }

  /** The proposer holds the promises of `promised`, and none speaks of another value. */
  ghost predicate Collected(cfg: Config, n: Node, b: Attempt, promised: set<nat>) {
    && n.waiting == Some((0, b.id)) && n.peer.paxos.proposedValue == b.own
    && (b.v != b.own && b.voter in promised ==> exists m :: m in n.peer.paxos.promises && Reports(m, b))
    && |n.peer.paxos.promises| == |promised|
    && (forall m :: m in n.peer.paxos.promises ==>
          m.Promise? && (m.acceptedValue == None || m.acceptedValue == Some(b.v)))
    && (0 in n.peer.paxos.preparedFlag <==> |promised| >= cfg.threshold)
    && (forall pkt :: pkt in n.handled && pkt.msg.Promise? && pkt.msg.id == b.id ==> pkt.origin in promised)
  }

  /** A ballot that has been begun and that the peers of q can promise. */
  ghost predicate Open(cfg: Config, s: Sys, b: Attempt, q: set<nat>) {
    && |s.nodes| == cfg.total && b.p < cfg.total && b.before < b.id && b.v != ZERO_VALUE && cfg.threshold > 0
    && Ask(b) in s.net && q <= Peers(cfg.total) && |q| == cfg.threshold
    && At(cfg, s, s, b, {}, {}) && Collected(cfg, s.nodes[b.p], b, {})
    && (forall a {:trigger s.nodes[a]} :: a in q ==>
          s.nodes[a].peer.paxos.maxID < b.id && s.nodes[a].peer.paxos.acceptedValue in {ZERO_VALUE, b.v})
    && (b.v != b.own ==> b.voter in q && HasAccepted(s.nodes[b.voter], b.v))
  }

  ghost predicate HasAccepted(n: Node, v: PaxosValue) {
    n.peer.paxos.acceptedValue == v && n.peer.paxos.acceptedID > 0
  }

  lemma {:induction false} Promises(cfg: Config, n: Node, n0: Node, a: nat, b: Attempt)
    requires Acceptor(n, n0, b, false, false) && n0.peer.paxos.maxID < b.id
          && n0.peer.paxos.acceptedValue in {ZERO_VALUE, b.v}
    requires b.before < b.id && b.v != ZERO_VALUE && (b.v != b.own && a == b.voter ==> HasAccepted(n0, b.v))
    ensures Ask(b) !in n.handled
    ensures var (n', out) := DoHandle(cfg, n, a, Ask(b));
            Acceptor(n', n0, b, true, false) && SameProposer(n', n) && n'.handled == n.handled + {Ask(b)}
            && exists m :: out == {Packet(a, Some(b.p), m)} && Told(m, b, a)
  {
    var m := OnPrepare(n.peer.paxos, Ask(b).msg).1.value;
    assert Told(m, b, a);
  }

  ghost predicate Told(m: Msg, b: Attempt, a: nat) {
    && m.Promise? && m.step == 0 && m.id == b.id && m.acceptedValue in {None, Some(b.v)}
    && (b.v != b.own && a == b.voter ==> Reports(m, b))
  }

  lemma {:induction false} PromiseCounted(p: Paxos, m: Msg, threshold: nat)
    requires m.Promise? && m.step == p.clock == 0
    requires 0 in p.preparedFlag <==> |p.promises| >= threshold
    ensures var p' := OnPromise(p, m, threshold);
            && p'.promises == p.promises + [m] && (0 in p'.preparedFlag <==> |p'.promises| >= threshold)
            && p' == p.(promises := p'.promises, preparedFlag := p'.preparedFlag)
  {
  }

  lemma StillReports(promises: seq<Msg>, m: Msg, b: Attempt, promised: set<nat>, a: nat)
    requires Told(m, b, a)
    requires b.v != b.own && b.voter in promised ==> exists r :: r in promises && Reports(r, b)
    ensures b.v != b.own && b.voter in promised + {a} ==> exists r :: r in promises + [m] && Reports(r, b)
  {
    assert (promises + [m])[|promises|] == m;
    if b.v != b.own && b.voter in promised {
      var r :| r in promises && Reports(r, b);
      assert r in promises + [m];
    }
  }

  lemma PromiseGoes(cfg: Config, n: Node, i: nat, pkt: Packet)
    requires pkt.msg.Promise?
    ensures var n' := DoHandle(cfg, n, i, pkt).0;
            n'.peer.paxos == OnPromise(n.peer.paxos, pkt.msg, cfg.threshold) && n'.waiting == n.waiting
            && n'.handled == n.handled + {pkt}
  {
  }

  lemma {:induction false} CollectsNode(cfg: Config, n: Node, b: Attempt, promised: set<nat>, pkt: Packet)
    requires Collected(cfg, n, b, promised) && Clock(n) == 0
    requires pkt.origin !in promised && Told(pkt.msg, b, pkt.origin)
    ensures Collected(cfg, DoHandle(cfg, n, b.p, pkt).0, b, promised + {pkt.origin})
  {
    hide OnPromise, DoHandle, Reports;
    PromiseCounted(n.peer.paxos, pkt.msg, cfg.threshold);
    assert |promised + {pkt.origin}| == |promised| + 1;
    StillReports(n.peer.paxos.promises, pkt.msg, b, promised, pkt.origin);
    PromiseGoes(cfg, n, b.p, pkt);
  }

  lemma {:induction false} Collects(cfg: Config, n: Node, n0: Node, b: Attempt, promised: set<nat>, inside: bool,
        a: nat, m: Msg)
    requires Acceptor(n, n0, b, inside, false) && Collected(cfg, n, b, promised)
    requires a !in promised && Told(m, b, a)
    ensures var pkt := Packet(a, Some(b.p), m);
            && pkt !in n.handled
            && var (n', out) := DoHandle(cfg, n, b.p, pkt);
            out == {} && Acceptor(n', n0, b, inside, false) && Collected(cfg, n', b, promised + {a})
  {
    hide OnPromise, Collected;
    var pkt := Packet(a, Some(b.p), m);
    NotYetCollected(cfg, n, b, promised, pkt);
    CollectsNode(cfg, n, b, promised, pkt);
    PromiseCounted(n.peer.paxos, m, cfg.threshold);
  }

  lemma NotYetCollected(cfg: Config, n: Node, b: Attempt, promised: set<nat>, pkt: Packet)
    requires Collected(cfg, n, b, promised) && pkt.origin !in promised && Told(pkt.msg, b, pkt.origin)
    ensures pkt !in n.handled && (0 in n.peer.paxos.preparedFlag <==> |n.peer.paxos.promises| >= cfg.threshold)
  {
  }

  lemma {:induction false} CollectOne(cfg: Config, rule: Rule, s0: Sys, b: Attempt, q: set<nat>, s: Sys,
        promised: set<nat>, a: nat)
      returns (s': Sys)
    requires Open(cfg, s0, b, q) && promised <= q && a in q && a !in promised
    requires Reached(cfg, rule, s) && At(cfg, s0, s, b, promised, {}) && Collected(cfg, s.nodes[b.p], b, promised)
    ensures Reached(cfg, rule, s') && At(cfg, s0, s', b, promised + {a}, {})
          && Collected(cfg, s'.nodes[b.p], b, promised + {a})
  {
    hide DoHandle, Reached, Acceptor, Collected, SameProposer;
    var n, n0 := s.nodes[a], s0.nodes[a];
    assert Acceptor(n0, n0, b, false, false);
    assert Acceptor(n, n0, b, false, false);
    Promises(cfg, n, n0, a, b);
    QuietIsValid(n, n0, b, false, false);
    var s1 := HandleAt(cfg, rule, s, a, Ask(b));
    var m :| DoHandle(cfg, n, a, Ask(b)).1 == {Packet(a, Some(b.p), m)} && Told(m, b, a);
    if a == b.p {
      StillCollected(cfg, n, s1.nodes[a], b, promised);
    }
    var p, p0 := s1.nodes[b.p], s0.nodes[b.p];
    var inside := b.p in promised + {a};
    assert Acceptor(p, p0, b, inside, false);
    QuietIsValid(p, p0, b, inside, false);
    Collects(cfg, p, p0, b, promised, inside, a, m);
    s' := HandleAt(cfg, rule, s1, b.p, Packet(a, Some(b.p), m));
    forall x | 0 <= x < cfg.total
      ensures Acceptor(s'.nodes[x], s0.nodes[x], b, x in promised + {a}, false)
              && (x != b.p ==> SameProposer(s'.nodes[x], s0.nodes[x]))
    {
      assert Acceptor(s.nodes[x], s0.nodes[x], b, x in promised, false);
      if x == a && x != b.p {
        SameTwice(s'.nodes[x], n, n0);
      }
    }
  }

  lemma SameTwice(n: Node, m: Node, k: Node)
    requires SameProposer(n, m) && SameProposer(m, k)
    ensures SameProposer(n, k)
  {
  }

  lemma QuietIsValid(n: Node, n0: Node, b: Attempt, promised: bool, accepted: bool)
    requires Acceptor(n, n0, b, promised, accepted)
    ensures Valid(n.peer.paxos) && Clock(n) == 0
  {
  }

  lemma StillCollected(cfg: Config, n: Node, n': Node, b: Attempt, promised: set<nat>)
    requires Collected(cfg, n, b, promised) && SameProposer(n', n) && n'.handled == n.handled + {Ask(b)}
    ensures Collected(cfg, n', b, promised)
  {
  }

  lemma {:induction false} Collect(cfg: Config, rule: Rule, s0: Sys, b: Attempt, q: set<nat>, promised: set<nat>)
      returns (s: Sys)
    requires Open(cfg, s0, b, q) && promised <= q && Reached(cfg, rule, s0)
    ensures Reached(cfg, rule, s) && At(cfg, s0, s, b, promised, {}) && Collected(cfg, s.nodes[b.p], b, promised)
    decreases |promised|
  {
    hide Reached, At, Collected;
    if promised == {} {
      s := s0;
    } else {
      var a :| a in promised;
      s := Collect(cfg, rule, s0, b, q, promised - {a});
      s := CollectOne(cfg, rule, s0, b, q, s, promised - {a}, a);
      assert promised - {a} + {a} == promised;
    }
  }

  lemma {:induction false} BestIsOnly(promises: seq<Msg>, b: Attempt)
    requires forall m :: m in promises ==> m.Promise? && (m.acceptedValue == None || m.acceptedValue == Some(b.v))
    requires b.v == b.own || exists m :: m in promises && Reports(m, b)
    ensures Best(promises, b.own).1 == b.v
  {
    BestIsHighest(promises, b.own);
  }

  lemma {:induction false} Offers(cfg: Config, rule: Rule, s0: Sys, b: Attempt, q: set<nat>, s: Sys) returns (s': Sys)
    requires Open(cfg, s0, b, q)
    requires Reached(cfg, rule, s) && At(cfg, s0, s, b, q, {}) && Collected(cfg, s.nodes[b.p], b, q)
    ensures Reached(cfg, rule, s') && At(cfg, s0, s', b, q, {}) && Offer(b) in s'.net
  {
    hide Reached;
    var n := s.nodes[b.p];
    assert Acceptor(n, s0.nodes[b.p], b, b.p in q, false);
    BestIsOnly(n.peer.paxos.promises, b);
    Extend(cfg, rule, s, Conclude(b.p));
    s' := Step(cfg, rule, s, Conclude(b.p));
    assert Acceptor(s'.nodes[b.p], s0.nodes[b.p], b, b.p in q, false);
  }

  lemma {:induction false} Accepts(cfg: Config, n: Node, n0: Node, a: nat, b: Attempt)
    requires Acceptor(n, n0, b, true, false) && b.before < b.id
    ensures Offer(b) !in n.handled
    ensures var (n', out) := DoHandle(cfg, n, a, Offer(b));
            Acceptor(n', n0, b, true, true) && SameProposer(n', n) && out == {Packet(a, None, Accept(0, b.id, b.v))}
  {
  }

  lemma {:induction false} AcceptAll(cfg: Config, rule: Rule, s0: Sys, b: Attempt, q: set<nat>, s1: Sys,
        accepted: set<nat>) returns (s: Sys)
    requires Open(cfg, s0, b, q) && accepted <= q
    requires Reached(cfg, rule, s1) && At(cfg, s0, s1, b, q, {}) && Offer(b) in s1.net
    ensures Reached(cfg, rule, s) && At(cfg, s0, s, b, q, accepted) && Offer(b) in s.net
    decreases |accepted|
  {
    hide DoHandle, Reached, Acceptor, SameProposer;
    if accepted == {} {
      s := s1;
    } else {
      var a :| a in accepted;
      var t := AcceptAll(cfg, rule, s0, b, q, s1, accepted - {a});
      var n, n0 := t.nodes[a], s0.nodes[a];
      assert Acceptor(n, n0, b, true, false);
      QuietIsValid(n, n0, b, true, false);
      Accepts(cfg, n, n0, a, b);
      s := HandleAt(cfg, rule, t, a, Offer(b));
      if a != b.p {
        SameTwice(s.nodes[a], n, n0);
      }
      forall x | 0 <= x < cfg.total
        ensures Acceptor(s.nodes[x], s0.nodes[x], b, x in q, x in accepted)
                && (x != b.p ==> SameProposer(s.nodes[x], s0.nodes[x]))
      {
        assert Acceptor(t.nodes[x], s0.nodes[x], b, x in q, x in accepted - {a});
      }
      forall x | x in accepted
        ensures Voted(s.net, x, 0, b.id, b.v)
      {
        assert x != a ==> Voted(t.net, x, 0, b.id, b.v);
      }
    }
  }

  /** A quorum promises an open ballot and any part of it accepts. */
  lemma {:induction false} Round(cfg: Config, rule: Rule, s0: Sys, b: Attempt, q: set<nat>, accepted: set<nat>)
      returns (s: Sys)
    requires Open(cfg, s0, b, q) && accepted <= q && Reached(cfg, rule, s0)
    ensures Reached(cfg, rule, s) && At(cfg, s0, s, b, q, accepted)
  {
    hide Reached, At, Collected, Open;
    s := Collect(cfg, rule, s0, b, q, q);
    s := Offers(cfg, rule, s0, b, q, s);
    s := AcceptAll(cfg, rule, s0, b, q, s, accepted);
  }

  // ----- everybody begins

  function Prepared(total: nat, a: nat, round: nat): Packet {
    Packet(a, None, Prepare(0, Ballot(total, a, round), a))
  }

  /** The value that a peer's call is for; no two peers have the same. */
  function Own(a: nat): PaxosValue {
    PaxosValue(seq(a + 1, _ => 1), [], [])
  }

  lemma OwnDiffers(a: nat, x: nat)
    ensures Own(a) != ZERO_VALUE && (a != x ==> Own(a) != Own(x))
  {
    assert |Own(a).uniqID| == a + 1 && |Own(x).uniqID| == x + 1;
  }

  lemma BeginSends(cfg: Config, n: Node, a: nat, round: nat, v: PaxosValue)
    requires Clock(n) == 0
    ensures DoBegin(cfg, n, a, round, v).1 == {Prepared(cfg.total, a, round)}
  {
  }

  /** Peers of d began a round, each with its own value, and nobody else did anything. */
  ghost predicate Began(cfg: Config, s0: Sys, s: Sys, d: set<nat>, round: nat) {
    && |s0.nodes| == |s.nodes| == cfg.total && s0.net <= s.net
    && (forall a {:trigger s.nodes[a]} :: 0 <= a < cfg.total ==>
          s.nodes[a] == if a in d then DoBegin(cfg, s0.nodes[a], a, round, Own(a)).0 else s0.nodes[a])
    && (forall a {:trigger Prepared(cfg.total, a, round)} :: a in d ==> Prepared(cfg.total, a, round) in s.net)
  }

  /** A peer may begin that round, and did not take part in a later step. */
  ghost predicate Ready(rule: Rule, s: Sys, a: nat, round: nat) {
    && a < |s.nodes| && Valid(s.nodes[a].peer.paxos) && Clock(s.nodes[a]) == 0
    && Calls(s, s.nodes[a], round, Own(a)) && Permits(rule, s.nodes[a])
  }

  lemma BegunTags(cfg: Config, n: Node, a: nat, round: nat, v: PaxosValue)
    ensures DoBegin(cfg, n, a, round, v).0.tags == n.tags + {v}
  {
  }

  /** Others that begin do not keep a peer from it. */
  lemma StillReady(cfg: Config, rule: Rule, s0: Sys, s: Sys, d: set<nat>, round: nat, a: nat)
    requires Began(cfg, s0, s, d, round) && a !in d && Ready(rule, s0, a, round)
    ensures Ready(rule, s, a, round)
  {
    hide DoBegin, Own, Valid, Permits;
    forall x | 0 <= x < |s.nodes| && s0.nodes[a].call.None?
      ensures Own(a) !in s.nodes[x].tags
    {
      assert s.nodes[x] == if x in d then DoBegin(cfg, s0.nodes[x], x, round, Own(x)).0 else s0.nodes[x];
      BegunTags(cfg, s0.nodes[x], x, round, Own(x));
      OwnDiffers(a, x);
    }
    assert s.nodes[a] == s0.nodes[a];
  }

  lemma {:induction false} BeginMany(cfg: Config, rule: Rule, s0: Sys, d: set<nat>, round: nat) returns (s: Sys)
    requires Reached(cfg, rule, s0) && |s0.nodes| == cfg.total && d <= Peers(cfg.total)
    requires forall a :: a in d ==> Ready(rule, s0, a, round)
    ensures Reached(cfg, rule, s) && Began(cfg, s0, s, d, round)
    decreases |d|
  {
    hide Reached, DoBegin, Peers, Permits, Own, Calls;
    if d == {} {
      s := s0;
    } else {
      var a :| a in d;
      BeginSends(cfg, s0.nodes[a], a, round, Own(a));
      var t := BeginMany(cfg, rule, s0, d - {a}, round);
      StillReady(cfg, rule, s0, t, d - {a}, round, a);
      assert t.nodes[a] == s0.nodes[a];
      Extend(cfg, rule, t, Begin(a, round, Own(a)));
      s := Step(cfg, rule, t, Begin(a, round, Own(a)));
      assert Prepared(cfg.total, a, round) in s.net;
    }
  }

  lemma BeganGrows(cfg: Config, s0: Sys, s: Sys, d: set<nat>, round: nat)
    requires Began(cfg, s0, s, d, round)
    ensures s0.net <= s.net
  {
  }

  // ----- a reset in the middle of a step

  lemma {:induction false} PeersGrow(n: nat, m: nat)
    requires n <= m
    ensures Peers(n) <= Peers(m) && |Peers(n)| == n
  {
    PeersSize(n);
  }

  /** Only ids up to r were heard of, and no accept was counted. */
  ghost predicate Calm(n: Node, r: nat) {
    Quiet(n) && forall pkt :: pkt in n.handled ==> pkt.msg.id <= r && !pkt.msg.Accept?
  }

  lemma CalmIsValid(n: Node, r: nat)
    requires Calm(n, r)
    ensures Valid(n.peer.paxos) && Clock(n) == 0
  {
  }

  lemma {:induction false} CalmAcceptor(n: Node, b: Attempt)
    requires Calm(n, b.before) && b.before < b.id
    ensures Acceptor(n, n, b, false, false)
  {
  }

  lemma {:induction false} AcceptorCalm(n: Node, n0: Node, b: Attempt, promised: bool, accepted: bool)
    requires Acceptor(n, n0, b, promised, accepted)
    ensures Calm(n, b.id)
  {
  }

  /** A peer that begins is cleared, and waits for the promises of its id. */
  lemma {:induction false} BegunNode(cfg: Config, n: Node, b: Attempt, round: nat)
    requires Calm(n, b.before) && b.before < b.id && 0 !in n.peer.paxos.preparedFlag && cfg.threshold > 0
    requires b.id == PaxosRun.Ballot(cfg.total, b.p, round)
    ensures Collected(cfg, DoBegin(cfg, n, b.p, round, b.own).0, b, {})
  {
  }

  lemma {:induction false} BegunCalm(cfg: Config, n: Node, a: nat, round: nat, v: PaxosValue, r: nat)
    requires Calm(n, r)
    ensures var n' := DoBegin(cfg, n, a, round, v).0;
            Calm(n', r) && n'.peer.paxos.maxID == 0 && n'.peer.paxos.acceptedValue == ZERO_VALUE
            && n'.peer.paxos.preparedFlag == n.peer.paxos.preparedFlag
  {
  }

  /** Once peers of q are as cleared by a begin, an attempt begun with them is open. */
  lemma {:induction false} BegunOpens(cfg: Config, s0: Sys, s: Sys, d: set<nat>, round: nat, b: Attempt, q: set<nat>)
    requires Began(cfg, s0, s, d, round) && b.p in d && b.p < cfg.total && b.own == b.v == Own(b.p)
    requires b.id == PaxosRun.Ballot(cfg.total, b.p, round) && b.before < b.id && cfg.threshold > 0
    requires q <= Peers(cfg.total) && |q| == cfg.threshold && 0 !in s0.nodes[b.p].peer.paxos.preparedFlag
    requires forall a {:trigger s0.nodes[a]} :: 0 <= a < cfg.total ==> Calm(s0.nodes[a], b.before)
    requires forall a {:trigger s0.nodes[a]} :: a in q && a !in d ==>
               s0.nodes[a].peer.paxos.maxID < b.id && s0.nodes[a].peer.paxos.acceptedValue == ZERO_VALUE
    ensures Open(cfg, s, b, q)
  {
    hide Calm, Acceptor, Collected, DoBegin, Own;
    OwnDiffers(b.p, b.p);
    assert Prepared(cfg.total, b.p, round) in s.net;
    forall a | 0 <= a < cfg.total
      ensures Acceptor(s.nodes[a], s.nodes[a], b, false, false)
      ensures a in q ==> s.nodes[a].peer.paxos.maxID < b.id && s.nodes[a].peer.paxos.acceptedValue == ZERO_VALUE
    {
      assert Calm(s0.nodes[a], b.before);
      BegunCalm(cfg, s0.nodes[a], a, round, Own(a), b.before);
      CalmAcceptor(s.nodes[a], b);
    }
    BegunNode(cfg, s0.nodes[b.p], b, round);
  }

  /** A peer that was not asked to tag anything yet. */
  ghost predicate Uncalled(n: Node) {
    && n.call == None && n.tags == {} && n.attempted == map[]
    && n.peer.paxos.proposedValue == ZERO_VALUE && n.peer.paxos.preparedFlag == map[]
  }

  /** The first id was chosen; the peers of d have begun, and the others have not been called. */
  ghost predicate FirstDone(cfg: Config, s: Sys, d: set<nat>) {
    |s.nodes| == cfg.total && forall a {:trigger s.nodes[a]} :: 0 <= a < cfg.total ==> Voter(s.nodes[a], a, a in d)
  }

  ghost predicate Voter(n: Node, a: nat, begun: bool) {
    Calm(n, 1) && if begun then Caller(n, a) else Uncalled(n)
  }

  ghost predicate Caller(n: Node, a: nat) {
    && n.call == Some(Call(0, 0, Own(a))) && n.tags == {Own(a)}
    && (a != 0 ==> n.peer.paxos.preparedFlag == map[])
  }

  /** Peers promise and accept peer 0's first attempt. */
  lemma {:induction false} FirstChoice(cfg: Config, rule: Rule, d: set<nat>) returns (s: Sys)
    requires 0 < cfg.threshold <= cfg.total && 0 in d && d <= Peers(cfg.total)
    ensures Reached(cfg, rule, s) && FirstDone(cfg, s, d)
    ensures forall a :: a in Peers(cfg.threshold) ==> Voted(s.net, a, 0, 1, Own(0))
  {
    hide Reached, Acceptor, Open, Peers, Own, Voter, Calm, Ready;
    var s0 := Init(cfg);
    var q, b := Peers(cfg.threshold), Attempt(0, 1, 0, Own(0), Own(0), 0);
    Start(cfg, rule);
    PeersGrow(cfg.threshold, cfg.total);
    NewNode(cfg, rule);
    var s1 := BeginMany(cfg, rule, s0, d, 0);
    BegunOpens(cfg, s0, s1, d, 0, b, q);
    s := Round(cfg, rule, s1, b, q, q);
    forall a | 0 <= a < cfg.total
      ensures Voter(s.nodes[a], a, a in d)
    {
      assert Acceptor(s.nodes[a], s1.nodes[a], b, a in q, a in q);
      FirstVoter(cfg, s.nodes[a], s1.nodes[a], a, b, a in q, a in d);
    }
  }

  lemma NewNode(cfg: Config, rule: Rule)
    ensures Calm(NEW_NODE, 0) && NEW_NODE.peer.paxos.preparedFlag == map[]
    ensures forall a: nat :: a < cfg.total ==> Ready(rule, Init(cfg), a, 0)
  {
    forall a: nat | a < cfg.total
      ensures Ready(rule, Init(cfg), a, 0)
    {
      OwnDiffers(a, a);
    }
  }

  lemma FirstVoter(cfg: Config, n: Node, n1: Node, a: nat, b: Attempt, voted: bool, begun: bool)
    requires n1 == if begun then DoBegin(cfg, NEW_NODE, a, 0, Own(a)).0 else NEW_NODE
    requires Acceptor(n, n1, b, voted, voted) && b.id == 1 && b.p == 0 && (a != 0 ==> SameProposer(n, n1))
    requires a == 0 ==> begun
    ensures Voter(n, a, begun)
  {
    hide Own;
    AcceptorCalm(n, n1, b, voted, voted);
  }

  /** After peers of d' reset themselves, a quorum of them promises and accepts an attempt in the same step. */
  lemma {:induction false} SecondChoice(cfg: Config, rule: Rule, s0: Sys, d: set<nat>, d': set<nat>, round: nat,
        p: nat, q: set<nat>) returns (s: Sys)
    requires Reached(cfg, rule, s0) && FirstDone(cfg, s0, d) && cfg.threshold > 0
    requires d' <= Peers(cfg.total) && q <= d' && |q| == cfg.threshold && p in d' && p != 0
    requires PaxosRun.Ballot(cfg.total, p, round) > 1
    requires forall a :: a in d' ==> Ready(rule, s0, a, round)
    ensures Reached(cfg, rule, s) && s0.net <= s.net
    ensures |s.nodes| == cfg.total
    ensures forall a :: a in q ==> Voted(s.net, a, 0, PaxosRun.Ballot(cfg.total, p, round), Own(p))
    ensures forall a {:trigger s.nodes[a]} :: 0 <= a < cfg.total ==>
              Calm(s.nodes[a], PaxosRun.Ballot(cfg.total, p, round))
  {
    hide Reached, Open, Acceptor, Began, PaxosRun.Ballot, Peers, Ready, Calm, Own;
    var b := Attempt(p, PaxosRun.Ballot(cfg.total, p, round), 1, Own(p), Own(p), 0);
    var s1 := BeginMany(cfg, rule, s0, d', round);
    assert Voter(s0.nodes[p], p, p in d);
    BegunOpens(cfg, s0, s1, d', round, b, q);
    BeganGrows(cfg, s0, s1, d', round);
    s := RoundVotes(cfg, rule, s1, b, q, q);
  }

  lemma RoundVotes(cfg: Config, rule: Rule, s0: Sys, b: Attempt, q: set<nat>, accepted: set<nat>) returns (s: Sys)
    requires Open(cfg, s0, b, q) && Reached(cfg, rule, s0) && accepted <= q
    ensures Reached(cfg, rule, s) && At(cfg, s0, s, b, q, accepted) && s0.net <= s.net && |s.nodes| == cfg.total
    ensures forall a :: a in accepted ==> Voted(s.net, a, 0, b.id, b.v)
    ensures forall a {:trigger s.nodes[a]} :: 0 <= a < cfg.total ==> Calm(s.nodes[a], b.id)
  {
    hide Reached, Acceptor, SameProposer, Calm;
    s := Round(cfg, rule, s0, b, q, accepted);
    forall a | 0 <= a < cfg.total
      ensures Calm(s.nodes[a], b.id)
    {
      AcceptorCalm(s.nodes[a], s0.nodes[a], b, a in q, a in accepted);
    }
  }

  /** No peer was asked to tag another's value. */
  ghost predicate OwnTags(cfg: Config, s: Sys) {
    |s.nodes| == cfg.total && forall a {:trigger s.nodes[a]} :: 0 <= a < cfg.total ==> s.nodes[a].tags <= {Own(a)}
  }

  /** A peer that was not called yet may begin late, though it voted. */
  lemma LateReady(cfg: Config, rule: Rule, s: Sys, a: nat)
    requires OwnTags(cfg, s) && a < cfg.total && Uncalled(s.nodes[a]) && !rule.Early?
    requires Valid(s.nodes[a].peer.paxos) && Clock(s.nodes[a]) == 0
    ensures Ready(rule, s, a, 0)
  {
    hide Own, Valid;
    OwnDiffers(a, a);
    forall x | 0 <= x < cfg.total
      ensures Own(a) !in s.nodes[x].tags
    {
      OwnDiffers(a, x);
    }
  }

  lemma FirstLateReady(cfg: Config, rule: Rule, s: Sys, a: nat)
    requires FirstDone(cfg, s, {0}) && 0 < a < cfg.total && !rule.Early?
    ensures Ready(rule, s, a, 0)
  {
    hide Own, Ready;
    assert forall x :: 0 <= x < cfg.total ==> Voter(s.nodes[x], x, x in {0});
    LateReady(cfg, rule, s, a);
  }

  /** A peer whose time ran out may go on to the next round. */
  lemma RetryReady(cfg: Config, s: Sys, d: set<nat>, a: nat)
    requires FirstDone(cfg, s, d) && a in d && a < cfg.total
    ensures Ready(Free, s, a, 1)
  {
    hide Own;
    assert Voter(s.nodes[a], a, true);
  }

  lemma VotesChoose(cfg: Config, net: set<Packet>, net': set<Packet>, q: set<nat>, id: nat, v: PaxosValue)
    requires q <= Peers(cfg.total) && |q| >= cfg.threshold && net <= net'
    requires forall a :: a in q ==> Voted(net, a, 0, id, v)
    ensures Chosen(cfg, net', 0, id, v)
  {
    hide Peers;
    assert forall a :: a in q ==> Voted(net, a, 0, id, v) && Voted(net', a, 0, id, v);
    assert ChosenBy(cfg, net', q, 0, id, v);
  }

  /** One attempt a step, some of them late: a second value if a quorum leaves the first proposer out. */
  lemma {:induction false} LateChoice(cfg: Config) returns (s: Sys, id: nat, v: PaxosValue)
    requires 0 < cfg.threshold < cfg.total
    ensures Reached(cfg, Once, s) && Chosen(cfg, s.net, 0, 1, Own(0)) && Chosen(cfg, s.net, 0, id, v) && v != Own(0)
  {
    hide Reached, Chosen, Own, FirstDone, Ready, Peers;
    var t := cfg.threshold;
    PeersGrow(t, cfg.total);
    PeersGrow(t + 1, cfg.total);
    var s0 := FirstChoice(cfg, Once, {0});
    var late := Peers(t + 1) - {0};
    forall a | a in late
      ensures Ready(Once, s0, a, 0)
    {
      FirstLateReady(cfg, Once, s0, a);
    }
    assert |late| == t;
    s := SecondChoice(cfg, Once, s0, {0}, late, 0, t, late);
    id, v := t + 1, Own(t);
    OwnDiffers(t, 0);
    assert PaxosRun.Ballot(cfg.total, t, 0) == id;
    VotesChoose(cfg, s0.net, s.net, Peers(t), 1, Own(0));
    VotesChoose(cfg, s.net, s.net, late, id, v);
  }

  /** With retries: a second value after all ran out of time. */
  lemma {:induction false} RetriedChoice(cfg: Config) returns (s: Sys)
    requires 0 < cfg.threshold <= cfg.total && 2 <= cfg.total
    ensures Reached(cfg, Free, s) && |s.nodes| == cfg.total
    ensures forall a :: a in Peers(cfg.threshold) ==>
              Voted(s.net, a, 0, 1, Own(0)) && Voted(s.net, a, 0, cfg.total + 2, Own(1))
    ensures forall a {:trigger s.nodes[a]} :: 0 <= a < cfg.total ==> Calm(s.nodes[a], cfg.total + 2)
  {
    hide Reached, Own, FirstDone, Ready, Peers, PaxosRun.Ballot, Calm;
    PeersGrow(cfg.threshold, cfg.total);
    var all := Peers(cfg.total);
    var s0 := FirstChoice(cfg, Free, all);
    forall a | a in all
      ensures Ready(Free, s0, a, 1)
    {
      RetryReady(cfg, s0, all, a);
    }
    SecondBallot(cfg.total);
    s := SecondChoice(cfg, Free, s0, all, all, 1, 1, Peers(cfg.threshold));
  }

  lemma SecondBallot(total: nat)
    ensures PaxosRun.Ballot(total, 1, 1) == total + 2
  {
    assert PaxosRun.Ballot(total, 1, 0) == 2;
  }

  lemma {:induction false} ManyChoices(cfg: Config, rule: Rule, s: Sys, id: nat, v: PaxosValue)
    requires Reached(cfg, rule, s) && Chosen(cfg, s.net, 0, 1, Own(0)) && Chosen(cfg, s.net, 0, id, v) && v != Own(0)
    ensures !OneChoice(cfg, rule)
  {
    hide Chosen, Legal, Run, Own;
    var es :| Legal(cfg, rule, es) && Run(cfg, rule, es) == s;
  }

  /** For two peers or more, no step has two values chosen in any run exactly when peers begin before they take
      part in a step, or, if they begin at any time but once a step, when a quorum is everybody. */
  lemma {:induction false} OneChoiceIff(cfg: Config, rule: Rule)
    requires Sound(cfg) && 2 <= cfg.total && cfg.threshold <= cfg.total
    ensures OneChoice(cfg, rule) <==> rule.Early? || (rule.Once? && cfg.threshold == cfg.total)
  {
    hide Chosen, Legal, Run, Reached, Own, Peers, Calm;
    if rule.Free? {
      var s := RetriedChoice(cfg);
      var q := Peers(cfg.threshold);
      PeersGrow(cfg.threshold, cfg.total);
      OwnDiffers(1, 0);
      VotesChoose(cfg, s.net, s.net, q, 1, Own(0));
      VotesChoose(cfg, s.net, s.net, q, cfg.total + 2, Own(1));
      ManyChoices(cfg, Free, s, cfg.total + 2, Own(1));
    } else if rule.Once? && cfg.threshold < cfg.total {
      var s, id, v := LateChoice(cfg);
      ManyChoices(cfg, Once, s, id, v);
    } else {
      forall es, step, id, v, id', v' |
        Legal(cfg, rule, es) && Chosen(cfg, Run(cfg, rule, es).net, step, id, v)
              && Chosen(cfg, Run(cfg, rule, es).net, step, id', v')
        ensures v == v'
      {
        ChosenUnique(cfg, rule, es, step, id, v, id', v');
      }
    }
  }
}
