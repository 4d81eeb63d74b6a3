/** The broadcast tree of one origin: eager peers get its rumors, lazy ones are told of them and may graft. */
module PlumTree {
  import opened Common

  /** What a peer knows of one rumor. `closed` counts how often its channel was closed; `grafting` is the
      goroutine that asks the lazy peers in turn, from `index` on. */
  datatype MsgStatus = MsgStatus(received: bool, graft: bool, closed: nat, lazyPeers: seq<nat>, grafting: bool,
        index: nat)

  const NEW_STATUS := MsgStatus(false, false, 0, [], false, 0)

  /** `pushes` is history: how often each rumor was sent to the eager peers. */
  datatype Tree = Tree(eagers: set<nat>, lazys: set<nat>, msgs: map<nat, MsgStatus>, pushes: map<nat, nat>)

  function NewTree(neighbors: set<nat>): Tree {
    Tree(neighbors, {}, map[], map[])
  }

  function StatusOf(t: Tree, q: nat): MsgStatus {
    if q in t.msgs then t.msgs[q] else NEW_STATUS
  }

  function Pushes(t: Tree, q: nat): nat {
    if q in t.pushes then t.pushes[q] else 0
  }

  function MoveToLazy(t: Tree, p: nat): Tree {
    t.(eagers := t.eagers - {p}, lazys := t.lazys + {p})
  }

  function MoveToEager(t: Tree, p: nat): Tree {
    t.(eagers := t.eagers + {p}, lazys := t.lazys - {p})
  }

  function ConsiderEager(t: Tree, p: nat): Tree {
    if p in t.lazys then t else t.(eagers := t.eagers + {p})
  }

  function ConsiderLazy(t: Tree, p: nat): Tree {
    if p in t.eagers then t else t.(lazys := t.lazys + {p})
  }

  /** A peer says it has a rumor: if this peer has not, it remembers whom to ask and starts asking. */
  function HearIHave(t: Tree, q: nat, src: nat): Tree {
    var st := StatusOf(t, q);
    t.(msgs := t.msgs[q := if st.received then st
                           else st.(lazyPeers := st.lazyPeers + [src], graft := true,
                                 grafting := st.grafting || !st.graft)])
  }

  function Pushed(t: Tree, q: nat): Tree {
    t.(pushes := t.pushes[q := Pushes(t, q) + 1])
  }

  /** A rumor arrives: the first time it goes on to the other eager peers, after that its sender is pruned. */
  function HearRumor(t: Tree, q: nat, src: nat): (Tree, set<nat>, bool) {
    var st := StatusOf(t, q);
    if st.received then (ConsiderLazy(t, src).(msgs := t.msgs[q := st]), {}, true)
    else
      var t' := ConsiderEager(t, src);
      (Pushed(t', q).(msgs := t.msgs[q := st.(received := true,
            closed := if st.graft then st.closed + 1 else st.closed)]),
       t'.eagers - {src}, false)
  }

  /** The origin sends a new rumor of its own. */
  function Publish(t: Tree, q: nat, me: nat): (Tree, set<nat>) {
    (Pushed(t, q).(msgs := t.msgs[q := StatusOf(t, q).(received := true)]), t.eagers - {me})
  }

  /** The next lazy peer to ask, which becomes eager. */
  function Tick(t: Tree, q: nat): (Tree, nat)
    requires StatusOf(t, q).lazyPeers != []
  {
    var st := StatusOf(t, q);
    var index := st.index % |st.lazyPeers|;
    var peer := st.lazyPeers[index];
    (MoveToEager(t, peer).(msgs := t.msgs[q := st.(index := index + 1)]), peer)
  }

  /** The goroutine ends once the channel is closed. */
  function Finish(t: Tree, q: nat): Tree {
    t.(msgs := t.msgs[q := StatusOf(t, q).(grafting := false)])
  }

  // ----- what every step keeps

  /** Someone to ask as long as a graft is wanted; the channel closed once, when the rumor came after that. */
  predicate Coherent(st: MsgStatus, pushes: nat) {
    && (st.graft <==> st.lazyPeers != [])
    && st.closed == (if st.graft && st.received then 1 else 0)
    && (st.grafting ==> st.graft)
    && (!st.grafting && st.graft ==> st.closed == 1)
    && pushes == (if st.received then 1 else 0)
  }

  ghost predicate TreeInv(t: Tree) {
    && t.eagers !! t.lazys
    && (forall q {:trigger StatusOf(t, q)} {:trigger Pushes(t, q)} :: Coherent(StatusOf(t, q), Pushes(t, q)))
  }

  /** A step loses no peer, takes back nothing about any rumor, and starts no graft for one that has come. */
  ghost predicate Keeps(t: Tree, t': Tree) {
    && t.eagers + t.lazys <= t'.eagers + t'.lazys
    && (forall q {:trigger StatusOf(t', q)} ::
          && (StatusOf(t, q).received ==> StatusOf(t', q).received)
          && StatusOf(t, q).lazyPeers <= StatusOf(t', q).lazyPeers
          && StatusOf(t, q).closed <= StatusOf(t', q).closed
          && (StatusOf(t, q).received && !StatusOf(t, q).grafting ==> !StatusOf(t', q).grafting))
  }

  /** A prune makes its sender lazy and a graft makes its sender eager; nobody else changes sides. */
  lemma {:induction false} MovesKeep(t: Tree, p: nat)
    requires TreeInv(t)
    ensures TreeInv(MoveToLazy(t, p)) && Keeps(t, MoveToLazy(t, p))
    ensures p in MoveToLazy(t, p).lazys && t.lazys <= MoveToLazy(t, p).lazys
          && t.eagers - {p} <= MoveToLazy(t, p).eagers
    ensures TreeInv(MoveToEager(t, p)) && Keeps(t, MoveToEager(t, p))
    ensures p in MoveToEager(t, p).eagers && t.eagers <= MoveToEager(t, p).eagers
          && t.lazys - {p} <= MoveToEager(t, p).lazys
  {
    forall q
      ensures StatusOf(MoveToLazy(t, p), q) == StatusOf(t, q) == StatusOf(MoveToEager(t, p), q)
      ensures Pushes(MoveToLazy(t, p), q) == Pushes(t, q) == Pushes(MoveToEager(t, p), q)
    {
    }
  }

  /** A step that changes one rumor's status keeps the rest as they were. */
  lemma {:induction false} OneStatus(t: Tree, t': Tree, q: nat)
    requires TreeInv(t) && t'.eagers !! t'.lazys && t.eagers + t.lazys <= t'.eagers + t'.lazys
    requires t'.msgs == t.msgs[q := StatusOf(t', q)]
    requires forall r :: r != q ==> Pushes(t', r) == Pushes(t, r)
    requires Coherent(StatusOf(t', q), Pushes(t', q))
    requires StatusOf(t, q).received ==> StatusOf(t', q).received
    requires StatusOf(t, q).lazyPeers <= StatusOf(t', q).lazyPeers && StatusOf(t, q).closed <= StatusOf(t', q).closed
    requires StatusOf(t, q).received && !StatusOf(t, q).grafting ==> !StatusOf(t', q).grafting
    ensures TreeInv(t') && Keeps(t, t')
  {
    forall r
      ensures r != q ==> StatusOf(t', r) == StatusOf(t, r)
      ensures Coherent(StatusOf(t', r), Pushes(t', r))
    {
      assert Coherent(StatusOf(t, r), Pushes(t, r));
    }
  }

  /** Who announces a missing rumor is asked last of all; the announcement of one received changes nothing. */
  lemma {:induction false} IHaveKeeps(t: Tree, q: nat, src: nat)
    requires TreeInv(t)
    ensures var t' := HearIHave(t, q, src);
            && TreeInv(t') && Keeps(t, t') && t'.eagers == t.eagers && t'.lazys == t.lazys
            && if StatusOf(t, q).received then StatusOf(t', q) == StatusOf(t, q)
               else StatusOf(t', q).grafting && StatusOf(t', q).lazyPeers == StatusOf(t, q).lazyPeers + [src]
  {
    assert Coherent(StatusOf(t, q), Pushes(t, q));
    OneStatus(t, HearIHave(t, q, src), q);
  }

  /** A rumor is pushed exactly when it was not received before, and never to its sender or a lazy peer; it
      moves no known peer from one side to the other. */
  lemma {:induction false} RumorKeeps(t: Tree, q: nat, src: nat)
    requires TreeInv(t)
    ensures var (t', to, prune) := HearRumor(t, q, src);
            && TreeInv(t') && Keeps(t, t') && StatusOf(t', q).received
            && prune == StatusOf(t, q).received && (prune ==> to == {})
            && t.eagers <= t'.eagers && t.lazys <= t'.lazys && src in t'.eagers + t'.lazys
            && src !in to && to !! t'.lazys
            && (!prune ==> t'.eagers <= to + {src})
  {
    assert Coherent(StatusOf(t, q), Pushes(t, q));
    var (t', to, prune) := HearRumor(t, q, src);
    OneStatus(t, t', q);
  }

  /** Publishing keeps the tree coherent exactly when nobody was asked for that rumor before, and nobody pushed it. */
  lemma {:induction false} PublishKeepsIff(t: Tree, q: nat, me: nat)
    requires TreeInv(t)
    ensures TreeInv(Publish(t, q, me).0) <==> !StatusOf(t, q).graft && !StatusOf(t, q).received
    ensures TreeInv(Publish(t, q, me).0) ==> Keeps(t, Publish(t, q, me).0)
  {
    var t' := Publish(t, q, me).0;
    assert Coherent(StatusOf(t, q), Pushes(t, q));
    if TreeInv(t') {
      assert Coherent(StatusOf(t', q), Pushes(t', q));
    }
    if !StatusOf(t, q).graft && !StatusOf(t, q).received {
      OneStatus(t, t', q);
    }
  }

  /** The modulo of a tick is safe while a graft is wanted; the peer asked becomes eager. */
  lemma {:induction false} TickKeeps(t: Tree, q: nat)
    requires TreeInv(t) && StatusOf(t, q).grafting
    ensures StatusOf(t, q).lazyPeers != []
    ensures var (t', peer) := Tick(t, q);
            TreeInv(t') && Keeps(t, t') && peer in StatusOf(t, q).lazyPeers && peer in t'.eagers
  {
    assert Coherent(StatusOf(t, q), Pushes(t, q));
    OneStatus(t, Tick(t, q).0, q);
  }

  lemma TickIs(t: Tree, q: nat)
    requires StatusOf(t, q).lazyPeers != []
    ensures var st := StatusOf(t, q);
            var place := st.index % |st.lazyPeers|;
            && Tick(t, q).1 == st.lazyPeers[place]
            && StatusOf(Tick(t, q).0, q) == st.(index := place + 1)
  {
  }

  /** Ticks go round: k ticks after one that asked the peer at place j, the one at j + k is asked. */
  lemma {:induction false} TickTurns(t: Tree, q: nat, k: nat)
    requires StatusOf(t, q).lazyPeers != [] && k > 0
    ensures var st := StatusOf(t, q);
            var place := (st.index + k - 1) % |st.lazyPeers|;
            && Ticks(t, q, k).1 == st.lazyPeers[place]
            && StatusOf(Ticks(t, q, k).0, q).lazyPeers == st.lazyPeers
            && StatusOf(Ticks(t, q, k).0, q).index == place + 1
  {
    hide StatusOf, Tick;
    if k == 1 {
      TickIs(t, q);
    } else {
      var before, x, n := Ticks(t, q, k - 1).0, StatusOf(t, q).index + k - 2, |StatusOf(t, q).lazyPeers|;
      TickTurns(t, q, k - 1);
      assert StatusOf(before, q).index == x % n + 1;
      TickIs(before, q);
      ModNext(x, n);
      assert StatusOf(before, q).index % n == (x + 1) % n;
    }
  }

  function Ticks(t: Tree, q: nat, k: nat): (r: (Tree, nat))
    requires StatusOf(t, q).lazyPeers != [] && k > 0
    ensures StatusOf(r.0, q).lazyPeers == StatusOf(t, q).lazyPeers
  {
    if k == 1 then Tick(t, q) else Tick(Ticks(t, q, k - 1).0, q)
  }

  lemma ModNext(x: nat, n: nat)
    requires n > 0
    ensures (x % n + 1) % n == (x + 1) % n
  {
    var r := x % n + 1;
    assert x + 1 == x / n * n + r;
    if r < n {
      Remainder(x + 1, n, x / n, r);
      Remainder(r, n, 0, r);
    } else {
      assert x + 1 == (x / n + 1) * n + 0;
      Remainder(x + 1, n, x / n + 1, 0);
      Remainder(r, n, 1, 0);
    }
  }

  lemma {:induction false} FinishKeeps(t: Tree, q: nat)
    requires TreeInv(t) && StatusOf(t, q).closed > 0
    ensures TreeInv(Finish(t, q)) && Keeps(t, Finish(t, q)) && !StatusOf(Finish(t, q), q).grafting
    ensures Finish(t, q).eagers == t.eagers && Finish(t, q).lazys == t.lazys
  {
    assert Coherent(StatusOf(t, q), Pushes(t, q));
    OneStatus(t, Finish(t, q), q);
  }

  /** An announcement of a rumor that its origin has not sent yet: the channel of that graft is never closed. */
  lemma EarlyIHaveNeverCloses(neighbors: set<nat>, q: nat, src: nat, me: nat)
    ensures var t := Publish(HearIHave(NewTree(neighbors), q, src), q, me).0;
            StatusOf(t, q).grafting && StatusOf(t, q).received && StatusOf(t, q).closed == 0
            && StatusOf(HearRumor(t, q, src).0, q).closed == 0
  {
  }

  // ----- the tree in place

  class Broadcaster {
    var eagers: set<nat>
    var lazys: set<nat>
    var msgMap: map<nat, MsgStatus>
    ghost var pushes: map<nat, nat>

    ghost function View(): Tree
      reads this
    {
      Tree(eagers, lazys, msgMap, pushes)
    }

    constructor (neighbors: seq<nat>)
      ensures View() == NewTree(set p | p in neighbors)
    {
      eagers, lazys, msgMap, pushes := {}, {}, map[], map[];
      new;
      for i := 0 to |neighbors|
        invariant eagers == set p | p in neighbors[..i]
        invariant lazys == {} && msgMap == map[] && pushes == map[]
      {
        assert neighbors[..i + 1] == neighbors[..i] + [neighbors[i]];
        eagers := eagers + {neighbors[i]};
      }
      assert neighbors[..|neighbors|] == neighbors;
    }

    method ComputeIfAbsent(q: nat) returns (st: MsgStatus)
      modifies this`msgMap
      ensures st == StatusOf(old(View()), q) && msgMap == old(msgMap)[q := st]
    {
      if q !in msgMap {
        msgMap := msgMap[q := NEW_STATUS];
      }
      st := msgMap[q];
    }

    method ExecPrune(src: nat)
      modifies this`eagers, this`lazys
      ensures View() == MoveToLazy(old(View()), src)
    {
      eagers := eagers - {src};
      lazys := lazys + {src};
    }

    method ExecGraft(src: nat)
      modifies this`eagers, this`lazys
      ensures View() == MoveToEager(old(View()), src)
    {
      lazys := lazys - {src};
      eagers := eagers + {src};
    }

    method ExecIHave(q: nat, src: nat)
      modifies this`msgMap
      ensures View() == HearIHave(old(View()), q, src)
    {
      var st := ComputeIfAbsent(q);
      if !st.received {
        st := st.(lazyPeers := st.lazyPeers + [src]);
        if !st.graft {
          st := st.(graft := true, grafting := true);
        }
        msgMap := msgMap[q := st];
      }
    }

    /** The eager peers to send to, all but one. */
    method EagerBut(peer: nat) returns (to: set<nat>)
      ensures to == eagers - {peer}
    {
      to := {};
      var left := eagers;
      while left != {}
        invariant left <= eagers && to == eagers - left - {peer}
      {
        var p :| p in left;
        left := left - {p};
        if p != peer {
          to := to + {p};
        }
      }
    }

    method ExecRumor(q: nat, src: nat) returns (to: set<nat>, prune: bool)
      modifies this
      ensures (View(), to, prune) == HearRumor(old(View()), q, src)
    {
      var st := ComputeIfAbsent(q);
      to, prune := {}, false;
      if !st.received {
        if src !in lazys {
          eagers := eagers + {src};
        }
        st := st.(received := true);
        if st.graft {
          st := st.(closed := st.closed + 1);
        }
        msgMap := msgMap[q := st];
        to := EagerBut(src);
        pushes := pushes[q := Pushes(View(), q) + 1];
        assert msgMap == old(msgMap)[q := st];
      } else {
        if src !in eagers {
          lazys := lazys + {src};
        }
        prune := true;
      }
    }

    method Broadcast(q: nat, me: nat) returns (to: set<nat>)
      modifies this`msgMap, this`pushes
      ensures (View(), to) == Publish(old(View()), q, me)
    {
      var st := ComputeIfAbsent(q);
      st := st.(received := true);
      msgMap := msgMap[q := st];
      to := EagerBut(me);
      pushes := pushes[q := Pushes(View(), q) + 1];
      assert msgMap == old(msgMap)[q := st];
    }

    /** One turn of the graft loop. */
    method GraftTick(q: nat) returns (peer: nat)
      requires StatusOf(View(), q).lazyPeers != []
      modifies this`eagers, this`lazys, this`msgMap
      ensures (View(), peer) == Tick(old(View()), q)
    {
      var st := msgMap[q];
      var index := st.index % |st.lazyPeers|;
      peer := st.lazyPeers[index];
      msgMap := msgMap[q := st.(index := index + 1)];
      lazys := lazys - {peer};
      eagers := eagers + {peer};
    }
  }
}
