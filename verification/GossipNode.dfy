/** The gossip handlers of one peer, over its rumor table and its trees. */
module GossipNode {
  import opened Common
  import opened RumorTable
  import opened PlumTree
  import opened Gossip
  import AntiEntropy

  class Gossiper {
    const me: nat
    const tree: bool
    const table: SafeRumorTable
    var trees: map<nat, Tree>
    var neighbors: set<nat>
    var held: set<nat>
    var stuck: bool
    var pending: set<(nat, nat)>
    ghost var processed: seq<Rumor>

    ghost function View(): Node
      reads this, table
    {
      Node(table.rumorTable, processed, trees, neighbors, held, stuck, pending)
    }

    function Cfg(): Config {
      Config(0, tree)
    }

    constructor (me: nat, tree: bool)
      ensures View() == NEW_NODE && this.me == me && this.tree == tree && fresh(table)
    {
      this.me, this.tree := me, tree;
      table := new SafeRumorTable();
      trees, neighbors, held, stuck, pending, processed := map[], {}, {}, false, {}, [];
    }

    method Outgoing(peers: set<nat>, m: Msg) returns (out: set<Packet>)
      ensures out == To(me, peers, m)
    {
      out := {};
      var left := peers;
      while left != {}
        invariant left <= peers && out == To(me, peers - left, m)
      {
        var p :| p in left;
        assert peers - (left - {p}) == (peers - left) + {p};
        left := left - {p};
        out := out + {Packet(me, p, m)};
      }
      assert peers - left == peers;
    }

    /** One rumor of a message; `isNew` if it was taken. */
    method ExecOneRumor(rumor: Rumor, src: nat) returns (isNew: bool, out: set<Packet>)
      requires !stuck
      modifies this, table`rumorTable
      ensures (View(), out) == HandleOne(Cfg(), old(View()), me, rumor, src)
      ensures |processed| == |old(processed)| + if isNew then 1 else 0
    {
      out := {};
      var res := table.TryToAcceptOrigin(rumor);
      isNew := res == Verdict.Process;
      if isNew {
        processed := processed + [rumor];
      }
      if res != Future && tree {
        if rumor.origin in held {
          stuck := true;
          return;
        }
        held := held + {rumor.origin};
        var t := if rumor.origin in trees then trees[rumor.origin] else NewTree(neighbors);
        var (t', to, prune) := HearRumor(t, rumor.sequence, src);
        trees := trees[rumor.origin := t'];
        if prune {
          out := {Packet(me, src, Msg.Prune(rumor.origin, rumor.sequence))};
        } else {
          pending := pending + {(rumor.origin, rumor.sequence)};
          out := Outgoing(to, Rumors([rumor]));
        }
      }
    }

    /** The loop over a message, which never ends once it waits for a lock it holds. */
    method ExecRumors(rumors: seq<Rumor>, src: nat) returns (hasNew: bool, out: set<Packet>)
      requires !stuck
      modifies this, table`rumorTable
      ensures (View(), out) == HandleAll(Cfg(), old(View()), me, rumors, src)
      ensures hasNew <==> |processed| > |old(processed)|
    {
      hasNew, out := false, {};
      var k := 0;
      while k < |rumors| && !stuck
        invariant 0 <= k <= |rumors|
        invariant (View(), out) == HandleAll(Cfg(), old(View()), me, rumors[..k], src)
        invariant |processed| >= |old(processed)| && (hasNew <==> |processed| > |old(processed)|)
      {
        assert rumors[..k + 1][..k] == rumors[..k];
        var isNew, more := ExecOneRumor(rumors[k], src);
        hasNew, out := hasNew || isNew, out + more;
        k := k + 1;
      }
      if stuck {
        StuckForGood(Cfg(), old(View()), me, rumors, k, src);
      } else {
        assert rumors[..k] == rumors;
      }
    }

    method ExecRumorMessage(rumors: seq<Rumor>, src: nat, neighbor: Option<nat>) returns (out: set<Packet>)
      requires !stuck
      modifies this, table`rumorTable
      ensures (View(), out) == OnRumors(Cfg(), old(View()), me, rumors, src, neighbor)
    {
      var hasNew;
      hasNew, out := ExecRumors(rumors, src);
      if stuck {
        return;
      }
      held := {};
      ghost var sent := out;
      if src != me && hasNew {
        var status := table.GetStatusMsg();
        out := out + {Packet(me, src, Ack(status))};
      }
      if !tree && hasNew {
        out := out + Choice(me, neighbor, Rumors(rumors));
      }
      assert out == sent + (if hasNew && src != me then {Packet(me, src, Ack(Status(table.rumorTable)))} else {})
                         + (if hasNew && !tree then Choice(me, neighbor, Rumors(rumors)) else {});
    }

    method ExecStatusMessage(theirs: map<nat, nat>, src: nat, neighbor: Option<nat>)
        returns (rumors: seq<Rumor>, out: set<Packet>)
      requires forall o: nat :: AntiEntropy.NamesOrigin(Log(table.rumorTable, o), o)
      ensures IsAnswer(rumors, table.rumorTable, theirs)
      ensures (View(), out) == OnStatus(View(), me, src, theirs, rumors, neighbor)
    {
      out := {};
      var mine := table.GetStatusMsg();
      rumors := AntiEntropy.FindMyNew(table, mine, theirs);
      if |rumors| > 0 {
        out := {Packet(me, src, Rumors(rumors))};
      }
      assert forall o: nat :: Seen(mine, o) == |Log(table.rumorTable, o)|;
      var remoteHasNew := AntiEntropy.FindRemoteNew(mine, theirs);
      if remoteHasNew {
        out := out + {Packet(me, src, Ask(mine))};
      }
      if |rumors| == 0 && !remoteHasNew && neighbor.Some? {
        out := out + {Packet(me, neighbor.value, Ask(mine))};
      }
      assert RemoteIsAhead(table.rumorTable, theirs) <==> remoteHasNew;
      assert out == (if rumors != [] then {Packet(me, src, Rumors(rumors))} else {})
                    + (if remoteHasNew then {Packet(me, src, Ask(mine))} else {})
                    + (if rumors == [] && !remoteHasNew then Choice(me, neighbor, Ask(mine)) else {});
    }

    method Broadcast(msg: string, neighbor: Option<nat>) returns (out: set<Packet>)
      modifies this, table`rumorTable
      ensures (View(), out) == OnBroadcast(Cfg(), old(View()), me, msg, neighbor)
    {
      out := {};
      var rumors := table.NewRumorsMessage(me, msg);
      if tree {
        if me in held {
          return;
        }
        var t := if me in trees then trees[me] else NewTree(neighbors);
        var (t', to) := Publish(t, rumors[0].sequence, me);
        trees := trees[me := t'];
        pending := pending + {(me, rumors[0].sequence)};
        out := Outgoing(to, Rumors(rumors));
      } else {
        out := Choice(me, neighbor, Rumors(rumors));
      }
    }
  }

  /** Once stuck, the rest of the message is not handled. */
  lemma {:induction false} StuckForGood(cfg: Config, n: Node, i: nat, rs: seq<Rumor>, k: nat, src: nat)
    requires k <= |rs| && HandleAll(cfg, n, i, rs[..k], src).0.stuck
    ensures HandleAll(cfg, n, i, rs, src) == HandleAll(cfg, n, i, rs[..k], src)
    decreases |rs|
  {
    if k == |rs| {
      assert rs[..k] == rs;
    } else {
      var before := rs[..|rs| - 1];
      assert before[..k] == rs[..k];
      StuckForGood(cfg, n, i, before, k, src);
      var kept := HandleAll(cfg, n, i, before, src);
      assert kept.1 + {} == kept.1;
    }
  }
}
