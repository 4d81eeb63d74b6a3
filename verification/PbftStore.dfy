/** What the block store and the name store of each HR hold at a peer, in every run. */
module PbftStore {
  import opened Common
  import opened PbftNode
  import opened PbftRun

  /** The decisions for requests of one HR, in the order in which they were made. */
  function OfHr(stored: seq<Stored>, hr: string): seq<Stored> {
    if stored == [] then []
    else
      var last := stored[|stored| - 1];
      OfHr(stored[..|stored| - 1], hr) + if last.request.idHr == hr then [last] else []
  }

  ghost predicate ZeroBytes(hash: string) {
    |hash| == 32 && forall k :: 0 <= k < 32 ==> hash[k] == 0 as char
  }

  /** The block of a decision. */
  ghost predicate BlockFor(cfg: Config, e: Stored, b: Block)
    requires cfg.total > 0
  {
    && b.index == e.id / cfg.total && b.request == e.request
    && b.hash == cfg.blockHash(e.id / cfg.total, e.request, b.prevHash)
  }

  /** And where it stands. */
  ghost predicate StandsOn(b: Block, before: seq<Block>) {
    if before == [] then ZeroBytes(b.prevHash) else b.prevHash == before[|before| - 1].hash
  }

  ghost predicate LinkedAt(cfg: Config, es: seq<Stored>, bs: seq<Block>, k: nat)
    requires cfg.total > 0 && k < |bs| == |es|
  {
    BlockFor(cfg, es[k], bs[k]) && if k == 0 then ZeroBytes(bs[k].prevHash) else bs[k].prevHash == bs[k - 1].hash
  }

  /** One block per decision, the first on 32 zero bytes and each other on the hash before it. */
  ghost predicate Linked(cfg: Config, es: seq<Stored>, bs: seq<Block>)
    requires cfg.total > 0
  {
    |bs| == |es| && forall k {:trigger LinkedAt(cfg, es, bs, k)} :: 0 <= k < |bs| ==> LinkedAt(cfg, es, bs, k)
  }

  /** The last block with a hash. */
  ghost predicate LatestBlock(bs: seq<Block>, k: nat, hash: string) {
    k < |bs| && bs[k].hash == hash && forall j :: k < j < |bs| ==> bs[j].hash != hash
  }

  /** The store of one HR holds these blocks under their hashes, no others, and the hash of the last. */
  ghost predicate Holds(chain: map<string, HrChain>, hr: string, bs: seq<Block>) {
    if bs == [] then hr !in chain
    else
      && hr in chain && chain[hr].last == Some(bs[|bs| - 1].hash)
      && (forall k :: 0 <= k < |bs| ==> bs[k].hash in chain[hr].blocks)
      && forall hash :: hash in chain[hr].blocks ==>
           exists k: nat :: LatestBlock(bs, k, hash) && chain[hr].blocks[hash] == bs[k]
  }

  /** The last decision about a file name. */
  ghost predicate LatestName(es: seq<Stored>, k: nat, filename: string) {
    && k < |es| && es[k].request.filename == filename
    && forall j :: k < j < |es| ==> es[j].request.filename != filename
  }

  /** The names of one HR are those decided, each with the metahash decided last. */
  ghost predicate Names(naming: map<string, map<string, string>>, hr: string, es: seq<Stored>) {
    if es == [] then hr !in naming
    else
      && hr in naming
      && (forall k :: 0 <= k < |es| ==> es[k].request.filename in naming[hr])
      && forall f :: f in naming[hr] ==>
           exists k: nat :: LatestName(es, k, f) && naming[hr][f] == es[k].request.metahash
  }

  ghost predicate StoreOk(cfg: Config, n: Node, hr: string)
    requires cfg.total > 0
  {
    var es := OfHr(n.stored, hr);
    Names(n.naming, hr, es) && exists bs :: Linked(cfg, es, bs) && Holds(n.chain, hr, bs)
  }

  ghost predicate StoresOk(cfg: Config, n: Node)
    requires cfg.total > 0
  {
    forall hr {:trigger StoreOk(cfg, n, hr)} :: StoreOk(cfg, n, hr)
  }

  lemma OfHrSnoc(stored: seq<Stored>, e: Stored, hr: string)
    ensures OfHr(stored + [e], hr) == OfHr(stored, hr) + if e.request.idHr == hr then [e] else []
  {
    assert (stored + [e])[..|stored|] == stored;
  }

  lemma LinkedSnoc(cfg: Config, es: seq<Stored>, bs: seq<Block>, e: Stored, b: Block)
    requires cfg.total > 0 && Linked(cfg, es, bs)
    requires BlockFor(cfg, e, b) && StandsOn(b, bs)
    ensures Linked(cfg, es + [e], bs + [b])
  {
    forall k | 0 <= k < |bs + [b]|
      ensures LinkedAt(cfg, es + [e], bs + [b], k)
    {
      if k < |bs| {
        assert LinkedAt(cfg, es, bs, k);
      }
    }
  }

  lemma HoldsSnoc(chain: map<string, HrChain>, hr: string, bs: seq<Block>, b: Block)
    requires Holds(chain, hr, bs) && b.request.idHr == hr
    ensures Holds(Append(chain, b), hr, bs + [b])
  {
    var chain', all := Append(chain, b), bs + [b];
    forall hash | hash in chain'[hr].blocks
      ensures exists k: nat :: LatestBlock(all, k, hash) && chain'[hr].blocks[hash] == all[k]
    {
      if hash == b.hash {
        assert LatestBlock(all, |bs|, hash);
      } else {
        var k: nat :| LatestBlock(bs, k, hash) && chain[hr].blocks[hash] == bs[k];
        assert LatestBlock(all, k, hash) && all[k] == bs[k];
      }
    }
  }

  lemma NamesSnoc(naming: map<string, map<string, string>>, hr: string, es: seq<Stored>, e: Stored)
    requires Names(naming, hr, es) && e.request.idHr == hr
    ensures Names(naming[hr := NamesOf(naming, hr)[e.request.filename := e.request.metahash]], hr, es + [e])
  {
    var naming' := naming[hr := NamesOf(naming, hr)[e.request.filename := e.request.metahash]];
    var all := es + [e];
    forall f | f in naming'[hr]
      ensures exists k: nat :: LatestName(all, k, f) && naming'[hr][f] == all[k].request.metahash
    {
      if f == e.request.filename {
        assert LatestName(all, |es|, f);
      } else {
        var k: nat :| LatestName(es, k, f) && naming[hr][f] == es[k].request.metahash;
        assert LatestName(all, k, f) && all[k] == es[k];
      }
    }
  }

  /** The block that is appended stands on the last one held. */
  lemma NextFor(cfg: Config, chain: map<string, HrChain>, bs: seq<Block>, e: Stored)
    requires cfg.total > 0 && Holds(chain, e.request.idHr, bs)
    ensures var b := GetBlock(cfg, chain, e.request, e.id / cfg.total);
            BlockFor(cfg, e, b) && StandsOn(b, bs) && b.request == e.request
  {
  }

  lemma DecideStores(cfg: Config, n: Node, m: Msg, counted: set<nat>)
    requires cfg.total > 0 && m.Commit? && StoresOk(cfg, n)
    ensures StoresOk(cfg, Decide(cfg, n, m, counted))
  {
    hide Holds, Names, Linked, BlockFor, NamesOf, Append, GetBlock;
    var n' := Decide(cfg, n, m, counted);
    var e := n'.stored[|n.stored|];
    assert n'.stored == n.stored + [e];
    var hr0 := e.request.idHr;
    forall hr
      ensures StoreOk(cfg, n', hr)
    {
      assert StoreOk(cfg, n, hr);
      var es := OfHr(n.stored, hr);
      var bs :| Linked(cfg, es, bs) && Holds(n.chain, hr, bs);
      OfHrSnoc(n.stored, e, hr);
      if hr == hr0 {
        var b := GetBlock(cfg, n.chain, e.request, e.id / cfg.total);
        NextFor(cfg, n.chain, bs, e);
        LinkedSnoc(cfg, es, bs, e, b);
        HoldsSnoc(n.chain, hr, bs, b);
        NamesSnoc(n.naming, hr, es, e);
        assert Linked(cfg, OfHr(n'.stored, hr), bs + [b]) && Holds(n'.chain, hr, bs + [b]);
      } else {
        OtherHr(n, n', hr, hr0, es, bs, cfg, e);
        assert es + [] == es;
        assert Linked(cfg, OfHr(n'.stored, hr), bs) && Holds(n'.chain, hr, bs);
      }
    }
  }

  lemma OtherHr(n: Node, n': Node, hr: string, hr0: string, es: seq<Stored>, bs: seq<Block>, cfg: Config, e: Stored)
    requires hr != hr0 && cfg.total > 0 && Holds(n.chain, hr, bs) && Names(n.naming, hr, es)
    requires n'.chain == Append(n.chain, GetBlock(cfg, n.chain, e.request, e.id / cfg.total)) && e.request.idHr == hr0
    requires n'.naming == n.naming[hr0 := NamesOf(n.naming, hr0)[e.request.filename := e.request.metahash]]
    ensures Holds(n'.chain, hr, bs) && Names(n'.naming, hr, es)
  {
    hide LatestBlock, LatestName, NamesOf, ChainOf;
  }

  ghost predicate SameStores(n: Node, n': Node) {
    n'.chain == n.chain && n'.naming == n.naming && n'.stored == n.stored
  }

  lemma OthersStoreNothing(cfg: Config, n: Node, m: Msg, request: Request, first: bool)
    ensures m.PrePrepare? ==> SameStores(n, OnPrePrepare(cfg, n, m).0)
    ensures m.Prepare? ==> SameStores(n, OnPrepare(cfg, n, m).0)
    ensures SameStores(n, Propose(cfg, n, request, first).0)
  {
    hide Counted, Record;
  }

  lemma CommitStoresOk(cfg: Config, n: Node, m: Msg)
    requires cfg.total > 0 && m.Commit? && StoresOk(cfg, n)
    ensures StoresOk(cfg, OnCommit(cfg, n, m).0)
  {
    hide Counted, Record, StoreOk, Decide;
    if m.src != n.addr {
      var n1 := n.(logCommit := Record(n.logCommit, m.src, m.id, m.digest));
      SameStoresOk(cfg, n, n1);
      DecideStores(cfg, n1, m, Counted(n1.logPrePrepare, n1.logCommit, m.id));
    }
  }

  lemma SameStoresOk(cfg: Config, n: Node, n': Node)
    requires cfg.total > 0 && StoresOk(cfg, n) && SameStores(n, n')
    ensures StoresOk(cfg, n')
  {
    hide Holds, Names, Linked;
    forall hr
      ensures StoreOk(cfg, n', hr)
    {
      assert StoreOk(cfg, n, hr);
    }
  }

  ghost predicate AllStores(cfg: Config, s: Sys)
    requires cfg.total > 0
  {
    |s.nodes| == cfg.total && forall i {:trigger s.nodes[i]} :: 0 <= i < cfg.total ==> StoresOk(cfg, s.nodes[i])
  }

  lemma StepStores(cfg: Config, faulty: set<nat>, s: Sys, e: Event)
    requires cfg.total > 0 && AllStores(cfg, s) && Enabled(cfg, faulty, s, e)
    ensures AllStores(cfg, Step(cfg, faulty, s, e))
  {
    hide StoresOk, OnCommit, OnPrepare, OnPrePrepare, Propose;
    var n, n' := s.nodes[e.peer], Step(cfg, faulty, s, e).nodes[e.peer];
    assert StoresOk(cfg, n);
    if e.Deliver? && e.msg.Commit? {
      CommitStoresOk(cfg, n, e.msg);
    } else {
      var m := if e.Deliver? then e.msg else Prepare("", 0, 0);
      var request := if e.Tag? then e.request else if e.Retag? then s.current[e.peer].value else ZERO_REQUEST;
      OthersStoreNothing(cfg, n, m, request, e.Tag?);
      SameStoresOk(cfg, n, n');
    }
  }

  lemma NewStores(cfg: Config, addr: nat, id: nat)
    requires cfg.total > 0
    ensures StoresOk(cfg, NewNode(addr, id))
  {
    forall hr
      ensures StoreOk(cfg, NewNode(addr, id), hr)
    {
      assert Linked(cfg, [], []);
    }
  }

  lemma {:induction false} RunStores(cfg: Config, faulty: set<nat>, es: seq<Event>)
    requires cfg.total > 0 && Legal(cfg, faulty, es)
    ensures AllStores(cfg, Run(cfg, faulty, es))
    decreases |es|
  {
    hide StoresOk, Step, Enabled, NewNode;
    if es == [] {
      forall i | 0 <= i < cfg.total
        ensures StoresOk(cfg, Init(cfg).nodes[i])
      {
        NewStores(cfg, i, i + 1);
      }
    } else {
      RunStores(cfg, faulty, es[..|es| - 1]);
      StepStores(cfg, faulty, Run(cfg, faulty, es[..|es| - 1]), es[|es| - 1]);
    }
  }

  /** No two of these blocks have one hash without being made of the same parts, and none has the zero hash. */
  ghost predicate NoCollision(bs: seq<Block>) {
    && (forall j, k :: 0 <= j < |bs| && 0 <= k < |bs| && bs[j].hash == bs[k].hash ==> bs[j].prevHash == bs[k].prevHash)
    && (forall k :: 0 <= k < |bs| ==> !ZeroBytes(bs[k].hash))
  }

  /** Equal hashes would lead back to the first block. */
  lemma {:induction false} BlocksDiffer(cfg: Config, es: seq<Stored>, bs: seq<Block>, j: nat, k: nat)
    requires cfg.total > 0 && Linked(cfg, es, bs) && NoCollision(bs) && j < k < |bs|
    ensures bs[j].hash != bs[k].hash
  {
    assert LinkedAt(cfg, es, bs, j) && LinkedAt(cfg, es, bs, k);
    if bs[j].hash == bs[k].hash {
      assert bs[j].prevHash == bs[k].prevHash == bs[k - 1].hash;
      if j > 0 {
        BlocksDiffer(cfg, es, bs, j - 1, k - 1);
      }
    }
  }

  /** Exactly these blocks, each under its hash. */
  ghost predicate Exactly(blocks: map<string, Block>, bs: seq<Block>) {
    && (forall j, k :: 0 <= j < k < |bs| ==> bs[j].hash != bs[k].hash)
    && (forall k :: 0 <= k < |bs| ==> bs[k].hash in blocks && blocks[bs[k].hash] == bs[k])
    && (forall hash :: hash in blocks ==> exists k :: 0 <= k < |bs| && bs[k].hash == hash)
  }

  lemma HoldsExactly(cfg: Config, es: seq<Stored>, chain: map<string, HrChain>, hr: string, bs: seq<Block>)
    requires cfg.total > 0 && Linked(cfg, es, bs) && bs != [] && Holds(chain, hr, bs) && NoCollision(bs)
    ensures Exactly(chain[hr].blocks, bs)
  {
    forall j, k | 0 <= j < k < |bs|
      ensures bs[j].hash != bs[k].hash
    {
      BlocksDiffer(cfg, es, bs, j, k);
    }
    forall k | 0 <= k < |bs|
      ensures chain[hr].blocks[bs[k].hash] == bs[k]
    {
      var hash := bs[k].hash;
      var l: nat :| LatestBlock(bs, l, hash) && chain[hr].blocks[hash] == bs[l];
      assert l == k;
    }
  }

  /** In every run and for every HR, a peer's store holds one block for each decision on a request of that HR, linked
      in the order of the decisions: the index is the id divided by the number of peers, the first stands on 32 zero
      bytes, each other on the hash before it. It names the hash of the last one, and without collisions it holds each
      under its hash and nothing more; the name store has each file name with the metahash decided last. */
  lemma {:induction false} StoreIsChain(cfg: Config, faulty: set<nat>, es: seq<Event>, i: nat, hr: string)
      returns (bs: seq<Block>)
    requires cfg.total > 0 && Legal(cfg, faulty, es) && i < cfg.total
    ensures |Run(cfg, faulty, es).nodes| == cfg.total
    ensures var n := Run(cfg, faulty, es).nodes[i];
            var mine := OfHr(n.stored, hr);
            && Linked(cfg, mine, bs) && Names(n.naming, hr, mine)
            && if mine == [] then hr !in n.chain
               else
                 && hr in n.chain && n.chain[hr].last == Some(bs[|bs| - 1].hash)
                 && (NoCollision(bs) ==> Exactly(n.chain[hr].blocks, bs))
  {
    hide Run, Legal, Names, LinkedAt, NoCollision, Exactly, LatestBlock;
    RunStores(cfg, faulty, es);
    var n := Run(cfg, faulty, es).nodes[i];
    assert StoresOk(cfg, n) && StoreOk(cfg, n, hr);
    var mine := OfHr(n.stored, hr);
    bs :| Linked(cfg, mine, bs) && Holds(n.chain, hr, bs);
    if bs != [] && NoCollision(bs) {
      HoldsExactly(cfg, mine, n.chain, hr, bs);
    }
  }
}
