/** The threshold clock: enough blocks received for a step close it, and close at once every later step
    that was already decided. */
module Tlc {
  import opened Common
  import opened Bytes
  import opened Chain
  import opened PaxosNode

  /** A peer's Paxos state, its block and naming stores, and the blocks it announced. */
  datatype Peer = Peer(paxos: Paxos, chain: Store, naming: map<Bytes, Bytes>, sent: seq<TLC>)

  const NEW_PEER := Peer(NEW_PAXOS, map[], map[], [])

  /** The decided steps still to close. */
  function Pending(p: Paxos): set<nat> {
    set s | s in p.consensus && s >= p.clock
  }

  lemma {:induction false} AdvanceShrinks(p: Paxos, step: nat)
    requires Valid(p) && Advance(p, step).1.Some?
    ensures |Pending(Advance(p, step).0)| < |Pending(p)|
    ensures Valid(Advance(p, step).0) && Advance(p, step).0.clock == step + 1
  {
    var p' := Advance(p, step).0;
    assert Pending(p') == Pending(p) - {step};
  }

  /** Close one step: store the block and its name, announce it if this peer has not accepted a value. */
  function Close(peer: Peer, p': Paxos, b: Block, step: nat, catchUp: bool): Peer {
    var announce := !(catchUp || step in p'.acceptedMap);
    Peer(if announce then p'.(acceptedMap := p'.acceptedMap[step := b.value]) else p',
         AddBlock(peer.chain, b),
         peer.naming[b.value.filename := b.value.metahash],
         if announce then peer.sent + [TLC(step, b)] else peer.sent)
  }

  lemma CloseLeaves(peer: Peer, p': Paxos, b: Block, step: nat, catchUp: bool)
    ensures Pending(Close(peer, p', b, step, catchUp).paxos) == Pending(p')
    ensures Valid(p') ==> Valid(Close(peer, p', b, step, catchUp).paxos)
    ensures Close(peer.(paxos := p'), p', b, step, catchUp) == Close(peer, p', b, step, catchUp)
  {
  }

  function Process(peer: Peer, step: nat, catchUp: bool): (peer': Peer)
    requires Valid(peer.paxos)
    ensures Valid(peer'.paxos)
    decreases |Pending(peer.paxos)|
  {
    var (p', block) := Advance(peer.paxos, step);
    if block.None? then peer
    else
      AdvanceShrinks(peer.paxos, step);
      assert Pending(Close(peer, p', block.value, step, catchUp).paxos) == Pending(p');
      Process(Close(peer, p', block.value, step, catchUp), step + 1, true)
  }

  /** The handler of a TLC message. */
  function Hear(peer: Peer, m: TLC, threshold: nat): (peer': Peer)
    requires Valid(peer.paxos)
    ensures Valid(peer'.paxos)
  {
    Process(peer.(paxos := OnTLC(peer.paxos, m, threshold)), peer.paxos.clock, false)
  }

  function HearAll(ms: seq<TLC>, threshold: nat): (peer: Peer)
    ensures Valid(peer.paxos)
  {
    if ms == [] then NEW_PEER else Hear(HearAll(ms[..|ms| - 1], threshold), ms[|ms| - 1], threshold)
  }

  /** The handler of an accept: a value that reached the threshold is announced as the next block. */
  function HearAccept(h: HashFn, peer: Peer, m: Msg, threshold: nat): Peer
    requires m.Accept?
  {
    var (p', value) := OnAccept(peer.paxos, m, threshold);
    if value.None? then peer.(paxos := p')
    else
      peer.(paxos := p', sent := peer.sent + [TLC(p'.clock, GetBlock(h, peer.chain, value.value, p'.clock))])
  }

  // ----- what is announced when steps close

  lemma AdvanceIs(p: Paxos, step: nat)
    requires Valid(p)
    ensures var (p', block) := Advance(p, step);
            && p'.acceptedMap == p.acceptedMap && p'.tlcs == p.tlcs && p'.consensus == p.consensus
            && (block.Some? <==> step == p.clock && step in p.consensus)
            && (block.Some? ==> TlcsAt(p.tlcs, step) != [] && block.value == TlcsAt(p.tlcs, step)[0])
  {
  }

  lemma CloseAnnounces(peer: Peer, p': Paxos, b: Block, step: nat, catchUp: bool)
    ensures var next := Close(peer, p', b, step, catchUp);
            var says := !catchUp && step !in p'.acceptedMap;
            && next.sent == peer.sent + (if says then [TLC(step, b)] else [])
            && next.paxos.acceptedMap == (if says then p'.acceptedMap[step := b.value] else p'.acceptedMap)
            && next.paxos.clock == p'.clock && next.paxos.tlcs == p'.tlcs && next.paxos.consensus == p'.consensus
  {
  }

  /** A catch-up says nothing. */
  lemma {:induction false} CatchUpIsSilent(peer: Peer, step: nat)
    requires Valid(peer.paxos)
    ensures var after := Process(peer, step, true);
            after.sent == peer.sent && after.paxos.acceptedMap == peer.paxos.acceptedMap
            && after.paxos.clock >= peer.paxos.clock
    decreases |Pending(peer.paxos)|
  {
    hide Close, Advance, Pending, Valid;
    AdvanceIs(peer.paxos, step);
    var (p', block) := Advance(peer.paxos, step);
    if block.Some? {
      AdvanceShrinks(peer.paxos, step);
      CloseLeaves(peer, p', block.value, step, true);
      CloseAnnounces(peer, p', block.value, step, true);
      CatchUpIsSilent(Close(peer, p', block.value, step, true), step + 1);
    }
  }

  lemma HeardIs(p: Paxos, m: TLC, threshold: nat)
    requires Valid(p)
    ensures var p' := OnTLC(p, m, threshold);
            var received := TlcsAt(p.tlcs, p.clock) + if m.step == p.clock then [m.block] else [];
            && Valid(p') && p'.clock == p.clock && p'.acceptedMap == p.acceptedMap
            && TlcsAt(p'.tlcs, p.clock) == received
            && (p.clock in p'.consensus <==>
                  p.clock in p.consensus || (m.step == p.clock && |received| >= threshold))
  {
  }

  /** Hearing a TLC message closes the current step exactly when the step is decided then. If it does and the peer had
      accepted no value for it, the peer announces the first block it received for the step, once, and accepts its
      value; in all other cases, and for the later steps that close on the way, it announces and accepts nothing. */
  lemma {:induction false} HearAnnounces(peer: Peer, m: TLC, threshold: nat)
    requires Valid(peer.paxos)
    ensures var c, after := peer.paxos.clock, Hear(peer, m, threshold);
            var received := TlcsAt(peer.paxos.tlcs, c) + if m.step == c then [m.block] else [];
            && after.paxos.clock >= c
            && (after.paxos.clock > c <==> c in peer.paxos.consensus || (m.step == c && |received| >= threshold))
            && (after.paxos.clock > c ==> received != [])
            && if after.paxos.clock > c && c !in peer.paxos.acceptedMap then
                 && after.sent == peer.sent + [TLC(c, received[0])]
                 && after.paxos.acceptedMap == peer.paxos.acceptedMap[c := received[0].value]
               else after.sent == peer.sent && after.paxos.acceptedMap == peer.paxos.acceptedMap
  {
    hide Close, Advance, Pending, OnTLC, TlcsAt, Valid;
    var c := peer.paxos.clock;
    HeardIs(peer.paxos, m, threshold);
    var heard := peer.(paxos := OnTLC(peer.paxos, m, threshold));
    AdvanceIs(heard.paxos, c);
    var (p', block) := Advance(heard.paxos, c);
    if block.Some? {
      AdvanceShrinks(heard.paxos, c);
      CloseLeaves(heard, p', block.value, c, false);
      CloseAnnounces(heard, p', block.value, c, false);
      CatchUpIsSilent(Close(heard, p', block.value, c, false), c + 1);
    }
  }

  /** A step is decided exactly when it has enough blocks, for the value of the one received last. */
  ghost predicate LastDecides(p: Paxos, threshold: nat) {
    forall s {:trigger TlcsAt(p.tlcs, s)} ::
      var blocks := TlcsAt(p.tlcs, s);
      && (s in p.consensus <==> blocks != [] && |blocks| >= threshold)
      && (s in p.consensus ==> p.consensus[s] == blocks[|blocks| - 1].value)
  }

  lemma {:induction false} TLCDecides(p: Paxos, m: TLC, threshold: nat)
    requires LastDecides(p, threshold)
    ensures LastDecides(OnTLC(p, m, threshold), threshold)
  {
    var p' := OnTLC(p, m, threshold);
    forall s
      ensures var blocks := TlcsAt(p'.tlcs, s);
              && (s in p'.consensus <==> blocks != [] && |blocks| >= threshold)
              && (s in p'.consensus ==> p'.consensus[s] == blocks[|blocks| - 1].value)
    {
      assert |TlcsAt(p.tlcs, s)| >= 0;
    }
  }

  lemma {:induction false} ProcessDecides(peer: Peer, step: nat, catchUp: bool)
    requires Valid(peer.paxos)
    ensures var p, p' := peer.paxos, Process(peer, step, catchUp).paxos;
            p'.tlcs == p.tlcs && p'.consensus == p.consensus
    decreases |Pending(peer.paxos)|
  {
    hide Close, Advance, Pending, Valid;
    AdvanceIs(peer.paxos, step);
    var (p', block) := Advance(peer.paxos, step);
    if block.Some? {
      AdvanceShrinks(peer.paxos, step);
      CloseLeaves(peer, p', block.value, step, catchUp);
      CloseAnnounces(peer, p', block.value, step, catchUp);
      ProcessDecides(Close(peer, p', block.value, step, catchUp), step + 1, true);
    }
  }

  lemma HearDecides(peer: Peer, m: TLC, threshold: nat)
    requires Valid(peer.paxos) && LastDecides(peer.paxos, threshold)
    ensures LastDecides(Hear(peer, m, threshold).paxos, threshold)
  {
    hide Process, OnTLC;
    TLCDecides(peer.paxos, m, threshold);
    HeardIs(peer.paxos, m, threshold);
    ProcessDecides(peer.(paxos := OnTLC(peer.paxos, m, threshold)), peer.paxos.clock, false);
  }

  /** Hearing an accept announces a block exactly when its step is the current one and has, with it, a value that
      enough accepts were counted for; the block holds that value, on top of the store, under the number of the step. */
  lemma AcceptAnnounces(h: HashFn, peer: Peer, m: Msg, threshold: nat)
    requires m.Accept?
    ensures var c, after := peer.paxos.clock, HearAccept(h, peer, m, threshold);
            var settled := c in peer.paxos.acceptedMap;
            var count := (if m.value in peer.paxos.accepts then peer.paxos.accepts[m.value] else 0) + 1;
            && after.chain == peer.chain && after.naming == peer.naming && after.paxos.clock == c
            && if m.step == c && (settled || count >= threshold) then
                 var v := if settled then peer.paxos.acceptedMap[c] else m.value;
                 && after.sent == peer.sent + [TLC(c, GetBlock(h, peer.chain, v, c))]
                 && after.paxos.acceptedMap == peer.paxos.acceptedMap[c := v]
               else after.sent == peer.sent && after.paxos.acceptedMap == peer.paxos.acceptedMap
  {
    hide GetBlock;
  }

  class Learner {
    const paxos: SafePaxos
    const h: HashFn
    var chain: Store
    var naming: map<Bytes, Bytes>
    ghost var sent: seq<TLC>

    ghost function View(): Peer
      reads this, paxos
    {
      Peer(paxos.View(), chain, naming, sent)
    }

    constructor (h: HashFn)
      ensures View() == NEW_PEER && this.h == h && fresh(paxos)
    {
      this.h := h;
      paxos := new SafePaxos();
      chain, naming, sent := map[], map[], [];
    }

    /** Store the block of a step just closed, and announce it unless a value was accepted for the step. */
    method CloseStep(step: nat, catchUp: bool, b: Block)
      modifies this, paxos`acceptedMap
      ensures View() == Close(old(View()), old(paxos.View()), b, step, catchUp)
    {
      hide Hex;
      chain := chain[Hex(b.hash) := Encoded(b)];
      chain := chain[LAST_BLOCK_KEY := Hash(b.hash)];
      naming := naming[b.value.filename := b.value.metahash];
      if !(catchUp || step in paxos.acceptedMap) {
        paxos.UpdateAcceptedMap(step, b.value);
        sent := sent + [TLC(step, b)];
      }
    }

    method TLCProcess(step: nat, catchUp: bool)
      requires Valid(paxos.View())
      modifies this, paxos
      ensures View() == Process(old(View()), step, catchUp)
      decreases |Pending(paxos.View())|
    {
      hide Close, Pending, Valid;
      ghost var before := View();
      var block := paxos.GetBlockAndAdvance(step);
      if block.None? {
        return;
      }
      ghost var advanced := paxos.View();
      AdvanceShrinks(before.paxos, step);
      CloseLeaves(before, advanced, block.value, step, catchUp);
      assert View() == before.(paxos := advanced);
      CloseStep(step, catchUp, block.value);
      assert View() == Close(before, advanced, block.value, step, catchUp);
      TLCProcess(step + 1, true);
    }

    method ExecTLCMessage(tlc: TLC, threshold: nat)
      requires Valid(paxos.View())
      modifies this, paxos
      ensures View() == Hear(old(View()), tlc, threshold)
    {
      paxos.ReceiveTLC(tlc, threshold);
      TLCProcess(paxos.clock, false);
    }

    method ExecPaxosAcceptMessage(accept: Msg, threshold: nat)
      requires accept.Accept?
      modifies this`sent, paxos
      ensures View() == HearAccept(h, old(View()), accept, threshold)
    {
      var value := paxos.ReceiveAccept(accept, threshold);
      if value.None? {
        return;
      }
      sent := sent + [TLC(paxos.clock, GetBlock(h, chain, value.value, paxos.clock))];
    }
  }

  // ----- any order of delivery closes the same steps

  /** How many messages of a step were delivered. */
  function Count(ms: seq<TLC>, step: nat): (n: nat)
    ensures n == multiset(Steps(ms))[step]
  {
    if ms == [] then 0
    else
      assert Steps(ms) == Steps(ms[..|ms| - 1]) + [ms[|ms| - 1].step];
      Count(ms[..|ms| - 1], step) + if ms[|ms| - 1].step == step then 1 else 0
  }

  function Steps(ms: seq<TLC>): (s: seq<nat>)
    ensures |s| == |ms|
  {
    seq(|ms|, i requires 0 <= i < |ms| => ms[i].step)
  }

  /** A step is full once it has a threshold of messages, and at least one. */
  predicate Full(ms: seq<TLC>, threshold: nat, step: nat) {
    Count(ms, step) >= threshold && Count(ms, step) > 0
  }

  /** The longest run of full steps from the first one has length k. */
  ghost predicate FullRun(ms: seq<TLC>, threshold: nat, k: nat) {
    (forall s :: 0 <= s < k ==> Full(ms, threshold, s)) && !Full(ms, threshold, k)
  }

  /** The blocks of the first k steps, in order. */
  function ChainUpTo(blockOf: nat -> Block, k: nat): Store {
    if k == 0 then map[] else AddBlock(ChainUpTo(blockOf, k - 1), blockOf(k - 1))
  }

  function NamingUpTo(blockOf: nat -> Block, k: nat): map<Bytes, Bytes> {
    if k == 0 then map[]
    else
      var v := blockOf(k - 1).value;
      NamingUpTo(blockOf, k - 1)[v.filename := v.metahash]
  }

  ghost predicate OneBlockPerStep(ms: seq<TLC>, blockOf: nat -> Block) {
    forall i :: 0 <= i < |ms| ==> ms[i].block == blockOf(ms[i].step)
  }

  /** Of the steps not closed yet, everything delivered is kept, and the full ones are decided. */
  ghost predicate Kept(p: Paxos, ms: seq<TLC>, threshold: nat, blockOf: nat -> Block) {
    forall s: nat {:trigger KeptAt(p, ms, threshold, blockOf, s)} :: s >= p.clock ==>
          KeptAt(p, ms, threshold, blockOf, s)
  }

  ghost predicate KeptAt(p: Paxos, ms: seq<TLC>, threshold: nat, blockOf: nat -> Block, s: nat) {
    && |TlcsAt(p.tlcs, s)| == Count(ms, s)
    && (forall b :: b in TlcsAt(p.tlcs, s) ==> b == blockOf(s))
    && (s in p.consensus <==> Full(ms, threshold, s))
  }

  /** The stores hold exactly the blocks of the closed steps. */
  ghost predicate Closed(peer: Peer, blockOf: nat -> Block) {
    peer.chain == ChainUpTo(blockOf, peer.paxos.clock) && peer.naming == NamingUpTo(blockOf, peer.paxos.clock)
  }

  lemma {:induction false} HearKeeps(p: Paxos, ms: seq<TLC>, m: TLC, threshold: nat, blockOf: nat -> Block)
    requires Kept(p, ms, threshold, blockOf) && m.block == blockOf(m.step)
    ensures Kept(OnTLC(p, m, threshold), ms + [m], threshold, blockOf)
  {
    var ms', p' := ms + [m], OnTLC(p, m, threshold);
    forall s | s >= p.clock
      ensures KeptAt(p', ms', threshold, blockOf, s)
    {
      assert KeptAt(p, ms, threshold, blockOf, s);
      HearKeepsAt(p, ms, m, threshold, blockOf, s);
    }
  }

  lemma HeardAt(p: Paxos, m: TLC, threshold: nat, s: nat)
    requires s >= p.clock
    ensures var p' := OnTLC(p, m, threshold);
            && TlcsAt(p'.tlcs, s) == TlcsAt(p.tlcs, s) + (if m.step == s then [m.block] else [])
            && (s in p'.consensus <==> s in p.consensus || (m.step == s && |TlcsAt(p'.tlcs, s)| >= threshold))
  {
  }

  lemma CountSnoc(ms: seq<TLC>, m: TLC, s: nat)
    ensures Count(ms + [m], s) == Count(ms, s) + if m.step == s then 1 else 0
  {
    assert (ms + [m])[..|ms|] == ms;
  }

  lemma {:induction false} HearKeepsAt(p: Paxos, ms: seq<TLC>, m: TLC, threshold: nat, blockOf: nat -> Block, s: nat)
    requires KeptAt(p, ms, threshold, blockOf, s) && m.block == blockOf(m.step) && s >= p.clock
    ensures KeptAt(OnTLC(p, m, threshold), ms + [m], threshold, blockOf, s)
  {
    hide Count, OnTLC, TlcsAt;
    HeardAt(p, m, threshold, s);
    CountSnoc(ms, m, s);
  }

  /** Kept looks at the steps not closed yet, and there at the blocks and decisions alone. */
  lemma KeptCarries(p: Paxos, p': Paxos, ms: seq<TLC>, threshold: nat, blockOf: nat -> Block)
    requires Kept(p, ms, threshold, blockOf)
    requires p'.tlcs == p.tlcs && p'.consensus == p.consensus && p'.clock >= p.clock
    ensures Kept(p', ms, threshold, blockOf)
  {
    forall s: nat | s >= p'.clock
      ensures KeptAt(p', ms, threshold, blockOf, s)
    {
      assert KeptAt(p, ms, threshold, blockOf, s);
    }
  }

  lemma KeptNow(p: Paxos, ms: seq<TLC>, threshold: nat, blockOf: nat -> Block)
    requires Kept(p, ms, threshold, blockOf)
    ensures KeptAt(p, ms, threshold, blockOf, p.clock)
  {
  }

  /** Closing steps stops at the first one that is not full, with nothing lost. */
  lemma {:induction false} ProcessCloses(peer: Peer, catchUp: bool, ms: seq<TLC>, threshold: nat, blockOf: nat -> Block)
    requires Valid(peer.paxos) && Kept(peer.paxos, ms, threshold, blockOf) && Closed(peer, blockOf)
    requires forall s :: 0 <= s < peer.paxos.clock ==> Full(ms, threshold, s)
    ensures var peer' := Process(peer, peer.paxos.clock, catchUp);
            && Kept(peer'.paxos, ms, threshold, blockOf) && Closed(peer', blockOf)
            && FullRun(ms, threshold, peer'.paxos.clock)
    decreases |Pending(peer.paxos)|
  {
    hide Count, Full, Kept;
    var step := peer.paxos.clock;
    var (p', block) := Advance(peer.paxos, step);
    KeptNow(peer.paxos, ms, threshold, blockOf);
    if block.Some? {
      var next := Close(peer, p', block.value, step, catchUp);
      KeptCarries(peer.paxos, next.paxos, ms, threshold, blockOf);
      AdvanceShrinks(peer.paxos, step);
      assert Pending(next.paxos) == Pending(p');
      assert block.value in TlcsAt(peer.paxos.tlcs, step);
      ProcessCloses(next, true, ms, threshold, blockOf);
    }
  }

  lemma {:induction false} CountGrows(ms: seq<TLC>, m: TLC, threshold: nat, step: nat)
    requires Full(ms, threshold, step)
    ensures Full(ms + [m], threshold, step)
  {
    assert (ms + [m])[..|ms|] == ms;
  }

  lemma NothingKept(threshold: nat, blockOf: nat -> Block)
    ensures Kept(NEW_PAXOS, [], threshold, blockOf) && FullRun([], threshold, 0)
  {
  }

  lemma {:induction false} DeliveredState(ms: seq<TLC>, threshold: nat, blockOf: nat -> Block)
    requires OneBlockPerStep(ms, blockOf)
    ensures var peer := HearAll(ms, threshold);
            && Kept(peer.paxos, ms, threshold, blockOf) && Closed(peer, blockOf)
            && FullRun(ms, threshold, peer.paxos.clock)
  {
    hide Kept, Count, Full, Steps, Process;
    if ms != [] {
      var before, m := ms[..|ms| - 1], ms[|ms| - 1];
      DeliveredState(before, threshold, blockOf);
      assert before + [m] == ms;
      var peer := HearAll(before, threshold);
      HearKeeps(peer.paxos, before, m, threshold, blockOf);
      forall s | 0 <= s < peer.paxos.clock
        ensures Full(ms, threshold, s)
      {
        CountGrows(before, m, threshold, s);
      }
      ProcessCloses(peer.(paxos := OnTLC(peer.paxos, m, threshold)), false, ms, threshold, blockOf);
    } else {
      NothingKept(threshold, blockOf);
    }
  }

  lemma {:induction false} FullRunUnique(ms: seq<TLC>, ms': seq<TLC>, threshold: nat, k: nat, k': nat)
    requires FullRun(ms, threshold, k) && FullRun(ms', threshold, k') && multiset(Steps(ms)) == multiset(Steps(ms'))
    ensures k == k'
  {
    assert Count(ms, k) == Count(ms', k) && Count(ms, k') == Count(ms', k');
    assert Full(ms, threshold, k) <==> Full(ms', threshold, k);
    assert Full(ms, threshold, k') <==> Full(ms', threshold, k');
  }

  function Without(ms: seq<TLC>, i: nat): seq<TLC>
    requires i < |ms|
  {
    ms[..i] + ms[i + 1..]
  }

  lemma {:induction false} TakeOut(ms: seq<TLC>, i: nat)
    requires i < |ms|
    ensures multiset(ms) == multiset(Without(ms, i)) + multiset{ms[i]}
    ensures multiset(Steps(ms)) == multiset(Steps(Without(ms, i))) + multiset{ms[i].step}
  {
    assert ms == ms[..i] + [ms[i]] + ms[i + 1..];
    assert Steps(ms) == Steps(ms[..i]) + [ms[i].step] + Steps(ms[i + 1..]);
    assert Steps(Without(ms, i)) == Steps(ms[..i]) + Steps(ms[i + 1..]);
  }

  lemma {:induction false} StepsPermuted(ms: seq<TLC>, ms': seq<TLC>)
    requires multiset(ms) == multiset(ms')
    ensures multiset(Steps(ms)) == multiset(Steps(ms'))
    decreases |ms|
  {
    if ms == [] {
      assert |multiset(ms')| == 0;
    } else {
      assert ms[0] in multiset(ms');
      var i :| 0 <= i < |ms'| && ms'[i] == ms[0];
      TakeOut(ms, 0);
      TakeOut(ms', i);
      assert multiset(Without(ms, 0)) == multiset(ms) - multiset{ms[0]};
      assert multiset(Without(ms', i)) == multiset(ms') - multiset{ms[0]};
      StepsPermuted(Without(ms, 0), Without(ms', i));
    }
  }

  /** Whatever the order in which the same messages arrive, late and repeated ones included, the clock
      and the stores end up the same: the blocks of the longest run of full steps, in step order. */
  lemma {:induction false} Confluent(ms: seq<TLC>, ms': seq<TLC>, threshold: nat, blockOf: nat -> Block)
    requires multiset(ms) == multiset(ms') && OneBlockPerStep(ms, blockOf)
    ensures var a, b := HearAll(ms, threshold), HearAll(ms', threshold);
            && FullRun(ms, threshold, a.paxos.clock)
            && a.chain == ChainUpTo(blockOf, a.paxos.clock)
            && b.paxos.clock == a.paxos.clock && b.chain == a.chain && b.naming == a.naming
  {
    forall i | 0 <= i < |ms'|
      ensures ms'[i].block == blockOf(ms'[i].step)
    {
      assert ms'[i] in multiset(ms');
      assert ms'[i] in multiset(ms);
    }
    StepsPermuted(ms, ms');
    DeliveredState(ms, threshold, blockOf);
    DeliveredState(ms', threshold, blockOf);
    FullRunUnique(ms, ms', threshold, HearAll(ms, threshold).paxos.clock, HearAll(ms', threshold).paxos.clock);
  }

  /** Blocks that one peer chained, delivered in any order, give the store whose walk yields their values. */
  lemma {:induction false} DeliveryRebuildsChain(h: HashFn, values: seq<PaxosValue>, ms: seq<TLC>, threshold: nat)
    requires forall i :: 0 <= i < |ms| ==>
               ms[i].step < |values| && ms[i].block == Blocks(h, values)[ms[i].step]
    ensures var peer := HearAll(ms, threshold);
            peer.paxos.clock <= |values| && peer.chain == Built(h, values[..peer.paxos.clock])
  {
    var bs := Blocks(h, values);
    var blockOf: nat -> Block := (s: nat) => if s < |bs| then bs[s] else Block(0, ZERO_VALUE, [], []);
    DeliveredState(ms, threshold, blockOf);
    var k := HearAll(ms, threshold).paxos.clock;
    if k > |values| {
      assert Full(ms, threshold, |values|);
      CountsOccurring(ms, |values|);
    }
    ChainUpToIsBuilt(h, values, blockOf, k);
  }

  lemma {:induction false} CountsOccurring(ms: seq<TLC>, step: nat)
    requires Count(ms, step) > 0
    ensures exists i :: 0 <= i < |ms| && ms[i].step == step
  {
    assert step in multiset(Steps(ms));
    assert step in Steps(ms);
  }

  lemma {:induction false} ChainUpToIsBuilt(h: HashFn, values: seq<PaxosValue>, blockOf: nat -> Block, k: nat)
    requires k <= |values| && forall s :: 0 <= s < |values| ==> blockOf(s) == Blocks(h, values)[s]
    ensures ChainUpTo(blockOf, k) == Built(h, values[..k])
    ensures k > 0 ==> LastHash(ChainUpTo(blockOf, k)) == Blocks(h, values)[k - 1].hash
  {
    if k > 0 {
      ChainUpToIsBuilt(h, values, blockOf, k - 1);
      BlocksChained(h, values);
      assert LinkedAt(h, values, Blocks(h, values), k - 1);
      assert values[..k][..k - 1] == values[..k - 1];
    }
  }
}
