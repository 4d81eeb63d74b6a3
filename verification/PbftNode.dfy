/** One peer's part of the three-phase vote: the log maps it keeps and what each message does to them. */
module PbftNode {
  import opened Common

  datatype Request = Request(idHr: string, filename: string, metahash: string)

  /** What a lookup of a missing request yields. */
  const ZERO_REQUEST := Request("", "", "")

  /** The signature and the view number, which never leaves 0, are not part of the model. */
  datatype Msg =
    | PrePrepare(request: Request, digest: string, id: nat, src: nat)
    | Prepare(digest: string, id: nat, src: nat)
    | Commit(digest: string, id: nat, src: nat)

  datatype Block = Block(index: nat, hash: string, request: Request, prevHash: string)

  /** The blocks of one HR, by hash, and the hash of the last one. */
  datatype HrChain = HrChain(blocks: map<string, Block>, last: Option<string>)

  /** Which block a peer stored for an id, what it had logged for that id, and whose commits it counted. */
  datatype Stored = Stored(id: nat, logged: string, request: Request, voters: set<nat>)

  /** The size of the network and the two hash functions. */
  datatype Config = Config(total: nat, digest: Request -> string, blockHash: (nat, Request, string) -> string)

  type Log = map<nat, map<nat, string>>

  datatype Node = Node(
    addr: nat,
    pbftID: nat,
    role: nat,
    state: map<nat, nat>,
    logRequest: map<string, Request>,
    logPrePrepare: map<nat, string>,
    logPrepare: Log,
    logCommit: Log,
    chain: map<string, HrChain>,
    naming: map<string, map<string, string>>,
    locked: bool,
    stored: seq<Stored>)

  datatype Result = Ok(out: set<Msg>) | DigestError | CorrespondenceError

  const ZERO_HASH: string := seq(32, _ => 0 as char)

  function NewNode(addr: nat, initID: nat): Node {
    Node(addr, initID, 0, map[], map[], map[], map[], map[], map[], map[], false, [])
  }

  function StateOf(state: map<nat, nat>, id: nat): nat {
    if id in state then state[id] else 0
  }

  /** A missing entry reads as the empty string. */
  function Lookup(row: map<nat, string>, id: nat): string {
    if id in row then row[id] else ""
  }

  function Row(log: Log, src: nat): map<nat, string> {
    if src in log then log[src] else map[]
  }

  function Record(log: Log, src: nat, id: nat, digest: string): Log {
    log[src := Row(log, src)[id := digest]]
  }

  /** The sources whose entry for an id is the given digest. */
  function Votes(log: Log, id: nat, digest: string): set<nat> {
    set src | src in log && Lookup(log[src], id) == digest
  }

  function Counted(logPrePrepare: map<nat, string>, log: Log, id: nat): set<nat> {
    if id in logPrePrepare then Votes(log, id, logPrePrepare[id]) else {}
  }

  function Threshold(total: nat): nat {
    total / 3 * 2
  }

  /** A peer whose role is 1 sends its vote under the next id. */
  function VoteID(role: nat, id: nat): nat {
    if role == 1 then id + 1 else id
  }

  /** Tag: take a fresh id on the first round only, log the request under it and announce it. */
  function Propose(cfg: Config, n: Node, request: Request, first: bool): (Node, Msg) {
    var d := cfg.digest(request);
    var id := if first then n.pbftID + cfg.total else n.pbftID;
    (n.(pbftID := id,
        state := if first then n.state[id := 0] else n.state,
        logPrePrepare := n.logPrePrepare[id := d],
        logRequest := n.logRequest[d := request]),
     PrePrepare(request, d, id, n.addr))
  }

  function Accept(n: Node, m: Msg): Node
    requires m.PrePrepare?
  {
    n.(logPrePrepare := n.logPrePrepare[m.id := m.digest],
       logRequest := n.logRequest[m.digest := m.request],
       logPrepare := Record(n.logPrepare, n.addr, m.id, m.digest))
  }

  function OnPrePrepare(cfg: Config, n: Node, m: Msg): (Node, Result)
    requires m.PrePrepare?
  {
    if m.src == n.addr then (n, Ok({}))
    else if cfg.digest(m.request) != m.digest then (n, DigestError)
    else if m.id in n.logPrePrepare && n.logPrePrepare[m.id] != m.digest then
      // this path returns with the lock still held
      (n.(locked := true), CorrespondenceError)
    else
      (Accept(n, m), Ok({Prepare(m.digest, VoteID(n.role, m.id), n.addr)}))
  }

  /** The commit vote carries the digest of the prepare that completed the count. */
  function CastCommit(n: Node, m: Msg): Node
    requires m.Prepare?
  {
    n.(state := n.state[m.id := 1], logCommit := Record(n.logCommit, n.addr, m.id, m.digest))
  }

  function OnPrepare(cfg: Config, n: Node, m: Msg): (Node, Result)
    requires m.Prepare?
  {
    if m.src == n.addr then (n, Ok({}))
    else
      var n' := n.(logPrepare := Record(n.logPrepare, m.src, m.id, m.digest));
      if |Counted(n'.logPrePrepare, n'.logPrepare, m.id)| >= Threshold(cfg.total) && StateOf(n.state, m.id) == 0 then
        (CastCommit(n', m), Ok({Commit(m.digest, VoteID(n.role, m.id), n.addr)}))
      else
        (n', Ok({}))
  }

  function ChainOf(chain: map<string, HrChain>, idHr: string): HrChain {
    if idHr in chain then chain[idHr] else HrChain(map[], None)
  }

  function GetBlock(cfg: Config, chain: map<string, HrChain>, request: Request, index: nat): Block {
    var last := ChainOf(chain, request.idHr).last;
    var prevHash := if last.Some? then last.value else ZERO_HASH;
    Block(index, cfg.blockHash(index, request, prevHash), request, prevHash)
  }

  function Append(chain: map<string, HrChain>, b: Block): map<string, HrChain> {
    var c := ChainOf(chain, b.request.idHr);
    chain[b.request.idHr := HrChain(c.blocks[b.hash := b], Some(b.hash))]
  }

  function NamesOf(naming: map<string, map<string, string>>, idHr: string): map<string, string> {
    if idHr in naming then naming[idHr] else map[]
  }

  /** What reaching the commit quorum does; the request is looked up under the digest of the
      message that completed the count, not under the logged digest the count was about. */
  function Decide(cfg: Config, n: Node, m: Msg, counted: set<nat>): Node
    requires m.Commit? && cfg.total > 0
  {
    var request := if m.digest in n.logRequest then n.logRequest[m.digest] else ZERO_REQUEST;
    var b := GetBlock(cfg, n.chain, request, m.id / cfg.total);
    n.(state := n.state[m.id := 2],
       chain := Append(n.chain, b),
       naming := n.naming[request.idHr := NamesOf(n.naming, request.idHr)[request.filename := request.metahash]],
       stored := n.stored + [Stored(m.id, Lookup(n.logPrePrepare, m.id), request, counted)])
  }

  function OnCommit(cfg: Config, n: Node, m: Msg): (Node, Result)
    requires m.Commit? && cfg.total > 0
  {
    if m.src == n.addr then (n, Ok({}))
    else
      var n' := n.(logCommit := Record(n.logCommit, m.src, m.id, m.digest));
      var counted := Counted(n'.logPrePrepare, n'.logCommit, m.id);
      if |counted| > Threshold(cfg.total) && StateOf(n'.state, m.id) == 1 then
        (Decide(cfg, n', m, counted), Ok({}))
      else
        (n', Ok({}))
  }

  /** The peer's vote logs, changed in place under its lock. */
  class SafePbft {
    const cfg: Config
    const addr: nat
    var pbftID: nat
    var role: nat
    var state: map<nat, nat>
    var logRequest: map<string, Request>
    var logPrePrepareMsg: map<nat, string>
    var logPrepareMsg: Log
    var logCommitMsg: Log
    var chain: map<string, HrChain>
    var naming: map<string, map<string, string>>
    var locked: bool
    ghost var stored: seq<Stored>

    ghost function View(): Node
      reads this
    {
      Node(addr, pbftID, role, state, logRequest, logPrePrepareMsg, logPrepareMsg, logCommitMsg,
           chain, naming, locked, stored)
    }

    constructor (cfg: Config, addr: nat, initID: nat)
      ensures this.cfg == cfg
      ensures View() == NewNode(addr, initID)
    {
      this.cfg := cfg;
      this.addr, pbftID, role, locked := addr, initID, 0, false;
      state, logRequest, logPrePrepareMsg := map[], map[], map[];
      logPrepareMsg, logCommitMsg, chain, naming := map[], map[], map[], map[];
      stored := [];
    }

    method AssignPbftID(increase: nat)
      modifies this
      ensures View() == old(View()).(pbftID := old(pbftID) + increase, state := old(state)[old(pbftID) + increase := 0])
    {
      pbftID := pbftID + increase;
      state := state[pbftID := 0];
    }

    /** One round of the loop in Tag. */
    method TagRound(request: Request, first: bool) returns (pp: Msg)
      requires !locked
      modifies this
      ensures (View(), pp) == Propose(cfg, old(View()), request, first)
    {
      if first {
        AssignPbftID(cfg.total);
      }
      var digest := cfg.digest(request);
      logPrePrepareMsg := logPrePrepareMsg[pbftID := digest];
      logRequest := logRequest[digest := request];
      pp := PrePrepare(request, digest, pbftID, addr);
    }

    method LogPrepare(src: nat, id: nat, digest: string)
      modifies this`logPrepareMsg
      ensures logPrepareMsg == Record(old(logPrepareMsg), src, id, digest)
    {
      if src !in logPrepareMsg {
        logPrepareMsg := logPrepareMsg[src := map[]];
      }
      var row: map<nat, string> := logPrepareMsg[src];
      logPrepareMsg := logPrepareMsg[src := row[id := digest]];
      assert logPrepareMsg == Record(old(logPrepareMsg), src, id, digest);
    }

    method LogCommit(src: nat, id: nat, digest: string)
      modifies this`logCommitMsg
      ensures logCommitMsg == Record(old(logCommitMsg), src, id, digest)
    {
      if src !in logCommitMsg {
        logCommitMsg := logCommitMsg[src := map[]];
      }
      var row: map<nat, string> := logCommitMsg[src];
      logCommitMsg := logCommitMsg[src := row[id := digest]];
      assert logCommitMsg == Record(old(logCommitMsg), src, id, digest);
    }

    method ExecPrePrepareMessage(pp: Msg) returns (r: Result)
      requires pp.PrePrepare? && !locked
      modifies this
      ensures (View(), r) == OnPrePrepare(cfg, old(View()), pp)
    {
      if pp.src == addr {
        return Ok({});
      }
      if cfg.digest(pp.request) != pp.digest {
        return DigestError;
      }
      if pp.id in logPrePrepareMsg && logPrePrepareMsg[pp.id] != pp.digest {
        locked := true;
        return CorrespondenceError;
      }
      logPrePrepareMsg := logPrePrepareMsg[pp.id := pp.digest];
      logRequest := logRequest[pp.digest := pp.request];
      LogPrepare(addr, pp.id, pp.digest);
      var id := pp.id;
      if role == 1 {
        id := id + 1;
      }
      r := Ok({Prepare(pp.digest, id, addr)});
    }

    /** The counting loop of the two voting handlers, over the rows of a log in any order. */
    method Count(log: Log, id: nat) returns (count: nat)
      ensures count == |Counted(logPrePrepareMsg, log, id)|
    {
      count := 0;
      var todo := log.Keys;
      ghost var seen: set<nat> := {};
      while todo != {}
        invariant todo <= log.Keys
        invariant seen == Counted(logPrePrepareMsg, log, id) - todo
        invariant count == |seen|
      {
        var src :| src in todo;
        todo := todo - {src};
        if id in logPrePrepareMsg && logPrePrepareMsg[id] == Lookup(log[src], id) {
          count := count + 1;
          seen := seen + {src};
        }
      }
      assert seen == Counted(logPrePrepareMsg, log, id);
    }

    method ExecPrepareMessage(pre: Msg) returns (r: Result)
      requires pre.Prepare? && !locked
      modifies this
      ensures (View(), r) == OnPrepare(cfg, old(View()), pre)
    {
      if pre.src == addr {
        return Ok({});
      }
      LogPrepare(pre.src, pre.id, pre.digest);
      var count := Count(logPrepareMsg, pre.id);
      r := Ok({});
      if count >= cfg.total / 3 * 2 && (pre.id !in state || state[pre.id] == 0) {
        state := state[pre.id := 1];
        LogCommit(addr, pre.id, pre.digest);
        var id := pre.id;
        if role == 1 {
          id := id + 1;
        }
        r := Ok({Commit(pre.digest, id, addr)});
      }
    }

    method GetPbftBlock(request: Request, index: nat) returns (b: Block)
      ensures b == GetBlock(cfg, chain, request, index)
    {
      var prevHash := ZERO_HASH;
      if request.idHr in chain && chain[request.idHr].last.Some? {
        prevHash := chain[request.idHr].last.value;
      }
      b := Block(index, cfg.blockHash(index, request, prevHash), request, prevHash);
    }

    /** The two writes to the HR's block store and the one to its naming store. */
    method StoreBlock(b: Block)
      modifies this`chain, this`naming
      ensures chain == Append(old(chain), b)
      ensures naming == old(naming)[b.request.idHr :=
                          NamesOf(old(naming), b.request.idHr)[b.request.filename := b.request.metahash]]
    {
      var blocks := if b.request.idHr in chain then chain[b.request.idHr].blocks else map[];
      chain := chain[b.request.idHr := HrChain(blocks[b.hash := b], Some(b.hash))];
      var names := if b.request.idHr in naming then naming[b.request.idHr] else map[];
      naming := naming[b.request.idHr := names[b.request.filename := b.request.metahash]];
    }

    method StoreDecision(c: Msg, ghost counted: set<nat>)
      requires c.Commit? && cfg.total > 0
      modifies this
      ensures View() == Decide(cfg, old(View()), c, counted)
    {
      state := state[c.id := 2];
      var request := if c.digest in logRequest then logRequest[c.digest] else ZERO_REQUEST;
      var b := GetPbftBlock(request, c.id / cfg.total);
      StoreBlock(b);
      stored := stored + [Stored(c.id, Lookup(logPrePrepareMsg, c.id), request, counted)];
    }

    method ExecCommitMessage(c: Msg) returns (r: Result)
      requires c.Commit? && !locked && cfg.total > 0
      modifies this
      ensures (View(), r) == OnCommit(cfg, old(View()), c)
    {
      if c.src == addr {
        return Ok({});
      }
      LogCommit(c.src, c.id, c.digest);
      var count := Count(logCommitMsg, c.id);
      if count > cfg.total / 3 * 2 && c.id in state && state[c.id] == 1 {
        StoreDecision(c, Counted(logPrePrepareMsg, logCommitMsg, c.id));
      }
      r := Ok({});
    }
  }
}
