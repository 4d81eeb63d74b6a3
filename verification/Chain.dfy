/** The block store: blocks under the hex of their hash, the last hash under a key of its own. */
module Chain {
  import opened Bytes

  datatype PaxosValue = PaxosValue(uniqID: Bytes, filename: Bytes, metahash: Bytes)

  const ZERO_VALUE := PaxosValue([], [], [])

  datatype Block = Block(index: nat, value: PaxosValue, prevHash: Bytes, hash: Bytes)

  /** What a key holds: a hash, or a block in its encoded form. */
  datatype Cell = Hash(hash: Bytes) | Encoded(block: Block)

  type Store = map<Bytes, Cell>

  type HashFn = Bytes -> Bytes

  const ZERO_HASH: Bytes := Repeat(0, 32)

  /** The hex of the zero hash. */
  const LAST_BLOCK_KEY: Bytes := Repeat(48, 64)

  /** The name GetAll gives that key: the letters of LastBlockKey. */
  const LAST_BLOCK_NAME: Bytes := [76, 97, 115, 116, 66, 108, 111, 99, 107, 75, 101, 121]

  function LastHash(store: Store): Bytes {
    if LAST_BLOCK_KEY in store && store[LAST_BLOCK_KEY].Hash? then store[LAST_BLOCK_KEY].hash else ZERO_HASH
  }

  function Preimage(value: PaxosValue, step: nat, prevHash: Bytes): Bytes {
    Decimal(step) + value.uniqID + value.filename + value.metahash + prevHash
  }

  function MakeBlock(h: HashFn, value: PaxosValue, step: nat, prevHash: Bytes): Block {
    Block(step, value, prevHash, h(Preimage(value, step, prevHash)))
  }

  function GetBlock(h: HashFn, store: Store, value: PaxosValue, step: nat): Block {
    MakeBlock(h, value, step, LastHash(store))
  }

  function AddBlock(store: Store, b: Block): Store {
    store[Hex(b.hash) := Encoded(b)][LAST_BLOCK_KEY := Hash(b.hash)]
  }

  /** The store after one block per value, each made from the store before it. */
  function Built(h: HashFn, values: seq<PaxosValue>): Store {
    if values == [] then map[]
    else
      var before := Built(h, values[..|values| - 1]);
      AddBlock(before, GetBlock(h, before, values[|values| - 1], |values| - 1))
  }

  /** The same blocks as a list: block i holds value i and points to the block before it. */
  ghost predicate Chained(h: HashFn, values: seq<PaxosValue>, bs: seq<Block>) {
    |bs| == |values| && forall i {:trigger LinkedAt(h, values, bs, i)} :: 0 <= i < |bs| ==> LinkedAt(h, values, bs, i)
  }

  ghost predicate LinkedAt(h: HashFn, values: seq<PaxosValue>, bs: seq<Block>, i: nat)
    requires i < |bs| == |values|
  {
    bs[i] == MakeBlock(h, values[i], i, PrevHash(bs, i))
  }

  function PrevHash(bs: seq<Block>, i: nat): Bytes
    requires i <= |bs|
  {
    if i == 0 then ZERO_HASH else bs[i - 1].hash
  }

  function Blocks(h: HashFn, values: seq<PaxosValue>): (bs: seq<Block>)
    ensures |bs| == |values|
  {
    if values == [] then []
    else
      var n := |values| - 1;
      var before := Blocks(h, values[..n]);
      before + [MakeBlock(h, values[n], n, PrevHash(before, n))]
  }

  lemma {:induction false} BlocksChained(h: HashFn, values: seq<PaxosValue>)
    ensures Chained(h, values, Blocks(h, values))
  {
    hide Preimage;
    if values != [] {
      var n := |values| - 1;
      var before, bs := Blocks(h, values[..n]), Blocks(h, values);
      BlocksChained(h, values[..n]);
      forall i | 0 <= i < |bs|
        ensures LinkedAt(h, values, bs, i)
      {
        if i < n {
          assert LinkedAt(h, values[..n], before, i);
        }
      }
    }
  }

  /** The hash puts no two inputs of this chain together, and never yields the zero hash. */
  ghost predicate NoCollision(bs: seq<Block>) {
    && (forall i :: 0 <= i < |bs| ==> |bs[i].hash| == 32 && bs[i].hash != ZERO_HASH)
    && (forall i, j {:trigger SameInput(bs[i], bs[j])} :: 0 <= i < |bs| && 0 <= j < |bs| && bs[i].hash == bs[j].hash ==>
          SameInput(bs[i], bs[j]))
  }

  ghost predicate SameInput(a: Block, b: Block) {
    Preimage(a.value, a.index, a.prevHash) == Preimage(b.value, b.index, b.prevHash)
  }

  /** What is hashed does not delimit its parts, but it ends in the previous hash. */
  lemma {:induction false} SameTail(v: PaxosValue, i: nat, prev: Bytes, w: PaxosValue, j: nat, prev': Bytes)
    requires Preimage(v, i, prev) == Preimage(w, j, prev') && |prev| == |prev'|
    ensures prev == prev'
  {
    var a := Decimal(i) + v.uniqID + v.filename + v.metahash;
    var b := Decimal(j) + w.uniqID + w.filename + w.metahash;
    assert (a + prev)[|a|..] == prev && (b + prev')[|b|..] == prev';
  }

  /** What is hashed covers every part of a block: of two with parts of the same lengths, equal inputs have equal
      numbers, values and previous hashes. */
  lemma {:induction false} InputCoversParts(a: Block, b: Block)
    requires SameInput(a, b) && |a.prevHash| == |b.prevHash|
    requires |a.value.uniqID| == |b.value.uniqID| && |a.value.filename| == |b.value.filename|
    requires |a.value.metahash| == |b.value.metahash|
    ensures a.index == b.index && a.value == b.value && a.prevHash == b.prevHash
  {
    hide Decimal;
    var p, q := Preimage(a.value, a.index, a.prevHash), Preimage(b.value, b.index, b.prevHash);
    var d, e := Decimal(a.index), Decimal(b.index);
    var i := |d|;
    var j := i + |a.value.uniqID|;
    var k := j + |a.value.filename|;
    var l := k + |a.value.metahash|;
    assert |d| == |e|;
    assert d == p[..i] == q[..i] == e;
    DecimalInjective(a.index, b.index);
    assert a.value.uniqID == p[i..j] == q[i..j] == b.value.uniqID;
    assert a.value.filename == p[j..k] == q[j..k] == b.value.filename;
    assert a.value.metahash == p[k..l] == q[k..l] == b.value.metahash;
    assert a.prevHash == p[l..] == q[l..] == b.prevHash;
  }

  /** No two blocks of a chain share a hash. */
  lemma {:induction false} HashesDiffer(h: HashFn, values: seq<PaxosValue>, bs: seq<Block>, i: nat, j: nat)
    requires Chained(h, values, bs) && NoCollision(bs) && i < j < |bs|
    ensures bs[i].hash != bs[j].hash
  {
    if bs[i].hash == bs[j].hash {
      assert LinkedAt(h, values, bs, i) && LinkedAt(h, values, bs, j);
      assert SameInput(bs[i], bs[j]);
      SameTail(bs[i].value, i, bs[i].prevHash, bs[j].value, j, bs[j].prevHash);
      if i > 0 {
        HashesDiffer(h, values, bs, i - 1, j - 1);
      }
    }
  }

  /** Blocks of pairwise distinct hashes, so stored under distinct keys. */
  ghost predicate Distinct(bs: seq<Block>) {
    forall i, j :: 0 <= i < j < |bs| ==> bs[i].hash != bs[j].hash
  }

  /** The block cells alone. */
  function Cells(bs: seq<Block>): Store {
    if bs == [] then map[] else Cells(bs[..|bs| - 1])[Hex(bs[|bs| - 1].hash) := Encoded(bs[|bs| - 1])]
  }

  /** Every key of the block cells is the hex of a block's hash. */
  lemma {:induction false} CellKey(bs: seq<Block>, k: Bytes)
    requires k in Cells(bs)
    ensures exists i :: 0 <= i < |bs| && k == Hex(bs[i].hash)
  {
    var n := |bs| - 1;
    if k == Hex(bs[n].hash) {
    } else {
      CellKey(bs[..n], k);
      var i :| 0 <= i < n && k == Hex(bs[..n][i].hash);
      assert bs[i] == bs[..n][i];
    }
  }

  /** The last block's cell is the only one the block before did not have. */
  lemma {:induction false} LastCell(bs: seq<Block>)
    requires bs != [] && Distinct(bs)
    ensures Hex(bs[|bs| - 1].hash) !in Cells(bs[..|bs| - 1])
  {
    var n := |bs| - 1;
    if Hex(bs[n].hash) in Cells(bs[..n]) {
      CellKey(bs[..n], Hex(bs[n].hash));
      var i :| 0 <= i < n && Hex(bs[n].hash) == Hex(bs[..n][i].hash);
      HexInjective(bs[n].hash, bs[i].hash);
    }
  }

  lemma {:induction false} CellCount(bs: seq<Block>)
    requires Distinct(bs)
    ensures |Cells(bs)| == |bs|
  {
    if bs != [] {
      CellCount(bs[..|bs| - 1]);
      LastCell(bs);
    }
  }

  lemma {:induction false} CellsAdded(cells: Store, b: Block, last: Cell)
    ensures AddBlock(cells, b) == cells[Hex(b.hash) := Encoded(b)][LAST_BLOCK_KEY := Hash(b.hash)]
    ensures AddBlock(cells[LAST_BLOCK_KEY := last], b) == AddBlock(cells, b)
  {
    hide Hex;
  }

  /** The store holds the blocks of the chain and the hash of the last one, nothing else. */
  lemma {:induction false} BuiltIsCells(h: HashFn, values: seq<PaxosValue>, bs: seq<Block>)
    requires Chained(h, values, bs) && NoCollision(bs)
    ensures Built(h, values) == if bs == [] then map[] else Cells(bs)[LAST_BLOCK_KEY := Hash(bs[|bs| - 1].hash)]
    ensures LAST_BLOCK_KEY !in Cells(bs)
  {
    if bs != [] {
      var n := |bs| - 1;
      var before := bs[..n];
      assert LinkedAt(h, values, bs, n);
      forall i | 0 <= i < n
        ensures LinkedAt(h, values[..n], before, i)
      {
        assert LinkedAt(h, values, bs, i);
      }
      BuiltIsCells(h, values[..n], before);
      HexInjectiveZero(bs[n].hash);
      hide Preimage, Hex, NoCollision;
      assert GetBlock(h, Built(h, values[..n]), values[n], n) == bs[n];
      CellsAdded(Cells(before), bs[n], if n == 0 then Hash([]) else Hash(before[n - 1].hash));
    }
  }

  /** Only the zero hash would be stored under the key of the last hash. */
  lemma {:induction false} HexInjectiveZero(hash: Bytes)
    requires hash != ZERO_HASH
    ensures Hex(hash) != LAST_BLOCK_KEY
  {
    HexOfZeros(32);
    if Hex(hash) == LAST_BLOCK_KEY {
      HexInjective(hash, ZERO_HASH);
    }
  }

  lemma {:induction false} HexOfZeros(n: nat)
    ensures Hex(Repeat(0, n)) == Repeat(48, 2 * n)
  {
    if n > 0 {
      assert Repeat(0, n)[1..] == Repeat(0, n - 1);
      HexOfZeros(n - 1);
    }
  }

  /** GetAll: a copy of the store in which the key of the last hash has another name. */
  function GetAll(store: Store): Store {
    if LAST_BLOCK_KEY in store
    then (store - {LAST_BLOCK_KEY})[LAST_BLOCK_NAME := store[LAST_BLOCK_KEY]]
    else store
  }

  /** What the walk still has to visit after it is down to block k. */
  ghost predicate Walking(bs: seq<Block>, k: nat, chainMap: Store, cur: Bytes) {
    && k <= |bs| && chainMap == Cells(bs[..k])
    && (k > 0 ==> cur == bs[k - 1].hash)
  }

  lemma {:induction false} WalkStep(bs: seq<Block>, k: nat, chainMap: Store, cur: Bytes)
    requires Distinct(bs) && Walking(bs, k, chainMap, cur)
    ensures |chainMap| == k
    ensures k > 0 ==> Hex(cur) in chainMap && chainMap[Hex(cur)] == Encoded(bs[k - 1])
    ensures k > 0 ==> chainMap - {Hex(cur)} == Cells(bs[..k - 1])
  {
    var now := bs[..k];
    CellCount(now);
    if k > 0 {
      LastCell(now);
      assert now[..k - 1] == bs[..k - 1];
    }
  }

  /** The walk starts with every block to visit. */
  lemma {:induction false} WalkStart(h: HashFn, values: seq<PaxosValue>, bs: seq<Block>)
    requires Chained(h, values, bs) && NoCollision(bs)
    ensures Distinct(bs)
    ensures bs == [] ==> GetAll(Built(h, values)) == map[]
    ensures bs != [] ==> GetAll(Built(h, values)) == Cells(bs)[LAST_BLOCK_NAME := Hash(bs[|bs| - 1].hash)]
    ensures LAST_BLOCK_NAME !in Cells(bs) && |Cells(bs)| == |bs|
  {
    forall i, j | 0 <= i < j < |bs|
      ensures bs[i].hash != bs[j].hash
    {
      HashesDiffer(h, values, bs, i, j);
    }
    BuiltIsCells(h, values, bs);
    CellCount(bs);
    NameIsNoCell(bs);
    hide Preimage, NoCollision, Hex;
    if bs != [] {
      assert Cells(bs)[LAST_BLOCK_KEY := Hash(bs[|bs| - 1].hash)] - {LAST_BLOCK_KEY} == Cells(bs);
    }
  }

  lemma {:induction false} WalkFrom(h: HashFn, values: seq<PaxosValue>, bs: seq<Block>, all: Store)
    requires Chained(h, values, bs) && NoCollision(bs) && all == GetAll(Built(h, values))
    ensures Distinct(bs) && (LAST_BLOCK_NAME in all <==> bs != [])
    ensures bs != [] ==>
              && all[LAST_BLOCK_NAME] == Hash(bs[|bs| - 1].hash) && |all| == |bs| + 1
              && Walking(bs, |bs|, all - {LAST_BLOCK_NAME}, bs[|bs| - 1].hash)
              && |all - {LAST_BLOCK_NAME}| == |bs|
  {
    WalkStart(h, values, bs);
    hide NoCollision, Built, Cells, GetAll;
    if bs != [] {
      assert all - {LAST_BLOCK_NAME} == Cells(bs) && bs[..|bs|] == bs;
    }
  }

  lemma {:induction false} NameIsNoCell(bs: seq<Block>)
    ensures LAST_BLOCK_NAME !in Cells(bs)
  {
    assert LAST_BLOCK_NAME[0] == 76;
    if LAST_BLOCK_NAME in Cells(bs) {
      CellKey(bs, LAST_BLOCK_NAME);
    }
  }

  /** The list from index k on. */
  ghost predicate Filled(list: seq<PaxosValue>, values: seq<PaxosValue>, k: nat) {
    |list| == |values| && forall i :: k <= i < |values| ==> list[i] == values[i]
  }

  /** One turn of the walk: take the block under the current hash out of the map. */
  method Visit(chainMap: Store, cur: Bytes, list: seq<PaxosValue>,
               ghost h: HashFn, ghost values: seq<PaxosValue>, ghost bs: seq<Block>, ghost k: nat)
    returns (chainMap': Store, cur': Bytes, list': seq<PaxosValue>)
    requires Chained(h, values, bs) && Distinct(bs) && 0 < k <= |bs|
    requires Walking(bs, k, chainMap, cur) && Filled(list, values, k)
    ensures Walking(bs, k - 1, chainMap', cur') && Filled(list', values, k - 1)
  {
    WalkStep(bs, k, chainMap, cur);
    assert LinkedAt(h, values, bs, k - 1);
    var key := Hex(cur);
    var block := chainMap[key].block;
    list' := list[block.index := block.value];
    cur' := block.prevHash;
    chainMap' := chainMap - {key};
  }

  /** The loop of the walk, until the map is empty. */
  method Walk(chainMap0: Store, last: Bytes, ghost h: HashFn, ghost values: seq<PaxosValue>, ghost bs: seq<Block>)
    returns (list: seq<PaxosValue>)
    requires Chained(h, values, bs) && Distinct(bs) && Walking(bs, |bs|, chainMap0, last) && |chainMap0| == |bs|
    ensures list == values
  {
    var chainMap, cur := chainMap0, last;
    list := seq(|chainMap|, _ => ZERO_VALUE);
    ghost var k: nat := |bs|;
    while |chainMap| > 0
      invariant Walking(bs, k, chainMap, cur) && |chainMap| == k && Filled(list, values, k)
      decreases k
    {
      chainMap, cur, list := Visit(chainMap, cur, list, h, values, bs, k);
      k := k - 1;
      WalkStep(bs, k, chainMap, cur);
    }
  }

  /** The walk back from the last block of a store that was built by appending; on others it need not end. */
  method GetBlockchain(store: Store, ghost h: HashFn, ghost values: seq<PaxosValue>) returns (list: seq<PaxosValue>)
    requires store == Built(h, values) && NoCollision(Blocks(h, values))
    ensures list == values
  {
    ghost var bs := Blocks(h, values);
    BlocksChained(h, values);
    var chainMap := GetAll(store);
    WalkFrom(h, values, bs, chainMap);
    if LAST_BLOCK_NAME !in chainMap {
      return [];
    }
    list := Walk(chainMap - {LAST_BLOCK_NAME}, chainMap[LAST_BLOCK_NAME].hash, h, values, bs);
  }
}
