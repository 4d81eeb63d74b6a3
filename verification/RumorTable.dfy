/** The rumors a peer holds by origin: as a log that takes only the next one, or as a buffer that reorders. */
module RumorTable {
  import opened Common

  /** A message of an origin, numbered from 1. */
  datatype Rumor = Rumor(origin: nat, sequence: nat, msg: Option<string>)

  const ZERO_RUMOR := Rumor(0, 0, None)

  type Logs = map<nat, seq<Rumor>>

  datatype Verdict = Process | Prune | Future

  function Log(t: Logs, origin: nat): seq<Rumor> {
    if origin in t then t[origin] else []
  }

  /** A rumor is taken only if it is the next one of its origin. */
  function AcceptOrigin(t: Logs, r: Rumor): (Logs, Verdict) {
    var next := |Log(t, r.origin)| + 1;
    if next == r.sequence then (t[r.origin := Log(t, r.origin) + [r]], Process)
    else if next > r.sequence then (t, Prune)
    else (t, Future)
  }

  function NextRumor(t: Logs, origin: nat, msg: string): Rumor {
    Rumor(origin, |Log(t, origin)| + 1, Some(msg))
  }

  function Status(t: Logs): map<nat, nat> {
    map o | o in t :: |t[o]|
  }

  /** What a peer holds in the buffer of one origin: the slots, how many it handed on, and the highest seen. */
  datatype Buffer = Buffer(table: seq<Rumor>, cur: nat, rev: nat)

  const SIZE := 1000

  function NewBuffer(): (b: Buffer)
    ensures |b.table| == SIZE && b.cur == b.rev == 0 && forall k :: 0 <= k < SIZE ==> b.table[k] == ZERO_RUMOR
  {
    Buffer(seq(SIZE, _ => ZERO_RUMOR), 0, 0)
  }

  /** The first empty slot from pos on, up to the last slot the scan looks at. */
  function Gap(table: seq<Rumor>, pos: nat, last: nat): (g: nat)
    requires pos <= last + 1 && last < |table|
    ensures pos <= g <= last + 1
    ensures forall k :: pos <= k < g ==> table[k] != ZERO_RUMOR
    ensures g <= last ==> table[g] == ZERO_RUMOR
    decreases last + 1 - pos
  {
    if pos > last || table[pos] == ZERO_RUMOR then pos else Gap(table, pos + 1, last)
  }

  function Store(b: Buffer, r: Rumor): Buffer
    requires 1 <= r.sequence <= |b.table|
  {
    b.(table := b.table[r.sequence - 1 := r], rev := if r.sequence > b.rev then r.sequence else b.rev)
  }

  /** What an arriving rumor hands on; None where an index is out of bounds. */
  function Insert(b: Buffer, r: Rumor): (Buffer, Option<seq<Rumor>>)
    requires |b.table| == SIZE && b.rev <= SIZE
  {
    if !(1 <= r.sequence <= SIZE) then (b, None)
    else
      var b' := Store(b, r);
      if b.cur + 1 != r.sequence then (b', Some([]))
      else
        var last := if b'.rev < SIZE then b'.rev else SIZE - 1;
        var g := Gap(b'.table, b.cur, last);
        if g <= last then (b'.(cur := g), Some(b'.table[b.cur..g]))
        else if b'.rev < SIZE then (b', Some([]))
        else (b', None)
  }

  class SafeRumorTable {
    var rumorTable: map<nat, seq<Rumor>>
    var curSeq: map<nat, nat>
    var revSeq: map<nat, nat>

    /** The tables of a peer that reorders: every origin has a full buffer and both counters. */
    ghost predicate Buffering()
      reads this
    {
      && curSeq.Keys == revSeq.Keys == rumorTable.Keys
      && (forall o :: o in rumorTable ==> |rumorTable[o]| == SIZE && curSeq[o] <= SIZE && revSeq[o] <= SIZE)
    }

    function BufferOf(origin: nat): Buffer
      reads this
    {
      if origin in rumorTable && origin in curSeq && origin in revSeq
      then Buffer(rumorTable[origin], curSeq[origin], revSeq[origin])
      else NewBuffer()
    }

    constructor ()
      ensures rumorTable == map[] && curSeq == map[] && revSeq == map[]
    {
      rumorTable, curSeq, revSeq := map[], map[], map[];
    }

    method TryToAcceptOrigin(rumor: Rumor) returns (res: Verdict)
      modifies this`rumorTable
      ensures (rumorTable, res) == AcceptOrigin(old(rumorTable), rumor)
    {
      var log := Log(rumorTable, rumor.origin);
      if |log| + 1 == rumor.sequence {
        rumorTable := rumorTable[rumor.origin := log + [rumor]];
        res := Process;
      } else if |log| + 1 > rumor.sequence {
        res := Prune;
      } else {
        res := Future;
      }
    }

    method NewRumorsMessage(origin: nat, msg: string) returns (rumors: seq<Rumor>)
      modifies this`rumorTable
      ensures rumors == [NextRumor(old(rumorTable), origin, msg)]
      ensures rumorTable == old(rumorTable)[origin := Log(old(rumorTable), origin) + rumors]
    {
      var log := Log(rumorTable, origin);
      var rumor := Rumor(origin, |log| + 1, Some(msg));
      rumorTable := rumorTable[origin := log + [rumor]];
      rumors := [rumor];
    }

    method GetStatusMsg() returns (status: map<nat, nat>)
      ensures status == Status(rumorTable)
    {
      status := map[];
      var keys := rumorTable.Keys;
      while keys != {}
        invariant keys <= rumorTable.Keys
        invariant status.Keys == rumorTable.Keys - keys
        invariant forall o :: o in status ==> status[o] == |rumorTable[o]|
      {
        var key :| key in keys;
        status := status[key := |rumorTable[key]|];
        keys := keys - {key};
      }
    }

    method GetInterval(origin: nat, from: nat, to: nat) returns (res: seq<Rumor>)
      requires from <= to <= |Log(rumorTable, origin)|
      ensures res == Log(rumorTable, origin)[from..to]
    {
      res := Log(rumorTable, origin)[from..to];
    }

    /** Keep the rumor in its slot and hand on what has become contiguous; `panics` if an index is out of bounds. */
    method TryToAccept(rumor: Rumor) returns (res: seq<Rumor>, panics: bool)
      requires Buffering()
      modifies this
      ensures Buffering()
      ensures var (b, out) := Insert(old(BufferOf(rumor.origin)), rumor);
              && BufferOf(rumor.origin) == b
              && out == if panics then None else Some(res)
      ensures forall o :: o != rumor.origin ==> BufferOf(o) == old(BufferOf(o))
    {
      var origin := rumor.origin;
      var before := if origin in rumorTable then Buffer(rumorTable[origin], curSeq[origin],
            revSeq[origin]) else NewBuffer();
      var after;
      after, res, panics := Place(before, rumor);
      rumorTable, curSeq, revSeq :=
        rumorTable[origin := after.table], curSeq[origin := after.cur], revSeq[origin := after.rev];
    }

    static method Place(b: Buffer, rumor: Rumor) returns (b': Buffer, res: seq<Rumor>, panics: bool)
      requires |b.table| == SIZE && b.cur <= SIZE && b.rev <= SIZE
      ensures (b', if panics then None else Some(res)) == Insert(b, rumor)
      ensures |b'.table| == SIZE && b'.cur <= SIZE && b'.rev <= SIZE
    {
      var sequence := rumor.sequence;
      b', res, panics := b, [], sequence == 0 || sequence > SIZE;
      if !panics {
        b' := b.(table := b.table[sequence - 1 := rumor], rev := if sequence > b.rev then sequence else b.rev);
        if b.cur + 1 == sequence {
          var pos;
          pos, panics := Scan(b'.table, b.cur, b'.rev);
          if pos <= b'.rev && !panics {
            res := b'.table[b.cur..pos];
            b' := b'.(cur := pos);
          }
        }
      }
    }

    /** Look for an empty slot from cur up to rev; beyond the last slot the index is out of bounds. */
    static method Scan(slots: seq<Rumor>, cur: nat, rev: nat) returns (pos: nat, panics: bool)
      requires |slots| == SIZE && cur < SIZE && cur <= rev <= SIZE
      ensures var last := if rev < SIZE then rev else SIZE - 1;
              pos == Gap(slots, cur, last) && (panics <==> pos > last && rev == SIZE)
    {
      ghost var last := if rev < SIZE then rev else SIZE - 1;
      pos, panics := cur, false;
      while pos <= rev
        invariant cur <= pos <= last + 1
        invariant Gap(slots, cur, last) == Gap(slots, pos, last)
      {
        if pos == SIZE {
          panics := true;
          return;
        }
        if slots[pos] == ZERO_RUMOR {
          return;
        }
        pos := pos + 1;
      }
    }
  }

  // ----- arrivals in any order

  /** The buffer after some arrivals of one origin, what it handed on, and whether every index was in bounds. */
  datatype Arrivals = Arrivals(buffer: Buffer, out: seq<Rumor>, ok: bool)

  function Arrive(rs: seq<Rumor>): (a: Arrivals)
    ensures |a.buffer.table| == SIZE && a.buffer.rev <= SIZE
  {
    if rs == [] then Arrivals(NewBuffer(), [], true)
    else
      var a := Arrive(rs[..|rs| - 1]);
      var insert := Insert(a.buffer, rs[|rs| - 1]);
      if !a.ok then a
      else if insert.1.None? then Arrivals(insert.0, a.out, false)
      else Arrivals(insert.0, a.out + insert.1.value, true)
  }

  ghost predicate Came(rs: seq<Rumor>, s: nat) {
    exists k :: 0 <= k < |rs| && rs[k].sequence == s
  }

  /** The rumors numbered from + 1 to to, once each, in that order, each as it came. */
  ghost predicate InOrder(out: seq<Rumor>, rs: seq<Rumor>, from: nat, to: nat) {
    from + |out| == to && forall k :: 0 <= k < |out| ==> out[k].sequence == from + k + 1 && out[k] in rs
  }

  /** The slots hold what came, and those handed on are full. */
  ghost predicate Slots(b: Buffer, rs: seq<Rumor>) {
    && |b.table| == SIZE && b.cur <= b.rev <= SIZE && b.cur < SIZE
    && (forall k :: 0 <= k < SIZE && b.table[k] != ZERO_RUMOR ==> b.table[k] in rs && b.table[k].sequence == k + 1)
    && (forall j :: 0 <= j < |rs| ==> 1 <= rs[j].sequence <= b.rev && b.table[rs[j].sequence - 1] != ZERO_RUMOR)
    && (forall k :: 0 <= k < b.cur ==> b.table[k] != ZERO_RUMOR)
  }

  /** And the contiguous part ends where the buffer stands. */
  ghost predicate Buffered(b: Buffer, rs: seq<Rumor>) {
    Slots(b, rs) && b.table[b.cur] == ZERO_RUMOR
  }

  lemma {:induction false} StoreKeeps(b: Buffer, rs: seq<Rumor>, r: Rumor)
    requires Buffered(b, rs) && 1 <= r.sequence <= SIZE
    ensures Slots(Store(b, r), rs + [r])
    ensures b.cur + 1 != r.sequence ==> Buffered(Store(b, r), rs + [r])
  {
    var b', all := Store(b, r), rs + [r];
    forall k | 0 <= k < SIZE && b'.table[k] != ZERO_RUMOR
      ensures b'.table[k] in all && b'.table[k].sequence == k + 1
    {
      if k != r.sequence - 1 {
        assert b.table[k] in rs;
      } else {
        assert all[|rs|] == r;
      }
    }
    forall j | 0 <= j < |all|
      ensures 1 <= all[j].sequence <= b'.rev && b'.table[all[j].sequence - 1] != ZERO_RUMOR
    {
      assert j < |rs| ==> all[j] == rs[j];
    }
  }

  lemma {:induction false} InsertKeeps(b: Buffer, rs: seq<Rumor>, r: Rumor)
    requires Buffered(b, rs) && 1 <= r.sequence <= SIZE
    ensures var (b', more) := Insert(b, r);
            && (more.None? ==> forall s :: 1 <= s <= SIZE ==> Came(rs + [r], s))
            && (more.Some? ==> Buffered(b', rs + [r]) && InOrder(more.value, rs + [r], b.cur, b'.cur))
  {
    var b1 := Store(b, r);
    StoreKeeps(b, rs, r);
    assert b1.rev < SIZE ==> b1.table[b1.rev] == ZERO_RUMOR;
    if b.cur + 1 == r.sequence && Insert(b, r).1.None? {
      FullCame(b1, rs + [r]);
    }
  }

  lemma {:induction false} FullCame(b: Buffer, rs: seq<Rumor>)
    requires |b.table| == SIZE && forall k :: 0 <= k < SIZE ==> b.table[k] in rs && b.table[k].sequence == k + 1
    ensures forall s :: 1 <= s <= SIZE ==> Came(rs, s)
  {
    forall s: nat | 1 <= s <= SIZE
      ensures Came(rs, s)
    {
      assert b.table[s - 1] in rs;
    }
  }

  ghost predicate InRange(rs: seq<Rumor>) {
    forall r :: r in rs ==> 1 <= r.sequence <= SIZE
  }

  /** Whatever comes, in whatever order and however often, every index is in bounds exactly when all sequence
      numbers are from 1 to the size of the buffer and not all of those came; then what was handed on is the
      longest contiguous run of what came, once each and in sequence. */
  lemma {:induction false} Reorders(rs: seq<Rumor>)
    ensures var Arrivals(b, out, ok) := Arrive(rs);
            && (ok <==> InRange(rs) && exists s :: 1 <= s <= SIZE && !Came(rs, s))
            && (ok ==> Buffered(b, rs) && InOrder(out, rs, 0, b.cur) && (forall s :: 1 <= s <= b.cur ==> Came(rs, s))
                       && !Came(rs, b.cur + 1))
  {
    hide Insert, Slots, InOrder;
    if rs == [] {
      NothingCame();
    } else {
      var before, r := rs[..|rs| - 1], rs[|rs| - 1];
      assert before + [r] == rs;
      Reorders(before);
      var a := Arrive(before);
      InRangeSnoc(before, r);
      if a.ok && 1 <= r.sequence <= SIZE {
        InsertKeeps(a.buffer, before, r);
        var (b', more) := Insert(a.buffer, r);
        if more.Some? {
          CameIsPrefix(b', rs);
          InOrderJoins(a.out, before, a.buffer.cur, more.value, rs, b'.cur);
        }
      } else if a.ok {
        OutOfBounds(a.buffer, r);
      } else if InRange(before) {
        forall s | 1 <= s <= SIZE
          ensures Came(rs, s)
        {
          assert Came(before, s);
        }
      }
    }
  }

  lemma InRangeSnoc(before: seq<Rumor>, r: Rumor)
    ensures InRange(before + [r]) <==> InRange(before) && 1 <= r.sequence <= SIZE
  {
    assert (before + [r])[|before|] == r;
  }

  lemma OutOfBounds(b: Buffer, r: Rumor)
    requires |b.table| == SIZE && b.rev <= SIZE && !(1 <= r.sequence <= SIZE)
    ensures Insert(b, r).1.None?
  {
  }

  lemma {:induction false} InOrderJoins(out: seq<Rumor>, before: seq<Rumor>, mid: nat, more: seq<Rumor>,
        rs: seq<Rumor>, to: nat)
    requires InOrder(out, before, 0, mid) && InOrder(more, rs, mid, to) && before <= rs
    ensures InOrder(out + more, rs, 0, to)
  {
    forall k | 0 <= k < |out + more|
      ensures (out + more)[k].sequence == k + 1 && (out + more)[k] in rs
    {
      if k < |out| {
        assert out[k] in before;
        assert out[k] in rs;
      } else {
        assert (out + more)[k] == more[k - |out|];
      }
    }
  }

  lemma NothingCame()
    ensures Buffered(NewBuffer(), []) && InOrder([], [], 0, 0) && !Came([], 1)
  {
  }

  lemma {:induction false} CameIsPrefix(b: Buffer, rs: seq<Rumor>)
    requires Buffered(b, rs)
    ensures b.cur < SIZE && (forall s :: 1 <= s <= b.cur ==> Came(rs, s)) && !Came(rs, b.cur + 1)
  {
    forall s: nat | 1 <= s <= b.cur
      ensures Came(rs, s)
    {
      assert b.table[s - 1] in rs;
    }
  }
}
