/** Search requests to send again with a growing budget, until their retries run out. */
module SearchQueue {
  import opened Common
  import opened MsgLists
  import opened ListIndex
  import R = RumorQueue

  const WORD := 0x1_0000_0000_0000_0000

  /** 64-bit unsigned numbers. */
  type Word = x: nat | x < WORD

  datatype Ring = Ring(initial: Word, factor: Word, retry: Word, timeout: int)

  datatype Info = Info(sendTime: int, budget: Word, body: string, timeout: int, retry: Word, factor: Word)

  datatype Queue = Queue(ids: seq<nat>, infos: map<nat, Info>)

  datatype Outcome = Nothing | Resend(id: nat, budget: Word, body: string) | Closed(id: nat)

  /** One less, where none is less than zero. */
  function Less(w: Word): Word {
    (w + WORD - 1) % WORD
  }

  function Times(a: Word, b: Word): Word {
    a * b % WORD
  }

  function FirstInfo(ring: Ring, body: string, now: int): Info {
    Info(now, ring.initial, body, ring.timeout, Less(ring.retry), ring.factor)
  }

  function Push(q: Queue, id: nat, ring: Ring, body: string, now: int): Queue {
    Queue(q.ids + [id], q.infos[id := FirstInfo(ring, body, now)])
  }

  function Again(info: Info, again: int): Info
    requires info.retry > 0
  {
    info.(retry := info.retry - 1, budget := Times(info.budget, info.factor), sendTime := again)
  }

  /** A due head is sent again with a larger budget, or, with no retry left, given up. */
  function Get(q: Queue, now: int, again: int): (Queue, Outcome)
    requires q.ids != [] ==> q.ids[0] in q.infos
  {
    if q.ids == [] then (q, Nothing)
    else
      var id := q.ids[0];
      var info := q.infos[id];
      if now - info.sendTime < info.timeout then (q, Nothing)
      else if info.retry == 0 then (Queue(q.ids[1..], q.infos - {id}), Closed(id))
      else
        var next := Again(info, again);
        (Queue(q.ids[1..] + [id], q.infos[id := next]), Resend(id, next.budget, info.body))
  }

  ghost predicate Agree(q: Queue) {
    Distinct(q.ids) && forall id :: id in q.ids <==> id in q.infos
  }

  lemma {:induction false} PushKeeps(q: Queue, id: nat, ring: Ring, body: string, now: int)
    requires Agree(q) && id !in q.infos
    ensures Agree(Push(q, id, ring, body, now))
  {
    DistinctSnoc(q.ids, id);
  }

  lemma {:induction false} GetKeeps(q: Queue, now: int, again: int)
    requires Agree(q)
    ensures q.ids != [] ==> q.ids[0] in q.infos
    ensures Agree(Get(q, now, again).0)
    ensures var (q', outcome) := Get(q, now, again);
            q'.infos.Keys == q.infos.Keys - if outcome.Closed? then {outcome.id} else {}
  {
    hide Distinct, Again;
    if q.ids != [] {
      assert q.ids[0] in q.ids;
      assert q.ids == [q.ids[0]] + q.ids[1..];
      Rotate(q.ids);
      TailDistinct(q.ids);
    }
  }

  // ----- how often a request is sent

  datatype Call = Searched(id: nat, ring: Ring, body: string, now: int) | Got(now: int, again: int)

  /** The queue after some calls, and what was sent and given up, in order. */
  datatype Record = Record(queue: Queue, outcomes: seq<Outcome>)

  ghost predicate NewIds(cs: seq<Call>) {
    forall j, k {:trigger cs[j], cs[k]} :: 0 <= j < k < |cs| && cs[j].Searched? && cs[k].Searched? ==>
          cs[j].id != cs[k].id
  }

  function Calls(cs: seq<Call>): Record {
    if cs == [] then Record(Queue([], map[]), [])
    else
      var before := Calls(cs[..|cs| - 1]);
      match cs[|cs| - 1]
      case Searched(id, ring, body, now) =>
        Record(Push(before.queue, id, ring, body, now), before.outcomes + [Resend(id, ring.initial, body)])
      case Got(now, again) =>
        if before.queue.ids != [] && before.queue.ids[0] !in before.queue.infos then before
        else
          var (queue, outcome) := Get(before.queue, now, again);
          Record(queue, if outcome == Nothing then before.outcomes else before.outcomes + [outcome])
  }

  /** The budgets a request was sent with, the first time included. */
  function Sends(outcomes: seq<Outcome>, id: nat): seq<Word> {
    if outcomes == [] then []
    else
      var last := outcomes[|outcomes| - 1];
      Sends(outcomes[..|outcomes| - 1], id) + if last.Resend? && last.id == id then [last.budget] else []
  }

  function Pow(b: nat, k: nat): nat {
    if k == 0 then 1 else Pow(b, k - 1) * b
  }

  /** The k-th of them is the initial budget times the k-th power of the factor, as a word. */
  ghost predicate Expanding(budgets: seq<Word>, ring: Ring) {
    forall k :: 0 <= k < |budgets| ==> budgets[k] == ring.initial * Pow(ring.factor, k) % WORD
  }

  /** A waiting request has as many sends as its retries are down; one that left has had them all. */
  ghost predicate Counted(r: Record, id: nat, ring: Ring) {
    var budgets := Sends(r.outcomes, id);
    && budgets != [] && Expanding(budgets, ring)
    && if id in r.queue.infos then
         var info := r.queue.infos[id];
         && |budgets| + info.retry == Less(ring.retry) + 1
         && info.budget == budgets[|budgets| - 1] && info.factor == ring.factor
       else |budgets| == Less(ring.retry) + 1
  }

  lemma ModTimes(a: nat, b: nat, f: nat)
    requires b == a % WORD
    ensures b * f % WORD == a * f % WORD
  {
    var q, m := a / WORD, a % WORD;
    assert a == q * WORD + m;
    calc {
      a * f;
      (q * WORD + m) * f;
      q * f * WORD + m * f;
    }
    ModDrop(q * f, m * f);
  }

  lemma ModDrop(q: nat, m: nat)
    ensures (q * WORD + m) % WORD == m % WORD
  {
    assert q * WORD + m == (q + m / WORD) * WORD + m % WORD;
    Remainder(q * WORD + m, WORD, q + m / WORD, m % WORD);
  }

  lemma {:induction false} SendsSnoc(outcomes: seq<Outcome>, o: Outcome, id: nat)
    ensures Sends(outcomes + [o], id) == Sends(outcomes, id) + if o.Resend? && o.id == id then [o.budget] else []
  {
    assert (outcomes + [o])[..|outcomes|] == outcomes;
  }

  lemma {:induction false} ExpandingNext(budgets: seq<Word>, ring: Ring)
    requires budgets != [] && Expanding(budgets, ring)
    ensures Expanding(budgets + [Times(budgets[|budgets| - 1], ring.factor)], ring)
  {
    var k := |budgets| - 1;
    var a := ring.initial * Pow(ring.factor, k);
    ModTimes(a, budgets[k], ring.factor);
    assert a * ring.factor == ring.initial * Pow(ring.factor, k + 1) by {
      MulAssoc(ring.initial, Pow(ring.factor, k), ring.factor);
    }
  }

  lemma MulAssoc(a: nat, b: nat, c: nat)
    ensures a * b * c == a * (b * c)
  {
  }

  lemma {:induction false} GotCounts(r: Record, now: int, again: int, id: nat, ring: Ring)
    requires Agree(r.queue) && Counted(r, id, ring)
    requires r.queue.ids != [] ==> r.queue.ids[0] in r.queue.infos
    ensures var (queue, outcome) := Get(r.queue, now, again);
            Counted(Record(queue, if outcome == Nothing then r.outcomes else r.outcomes + [outcome]), id, ring)
  {
    var (queue, outcome) := Get(r.queue, now, again);
    SendsSnoc(r.outcomes, outcome, id);
    var budgets := Sends(r.outcomes, id);
    if outcome.Resend? && outcome.id == id {
      ExpandingNext(budgets, ring);
    }
  }

  lemma {:induction false} QueueKept(cs: seq<Call>)
    requires NewIds(cs)
    ensures Agree(Calls(cs).queue)
    ensures forall id :: id in Calls(cs).queue.infos ==> exists k :: 0 <= k < |cs| && cs[k].Searched? && cs[k].id == id
    ensures forall id :: Sends(Calls(cs).outcomes, id) != [] ==>
              exists k :: 0 <= k < |cs| && cs[k].Searched? && cs[k].id == id
  {
    if cs != [] {
      var before, c := cs[..|cs| - 1], cs[|cs| - 1];
      QueueKept(before);
      var r := Calls(before);
      assert forall k :: 0 <= k < |before| ==> before[k] == cs[k];
      match c
      case Searched(id, ring, body, now) =>
        PushKeeps(r.queue, id, ring, body, now);
        forall x
          ensures Sends(Calls(cs).outcomes, x) != [] ==> x == id || Sends(r.outcomes, x) != []
        {
          SendsSnoc(r.outcomes, Resend(id, ring.initial, body), x);
        }
      case Got(now, again) =>
        GetKeeps(r.queue, now, again);
        var outcome := Get(r.queue, now, again).1;
        forall x: nat
          ensures Sends(Calls(cs).outcomes, x) != [] ==> x in r.queue.infos || Sends(r.outcomes, x) != []
        {
          SendsSnoc(r.outcomes, outcome, x);
        }
    }
  }

  /** However the calls come, a search with new ids is sent with budgets that grow by its factor; while it
      waits its sends and the retries left make up its retries, and once it has left list and maps it was sent
      as often as it says: `retry` times, if that is not zero. */
  lemma {:induction false} RingTheorem(cs: seq<Call>, j: nat)
    requires NewIds(cs) && j < |cs| && cs[j].Searched?
    ensures Agree(Calls(cs).queue) && Counted(Calls(cs), cs[j].id, cs[j].ring)
    ensures cs[j].ring.retry >= 1 && cs[j].id !in Calls(cs).queue.ids ==>
              |Sends(Calls(cs).outcomes, cs[j].id)| == cs[j].ring.retry
  {
    hide Counted, Push, Get, Agree, NewIds;
    var before, c, id, ring := cs[..|cs| - 1], cs[|cs| - 1], cs[j].id, cs[j].ring;
    NewIdsBefore(cs);
    QueueKept(cs);
    QueueKept(before);
    var r := Calls(before);
    if j == |cs| - 1 {
      NothingSent(cs);
      FirstCounted(r, id, ring, c.body, c.now);
    } else {
      RingTheorem(before, j);
      match c
      case Searched(other, ring', body, now) =>
        NewIdsApart(cs, j);
        OtherPushed(r, id, ring, other, ring', body, now);
      case Got(now, again) =>
        GetKeeps(r.queue, now, again);
        GotCounts(r, now, again, id, ring);
    }
    LeftMeansRetried(Calls(cs), id, ring);
  }

  /** All that is sent for an id asks for the same, and so will what is still to send. */
  ghost predicate Asks(r: Record, id: nat, body: string) {
    && (forall k :: 0 <= k < |r.outcomes| && r.outcomes[k].Resend? && r.outcomes[k].id == id ==>
          r.outcomes[k].body == body)
    && (id in r.queue.infos ==> r.queue.infos[id].body == body)
  }

  lemma PushAsks(r: Record, other: nat, ring: Ring, body': string, now: int, id: nat, body: string)
    requires Asks(r, id, body) && other != id
    ensures Asks(Record(Push(r.queue, other, ring, body', now), r.outcomes + [Resend(other, ring.initial, body')]),
          id, body)
  {
  }

  lemma GetAsks(r: Record, now: int, again: int, id: nat, body: string)
    requires Asks(r, id, body) && (r.queue.ids != [] ==> r.queue.ids[0] in r.queue.infos)
    ensures var (queue, outcome) := Get(r.queue, now, again);
            Asks(Record(queue, if outcome == Nothing then r.outcomes else r.outcomes + [outcome]), id, body)
  {
  }

  /** However the calls come, every send of a search with a new id, the first and each again, asks for what that search
      asked for, and as long as it waits the queue holds just that. */
  lemma {:induction false} ResendsAsk(cs: seq<Call>, j: nat)
    requires NewIds(cs) && j < |cs| && cs[j].Searched?
    ensures var r := Calls(cs);
            && (forall k :: 0 <= k < |r.outcomes| && r.outcomes[k].Resend? && r.outcomes[k].id == cs[j].id ==>
                  r.outcomes[k].body == cs[j].body)
            && (cs[j].id in r.queue.infos ==> r.queue.infos[cs[j].id].body == cs[j].body)
  {
    hide Push, Get, Agree, NewIds;
    var before, c, id := cs[..|cs| - 1], cs[|cs| - 1], cs[j].id;
    NewIdsBefore(cs);
    QueueKept(before);
    var r := Calls(before);
    if j == |cs| - 1 {
      NothingSent(cs);
      FirstAsks(r, id, c.ring, c.body, c.now);
    } else {
      ResendsAsk(before, j);
      assert Asks(r, id, cs[j].body);
      match c
      case Searched(other, ring, body, now) =>
        NewIdsApart(cs, j);
        PushAsks(r, other, ring, body, now, id, cs[j].body);
      case Got(now, again) =>
        GetKeeps(r.queue, now, again);
        GetAsks(r, now, again, id, cs[j].body);
    }
    assert Asks(Calls(cs), id, cs[j].body);
  }

  lemma FirstAsks(r: Record, id: nat, ring: Ring, body: string, now: int)
    requires Sends(r.outcomes, id) == []
    ensures Asks(Record(Push(r.queue, id, ring, body, now), r.outcomes + [Resend(id, ring.initial, body)]), id, body)
  {
    forall k | 0 <= k < |r.outcomes|
      ensures !(r.outcomes[k].Resend? && r.outcomes[k].id == id)
    {
      NoneSent(r.outcomes, id, k);
    }
  }

  lemma {:induction false} NoneSent(outcomes: seq<Outcome>, id: nat, k: nat)
    requires Sends(outcomes, id) == [] && k < |outcomes|
    ensures !(outcomes[k].Resend? && outcomes[k].id == id)
  {
    if k < |outcomes| - 1 {
      NoneSent(outcomes[..|outcomes| - 1], id, k);
    }
  }

  lemma NewIdsBefore(cs: seq<Call>)
    requires NewIds(cs) && cs != []
    ensures NewIds(cs[..|cs| - 1])
  {
  }

  lemma NewIdsApart(cs: seq<Call>, j: nat)
    requires NewIds(cs) && j < |cs| - 1 && cs[j].Searched? && cs[|cs| - 1].Searched?
    ensures cs[j].id != cs[|cs| - 1].id
  {
  }

  lemma {:induction false} NothingSent(cs: seq<Call>)
    requires NewIds(cs) && cs != [] && cs[|cs| - 1].Searched?
    ensures Sends(Calls(cs[..|cs| - 1]).outcomes, cs[|cs| - 1].id) == []
    ensures cs[|cs| - 1].id !in Calls(cs[..|cs| - 1]).queue.infos
  {
    var before := cs[..|cs| - 1];
    NewIdsBefore(cs);
    QueueKept(before);
    forall k | 0 <= k < |before| && before[k].Searched?
      ensures before[k].id != cs[|cs| - 1].id
    {
      NewIdsApart(cs, k);
    }
  }

  lemma OtherPushed(r: Record, id: nat, ring: Ring, other: nat, ring': Ring, body: string, now: int)
    requires Counted(r, id, ring) && other != id
    ensures Counted(Record(Push(r.queue, other, ring', body, now), r.outcomes + [Resend(other, ring'.initial, body)]),
          id, ring)
  {
    SendsSnoc(r.outcomes, Resend(other, ring'.initial, body), id);
  }

  lemma LeftMeansRetried(r: Record, id: nat, ring: Ring)
    requires Counted(r, id, ring) && Agree(r.queue)
    ensures ring.retry >= 1 && id !in r.queue.ids ==> |Sends(r.outcomes, id)| == ring.retry
  {
  }

  lemma {:induction false} FirstCounted(r: Record, id: nat, ring: Ring, body: string, now: int)
    requires Sends(r.outcomes, id) == []
    ensures Counted(Record(Push(r.queue, id, ring, body, now), r.outcomes + [Resend(id, ring.initial, body)]), id, ring)
  {
    SendsSnoc(r.outcomes, Resend(id, ring.initial, body), id);
    assert Pow(ring.factor, 0) == 1;
  }

  /** The retries left of all that wait, and one more for each. */
  function Left(ids: seq<nat>, infos: map<nat, Info>): nat {
    if ids == [] then 0
    else Left(ids[..|ids| - 1], infos) + if ids[|ids| - 1] in infos then infos[ids[|ids| - 1]].retry + 1 else 1
  }

  lemma {:induction false} LeftFirst(ids: seq<nat>, infos: map<nat, Info>)
    requires ids != []
    ensures Left(ids, infos) == Left(ids[1..], infos) + if ids[0] in infos then infos[ids[0]].retry + 1 else 1
  {
    if |ids| > 1 {
      LeftFirst(ids[..|ids| - 1], infos);
      assert ids[..|ids| - 1][1..] == ids[1..][..|ids| - 2];
    }
  }

  lemma {:induction false} LeftFrame(ids: seq<nat>, infos: map<nat, Info>, infos': map<nat, Info>)
    requires forall id :: id in ids ==> id in infos && id in infos' && infos[id] == infos'[id]
    ensures Left(ids, infos) == Left(ids, infos')
  {
    if ids != [] {
      LeftFrame(ids[..|ids| - 1], infos, infos');
    }
  }

  /** Every send or surrender uses up what is left, so the queue empties once nothing is pushed. */
  lemma {:induction false} GetUsesUp(q: Queue, now: int, again: int)
    requires Agree(q) && (q.ids != [] ==> q.ids[0] in q.infos)
    ensures var (q', outcome) := Get(q, now, again);
            Left(q'.ids, q'.infos) + (if outcome == Nothing then 0 else 1) == Left(q.ids, q.infos)
  {
    var (q', outcome) := Get(q, now, again);
    if outcome != Nothing {
      var id := q.ids[0];
      LeftFirst(q.ids, q.infos);
      forall x | x in q.ids[1..]
        ensures x in q.infos && x in q'.infos && q.infos[x] == q'.infos[x]
      {
        assert x in q.ids && x != id;
      }
      LeftFrame(q.ids[1..], q.infos, q'.infos);
      assert q'.ids == q.ids[1..] || q'.ids[..|q'.ids| - 1] == q.ids[1..];
    }
  }

  // ----- when looking at the head alone is enough

  /** A clock that does not go back. */
  ghost predicate InTime(cs: seq<Call>, clock: int) {
    if cs == [] then true
    else
      var before := cs[..|cs| - 1];
      match cs[|cs| - 1]
      case Searched(_, _, _, now) => InTime(before, now) && now <= clock
      case Got(now, again) => InTime(before, now) && now <= again <= clock
  }

  ghost predicate TimeoutsIn(cs: seq<Call>, timeouts: set<int>) {
    forall k :: 0 <= k < |cs| && cs[k].Searched? ==> cs[k].ring.timeout in timeouts
  }

  ghost predicate Due(q: Queue, id: nat, now: int) {
    id in q.infos && now - q.infos[id].sendTime >= q.infos[id].timeout
  }

  /** The queue, asked now, does not say that nothing is to be done. */
  ghost predicate Answers(q: Queue, now: int) {
    q.ids != [] && q.ids[0] in q.infos && Get(q, now, now).1 != Nothing
  }

  ghost predicate AnswersWhenDue(cs: seq<Call>, now: int) {
    forall id :: Due(Calls(cs).queue, id, now) ==> Answers(Calls(cs).queue, now)
  }

  /** In no run with these timeouts does a request that is due wait behind one that is not. */
  ghost predicate MissesNone(timeouts: set<int>) {
    forall cs, now :: NewIds(cs) && InTime(cs, now) && TimeoutsIn(cs, timeouts) ==> AnswersWhenDue(cs, now)
  }

  /** A search queue is a rumor queue as far as ids and times of sending go. */
  function Schedule(q: Queue, timeout: int): R.Queue {
    R.Queue(q.ids, map id | id in q.infos :: R.Info(0, q.infos[id].sendTime, q.infos[id].body), timeout)
  }

  lemma {:induction false} GetInOrder(q: Queue, last: int, now: int, again: int, t: int)
    requires R.Good(Schedule(q, t), last) && last <= now <= again && q.ids != [] && q.ids[0] in q.infos
    ensures R.Good(Schedule(Get(q, now, again).0, t), again)
  {
    hide R.Good;
    var (q', outcome) := Get(q, now, again);
    var id := q.ids[0];
    R.GoodLater(Schedule(q, t), last, again);
    if outcome.Closed? {
      R.RemoveKeeps(Schedule(q, t), again, id);
      assert Schedule(q', t) == R.Remove(Schedule(q, t), id);
    } else if outcome.Resend? {
      var info := R.Info(0, again, q.infos[id].body);
      R.TurnKeeps(Schedule(q, t), last, again, info);
      assert Schedule(q', t).infos == Schedule(q, t).infos[id := info];
    }
  }

  lemma {:induction false} PushInOrder(q: Queue, now: int, id: nat, ring: Ring, body: string, t: int)
    requires R.Good(Schedule(q, t), now) && id !in q.infos
    ensures R.Good(Schedule(Push(q, id, ring, body, now), t), now)
  {
    R.PushKeepsIff(Schedule(q, t), id, 0, body, now);
    assert Schedule(Push(q, id, ring, body, now), t).infos == R.Push(Schedule(q, t), id, 0, body, now).infos;
  }

  ghost predicate Timed(q: Queue, timeouts: set<int>) {
    forall id :: id in q.infos ==> q.infos[id].timeout in timeouts
  }

  /** Whatever the timeouts, the list is in order of sending. */
  lemma {:induction false} CallsInOrder(cs: seq<Call>, clock: int, timeouts: set<int>, t: int)
    requires NewIds(cs) && InTime(cs, clock) && TimeoutsIn(cs, timeouts)
    ensures R.Good(Schedule(Calls(cs).queue, t), clock) && Timed(Calls(cs).queue, timeouts)
  {
    hide R.Good, Get, Push, NewIds;
    if cs == [] {
      assert Schedule(Calls(cs).queue, t) == R.Queue([], map[], t);
      R.EmptyGood(t, clock);
    } else {
      var before, c := cs[..|cs| - 1], cs[|cs| - 1];
      NewIdsBefore(cs);
      QueueKept(before);
      CallsInOrder(before, c.now, timeouts, t);
      var q := Calls(before).queue;
      match c
      case Searched(id, ring, body, now) =>
        NothingSent(cs);
        PushInOrder(q, now, id, ring, body, t);
        PushTimed(q, id, ring, body, now, timeouts);
        R.GoodLater(Schedule(Push(q, id, ring, body, now), t), now, clock);
      case Got(now, again) =>
        GetKeeps(q, now, again);
        GetTimed(q, now, again, timeouts);
        if q.ids != [] {
          GetInOrder(q, now, now, again, t);
        }
        R.GoodLater(Schedule(Calls(cs).queue, t), again, clock);
    }
  }

  lemma PushTimed(q: Queue, id: nat, ring: Ring, body: string, now: int, timeouts: set<int>)
    requires Timed(q, timeouts) && ring.timeout in timeouts
    ensures Timed(Push(q, id, ring, body, now), timeouts)
  {
  }

  lemma GetTimed(q: Queue, now: int, again: int, timeouts: set<int>)
    requires Timed(q, timeouts) && (q.ids != [] ==> q.ids[0] in q.infos)
    ensures Timed(Get(q, now, again).0, timeouts)
  {
  }

  lemma {:induction false} FirstIsDue(q: Queue, now: int, id: nat, timeouts: set<int>, t: int)
    requires Agree(q) && R.Good(Schedule(q, t), now) && Timed(q, timeouts) && Uniform(timeouts) && Due(q, id, now)
    ensures Answers(q, now)
  {
    assert id in q.ids;
    var k :| 0 <= k < |q.ids| && q.ids[k] == id;
    assert q.ids[0] in q.ids;
    var sent := Schedule(q, t);
    assert R.SentAt(sent, 0) <= R.SentAt(sent, k) <= now;
  }

  /** One timeout for all requests, unless none of theirs is positive. */
  ghost predicate Uniform(timeouts: set<int>) {
    forall a, b :: a in timeouts && b in timeouts ==> a == b || (a <= 0 && b <= 0)
  }

  function Once(timeout: int): Ring {
    Ring(1, 1, 1, timeout)
  }

  lemma NothingMissed(cs: seq<Call>, now: int, timeouts: set<int>)
    requires NewIds(cs) && InTime(cs, now) && TimeoutsIn(cs, timeouts) && Uniform(timeouts)
    ensures AnswersWhenDue(cs, now)
  {
    hide R.Good, Uniform, Agree, Answers, Due, NewIds;
    QueueKept(cs);
    CallsInOrder(cs, now, timeouts, 0);
    forall id | Due(Calls(cs).queue, id, now)
      ensures Answers(Calls(cs).queue, now)
    {
      FirstIsDue(Calls(cs).queue, now, id, timeouts, 0);
    }
  }

  /** A request sent with the shorter timeout right after one with a longer timeout waits behind it. */
  lemma LateHeadHidesDue(slow: int, fast: int, timeouts: set<int>)
    returns (cs: seq<Call>, now: int)
    requires slow in timeouts && fast in timeouts && fast < slow && slow > 0
    ensures NewIds(cs) && InTime(cs, now) && TimeoutsIn(cs, timeouts) && !AnswersWhenDue(cs, now)
  {
    var first, second := Searched(1, Once(slow), "", 0), Searched(2, Once(fast), "", 0);
    now := if fast > 0 then fast else 0;
    assert [first][..0] == [] && [first, second][..1] == [first];
    assert InTime([], 0) && InTime([first], 0);
    cs := [first, second];
    var q := Push(Queue([], map[]), 1, Once(slow), "", 0);
    assert Calls([first]).queue == q;
    assert Calls(cs).queue == Push(q, 2, Once(fast), "", 0);
    assert Due(Calls(cs).queue, 2, now) && !Answers(Calls(cs).queue, now);
  }

  /** Looking at the head alone never misses a request that is due, in any run with new ids and a clock that
      does not go back, exactly when all timeouts are the same or none is positive. */
  lemma {:induction false} HeadSufficesIff(timeouts: set<int>)
    ensures MissesNone(timeouts) <==> Uniform(timeouts)
  {
    hide NewIds, InTime, TimeoutsIn, AnswersWhenDue;
    if Uniform(timeouts) {
      forall cs, now | NewIds(cs) && InTime(cs, now) && TimeoutsIn(cs, timeouts)
        ensures AnswersWhenDue(cs, now)
      {
        NothingMissed(cs, now, timeouts);
      }
    } else {
      var a, b :| a in timeouts && b in timeouts && a != b && (a > 0 || b > 0);
      var cs, now := LateHeadHidesDue(if a < b then b else a, if a < b then a else b, timeouts);
    }
  }

  // ----- the queue in place

  class SafeSearchRequestQueue {
    const list: MsgList
    var nodeMap: map<nat, MsgNode>
    var infoMap: map<nat, Info>

    ghost function View(): Queue
      reads this, list
    {
      Queue(Ids(list.nodes), infoMap)
    }

    ghost predicate Valid()
      reads this, list, list.Repr()
    {
      list.Valid() && Mapped(list.nodes, nodeMap) && nodeMap.Keys == infoMap.Keys
    }

    constructor ()
      ensures Valid() && View() == Queue([], map[])
      ensures fresh(list) && fresh(list.Repr())
    {
      list := new MsgList();
      nodeMap, infoMap := map[], map[];
      new;
      list.EmptyValid();
      NoneMapped();
    }

    lemma ValidAgrees()
      requires Valid()
      ensures Agree(View()) && nodeMap.Keys == infoMap.Keys
    {
      list.NodesDistinct();
      MappedAgrees(list.nodes, nodeMap);
    }

    method PushRequest(body: string, id: nat, ring: Ring, now: int)
      requires Valid()
      modifies this`nodeMap, this`infoMap, list, list.Repr()
      ensures View() == Push(old(View()), id, ring, body, now)
      ensures list.Valid() && (Valid() <==> id !in old(nodeMap))
      ensures fresh(list.Repr() - old(list.Repr()))
    {
      hide Mapped, Ids;
      var n := new MsgNode(id);
      MappedPush(list.nodes, nodeMap, n);
      nodeMap := nodeMap[id := n];
      infoMap := infoMap[id := Info(now, ring.initial, body, ring.timeout, Less(ring.retry), ring.factor)];
      list.Push(n);
    }

    method GetSearchRequest(now: int, again: int) returns (outcome: Outcome)
      requires Valid()
      modifies this`nodeMap, this`infoMap, list, list.Repr()
      ensures old(View()).ids != [] ==> old(View()).ids[0] in old(View()).infos
      ensures Valid() && (View(), outcome) == Get(old(View()), now, again)
    {
      hide Mapped, Ids;
      var msgNode, ok := list.GetFirst();
      if !ok {
        assert Ids(list.nodes) == [];
        return Nothing;
      }
      var id := msgNode.id;
      HeadMapped(list.nodes, nodeMap);
      var info := infoMap[id];
      if now - info.sendTime < info.timeout {
        return Nothing;
      }
      if info.retry == 0 {
        GiveUp(msgNode);
        return Closed(id);
      }
      info := info.(retry := info.retry - 1, budget := Times(info.budget, info.factor), sendTime := again);
      infoMap := infoMap[id := info];
      MappedTurn(list.nodes, nodeMap);
      TurnHead(list, msgNode);
      return Resend(id, info.budget, info.body);
    }

    /** Take the head off the list and out of both maps. */
    method GiveUp(msgNode: MsgNode)
      requires Valid() && list.nodes != [] && list.nodes[0] == msgNode
      modifies this`nodeMap, this`infoMap, list, list.Repr()
      ensures Valid() && View() == Queue(old(View()).ids[1..], old(infoMap) - {msgNode.id})
    {
      hide Mapped, Ids;
      list.NodesDistinct();
      MappedTail(list.nodes, nodeMap);
      nodeMap := nodeMap - {msgNode.id};
      infoMap := infoMap - {msgNode.id};
      var polled, _ := list.Poll();
    }
  }
}
