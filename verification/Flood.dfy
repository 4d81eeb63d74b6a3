/** A search that spreads with a budget, over any routing tables. */
module Flood {
  import opened Common

  ghost function Sum(m: map<nat, nat>): nat
    decreases |m|
  {
    if m == map[] then 0
    else
      var k :| k in m;
      m[k] + Sum(m - {k})
  }

  lemma {:induction false} SumWithout(m: map<nat, nat>, k: nat)
    requires k in m
    ensures Sum(m) == m[k] + Sum(m - {k})
    decreases |m|
  {
    var j :| j in m && Sum(m) == m[j] + Sum(m - {j});
    if j != k {
      SumWithout(m - {j}, k);
      SumWithout(m - {k}, j);
      assert m - {j} - {k} == m - {k} - {j};
    }
  }

  lemma SumAdd(m: map<nat, nat>, k: nat, v: nat)
    requires k !in m
    ensures Sum(m[k := v]) == Sum(m) + v
  {
    SumWithout(m[k := v], k);
    assert m[k := v] - {k} == m;
  }

  /** The peers that route to themselves, but for this one and the one a request came from. */
  function Neighbors(routing: map<nat, nat>, me: nat, without: Option<nat>): set<nat> {
    set k | k in routing && routing[k] == k && k != me && without != Some(k)
  }

  /** A budget dealt out evenly: at least one to each peer that gets any, none kept, none made up. */
  ghost predicate Shares(res: map<nat, nat>, neighbors: set<nat>, budget: nat) {
    && res.Keys <= neighbors
    && |res| == (if |neighbors| < budget then |neighbors| else budget)
    && (forall k :: k in res ==> res[k] >= 1)
    && (forall j, k :: j in res && k in res ==> res[j] <= res[k] + 1)
    && Sum(res) == if neighbors == {} then 0 else budget
  }

  function First(neighbors: seq<nat>, i: nat): set<nat>
    requires i <= |neighbors|
  {
    set j | 0 <= j < i :: neighbors[j]
  }

  ghost predicate NoRepeat(neighbors: seq<nat>) {
    forall j, k :: 0 <= j < k < |neighbors| ==> neighbors[j] != neighbors[k]
  }

  lemma {:induction false} FirstSize(neighbors: seq<nat>, i: nat)
    requires i <= |neighbors| && NoRepeat(neighbors)
    ensures |First(neighbors, i)| == i
  {
    if i > 0 {
      FirstSize(neighbors, i - 1);
      FirstNext(neighbors, i - 1);
    }
  }

  lemma FirstNext(neighbors: seq<nat>, i: nat)
    requires i < |neighbors| && NoRepeat(neighbors)
    ensures neighbors[i] !in First(neighbors, i) && First(neighbors, i + 1) == First(neighbors, i) + {neighbors[i]}
  {
  }

  lemma FirstSnoc(neighbors: seq<nat>, key: nat)
    requires NoRepeat(neighbors) && key !in First(neighbors, |neighbors|)
    ensures NoRepeat(neighbors + [key])
    ensures First(neighbors + [key], |neighbors + [key]|) == First(neighbors, |neighbors|) + {key}
  {
    var more := neighbors + [key];
    forall j | 0 <= j < |neighbors|
      ensures more[j] == neighbors[j] && more[j] in First(neighbors, |neighbors|)
    {
    }
    assert more[|neighbors|] == key;
    assert First(more, |neighbors|) == First(neighbors, |neighbors|);
  }

  /** The peers among the routes, in any order, each once. */
  method ListNeighbors(routing: map<nat, nat>, me: nat, without: Option<nat>) returns (neighbors: seq<nat>)
    ensures NoRepeat(neighbors)
    ensures First(neighbors, |neighbors|) == Neighbors(routing, me, without)
    ensures |neighbors| == |Neighbors(routing, me, without)|
  {
    neighbors := [];
    var keys := routing.Keys;
    while keys != {}
      invariant keys <= routing.Keys && NoRepeat(neighbors)
      invariant First(neighbors, |neighbors|) == Neighbors(routing, me, without) - keys
    {
      var key :| key in keys;
      if routing[key] == key && me != key && without != Some(key) {
        FirstSnoc(neighbors, key);
        neighbors := neighbors + [key];
      }
      keys := keys - {key};
    }
    FirstSize(neighbors, |neighbors|);
  }

  method GetNeighborsAndBudgets(routing: map<nat, nat>, me: nat, without: Option<nat>, budget: nat)
      returns (res: map<nat, nat>)
    ensures Shares(res, Neighbors(routing, me, without), budget)
    ensures forall k :: k in res ==> k in routing && routing[k] == k && k != me && without != Some(k)
    ensures |res| < budget ==>
              forall k :: k in routing && routing[k] == k && k != me && without != Some(k) ==> k in res
  {
    AllServed(routing, me, without, budget);
    var neighbors := ListNeighbors(routing, me, without);
    res := DealOut(neighbors, Neighbors(routing, me, without), budget);
  }

  /** Of the peers that route to themselves, the asking one and the one asked apart, none goes without a share before
      the budget is used up. */
  lemma AllServed(routing: map<nat, nat>, me: nat, without: Option<nat>, budget: nat)
    ensures forall res {:trigger Shares(res, Neighbors(routing, me, without), budget)} ::
              Shares(res, Neighbors(routing, me, without), budget) && |res| < budget ==>
                forall k :: k in routing && routing[k] == k && k != me && without != Some(k) ==> k in res
  {
    var all := Neighbors(routing, me, without);
    forall res | Shares(res, all, budget) && |res| < budget
      ensures res.Keys == all
    {
      assert |res.Keys| == |res| == |all|;
      SubsetIsAll(res.Keys, all);
    }
  }

  lemma SubsetIsAll(a: set<nat>, b: set<nat>)
    requires a <= b && |a| == |b|
    ensures a == b
  {
    if x :| x in b && x !in a {
      SubsetSize(a, b - {x});
    }
  }

  /** Give each neighbor its part of the budget. */
  method DealOut(neighbors: seq<nat>, ghost all: set<nat>, budget: nat) returns (res: map<nat, nat>)
    requires NoRepeat(neighbors) && First(neighbors, |neighbors|) == all && |all| == |neighbors|
    ensures Shares(res, all, budget)
  {
    if |neighbors| == 0 {
      return map[];
    }
    var div, mod := Divide(budget, |neighbors|);
    if div > 0 {
      res := Deal(neighbors, div, mod);
      DealtShares(res, neighbors, |neighbors|, div, mod, budget);
    } else {
      res := DealOnes(neighbors, mod);
      DealtShares(res, neighbors, mod, 1, 0, budget);
    }
  }

  method Divide(budget: nat, n: nat) returns (div: nat, mod: nat)
    requires n > 0
    ensures div == budget / n && mod == budget % n
    ensures n * div + mod == budget && mod < n && (div > 0 ==> n <= budget) && (div == 0 ==> mod == budget)
  {
    div, mod := budget / n, budget % n;
  }

  lemma DealtShares(res: map<nat, nat>, neighbors: seq<nat>, n: nat, div: nat, mod: nat, budget: nat)
    requires n <= |neighbors| && NoRepeat(neighbors) && Dealt(res, neighbors, n, div, mod) && div > 0
    requires neighbors != [] && Sum(res) == budget && n == if |neighbors| < budget then |neighbors| else budget
    ensures Shares(res, First(neighbors, |neighbors|), budget)
  {
    FirstSize(neighbors, |neighbors|);
    DealtEvenly(res, neighbors, n, div, mod);
  }

  /** div for each, and one more for the first mod of them. */
  ghost predicate Dealt(res: map<nat, nat>, neighbors: seq<nat>, i: nat, div: nat, mod: nat)
    requires i <= |neighbors|
  {
    && res.Keys == First(neighbors, i)
    && forall j :: 0 <= j < i ==> neighbors[j] in res && res[neighbors[j]] == div + if j < mod then 1 else 0
  }

  lemma DealtNext(res: map<nat, nat>, neighbors: seq<nat>, i: nat, div: nat, mod: nat, share: nat)
    requires i < |neighbors| && NoRepeat(neighbors) && Dealt(res, neighbors, i, div, mod)
    requires share == div + if i < mod then 1 else 0
    ensures Dealt(res[neighbors[i] := share], neighbors, i + 1, div, mod)
    ensures Sum(res[neighbors[i] := share]) == Sum(res) + share
  {
    FirstNext(neighbors, i);
    SumAdd(res, neighbors[i], share);
  }

  method Deal(neighbors: seq<nat>, div: nat, mod: nat) returns (res: map<nat, nat>)
    requires NoRepeat(neighbors) && mod <= |neighbors|
    ensures Dealt(res, neighbors, |neighbors|, div, mod) && Sum(res) == |neighbors| * div + mod
  {
    res := map[];
    var rest := mod;
    for i := 0 to |neighbors|
      invariant Dealt(res, neighbors, i, div, mod) && rest == (if i < mod then mod - i else 0)
      invariant Sum(res) == i * div + mod - rest
    {
      var share := div;
      if rest > 0 {
        share := share + 1;
        rest := rest - 1;
      }
      DealtNext(res, neighbors, i, div, mod, share);
      res := res[neighbors[i] := share];
      assert (i + 1) * div == i * div + div;
    }
  }

  method DealOnes(neighbors: seq<nat>, mod: nat) returns (res: map<nat, nat>)
    requires NoRepeat(neighbors) && mod <= |neighbors|
    ensures Dealt(res, neighbors, mod, 1, 0) && Sum(res) == mod
  {
    res := map[];
    for i := 0 to mod
      invariant Dealt(res, neighbors, i, 1, 0) && Sum(res) == i
    {
      DealtNext(res, neighbors, i, 1, 0, 1);
      res := res[neighbors[i] := 1];
    }
  }

  lemma {:induction false} DealtEvenly(res: map<nat, nat>, neighbors: seq<nat>, n: nat, div: nat, mod: nat)
    requires n <= |neighbors| && NoRepeat(neighbors) && Dealt(res, neighbors, n, div, mod)
    ensures |res| == n && First(neighbors, n) <= First(neighbors, |neighbors|)
    ensures forall k :: k in res ==> div <= res[k] <= div + 1
  {
    FirstSize(neighbors, n);
    assert |res| == |res.Keys|;
    forall k | k in res
      ensures div <= res[k] <= div + 1
    {
      var j :| 0 <= j < n && neighbors[j] == k;
    }
  }

  // ----- the whole flood

  /** A request on its way. */
  datatype Request = Request(dest: nat, from: nat, budget: nat)

  /** The requests on their way, how many were handled, and the budget that found nowhere to go. */
  datatype State = State(flights: seq<Request>, handled: nat, dropped: nat)

  datatype Event = Arrive(k: nat, routing: map<nat, nat>, shares: map<nat, nat>) | Lose(k: nat)

  ghost function Requests(from: nat, shares: map<nat, nat>): seq<Request>
    decreases |shares|
  {
    if shares == map[] then []
    else
      var k :| k in shares;
      [Request(k, from, shares[k])] + Requests(from, shares - {k})
  }

  function Total(flights: seq<Request>): nat {
    if flights == [] then 0 else flights[0].budget + Total(flights[1..])
  }

  lemma {:induction false} TotalJoin(a: seq<Request>, b: seq<Request>)
    ensures Total(a + b) == Total(a) + Total(b)
  {
    if a == [] {
      assert a + b == b;
    } else {
      assert (a + b)[0] == a[0] && (a + b)[1..] == a[1..] + b;
      TotalJoin(a[1..], b);
    }
  }

  lemma {:induction false} RequestsTotal(from: nat, shares: map<nat, nat>)
    requires forall k :: k in shares ==> shares[k] >= 1
    ensures Total(Requests(from, shares)) == Sum(shares)
    ensures forall r :: r in Requests(from, shares) ==> r.budget >= 1 && r.dest in shares && r.from == from
    decreases |shares|
  {
    if shares != map[] {
      var k :| k in shares && Requests(from, shares) == [Request(k, from, shares[k])] + Requests(from, shares - {k});
      RequestsTotal(from, shares - {k});
      SumWithout(shares, k);
      TotalJoin([Request(k, from, shares[k])], Requests(from, shares - {k}));
    }
  }

  function Without(flights: seq<Request>, k: nat): seq<Request>
    requires k < |flights|
  {
    flights[..k] + flights[k + 1..]
  }

  /** The budget left when a request is handled goes on, unless it is none or there is nobody to ask. */
  ghost predicate Enabled(s: State, e: Event) {
    && e.k < |s.flights|
    && (e.Arrive? ==>
          var r := s.flights[e.k];
          if r.budget == 0 || r.budget - 1 == 0 then e.shares == map[]
          else Shares(e.shares, Neighbors(e.routing, r.dest, Some(r.from)), r.budget - 1))
  }

  ghost function Step(s: State, e: Event): State
    requires Enabled(s, e)
  {
    var r := s.flights[e.k];
    match e
    case Lose(_) => State(Without(s.flights, e.k), s.handled, s.dropped + r.budget)
    case Arrive(_, routing, shares) =>
      State(Without(s.flights, e.k) + Requests(r.dest, shares), s.handled + 1,
            s.dropped + if r.budget > 1 && shares == map[] then r.budget - 1 else 0)
  }

  ghost predicate Legal(s: State, es: seq<Event>)
    decreases |es|, 0
  {
    es == [] ||
    (Legal(s, es[..|es| - 1]) && Enabled(Run(s, es[..|es| - 1]), es[|es| - 1]))
  }

  ghost function Run(s: State, es: seq<Event>): State
    requires Legal(s, es)
    decreases |es|, 1
  {
    if es == [] then s else Step(Run(s, es[..|es| - 1]), es[|es| - 1])
  }

  /** The search as its origin starts it. */
  ghost function Begin(me: nat, shares: map<nat, nat>): State {
    State(Requests(me, shares), 0, 0)
  }

  /** All the budget is accounted for, and no request goes without any. */
  ghost predicate Conserved(s: State, budget: nat) {
    && s.handled + Total(s.flights) + s.dropped == budget
    && (forall r :: r in s.flights ==> r.budget >= 1)
  }

  lemma {:induction false} WithoutTotal(flights: seq<Request>, k: nat)
    requires k < |flights|
    ensures Total(Without(flights, k)) + flights[k].budget == Total(flights)
  {
    TotalJoin(flights[..k], flights[k + 1..]);
    TotalJoin(flights[..k], flights[k..]);
    assert flights == flights[..k] + flights[k..];
    assert flights[k..][1..] == flights[k + 1..];
  }

  lemma {:induction false} StepConserves(s: State, e: Event, budget: nat)
    requires Conserved(s, budget) && Enabled(s, e)
    ensures Conserved(Step(s, e), budget)
  {
    var r := s.flights[e.k];
    assert r in s.flights;
    WithoutTotal(s.flights, e.k);
    match e
    case Lose(_) =>
    case Arrive(_, routing, shares) =>
      RequestsTotal(r.dest, shares);
      TotalJoin(Without(s.flights, e.k), Requests(r.dest, shares));
      if r.budget > 1 && Neighbors(routing, r.dest, Some(r.from)) == {} {
        assert shares == map[];
      }
  }

  /** A request that is handled goes on only to peers that this one reaches directly, never back to where it came from
      nor to itself, and says that it comes from here. */
  lemma {:induction false} NeverBack(s: State, e: Event, r: Request)
    requires Enabled(s, e) && e.Arrive? && r in Step(s, e).flights && r !in s.flights
    ensures r.from == s.flights[e.k].dest && r.dest != r.from && r.dest != s.flights[e.k].from
    ensures r.dest in e.routing && e.routing[r.dest] == r.dest && 1 <= r.budget < s.flights[e.k].budget
  {
    var was := s.flights[e.k];
    assert r in Requests(was.dest, e.shares);
    RequestsTotal(was.dest, e.shares);
    ShareOf(was.dest, e.shares, r);
    SumWithout(e.shares, r.dest);
  }

  lemma {:induction false} ShareOf(from: nat, shares: map<nat, nat>, r: Request)
    requires r in Requests(from, shares)
    ensures r.dest in shares && r.budget == shares[r.dest]
    decreases |shares|
  {
    var k :| k in shares && Requests(from, shares) == [Request(k, from, shares[k])] + Requests(from, shares - {k});
    if r != Request(k, from, shares[k]) {
      ShareOf(from, shares - {k}, r);
    }
  }

  function Arrivals(es: seq<Event>): nat {
    if es == [] then 0 else Arrivals(es[..|es| - 1]) + if es[|es| - 1].Arrive? then 1 else 0
  }

  lemma {:induction false} ManyFlights(flights: seq<Request>)
    requires forall r :: r in flights ==> r.budget >= 1
    ensures |flights| <= Total(flights)
  {
    if flights != [] {
      assert flights[0] in flights;
      ManyFlights(flights[1..]);
    }
  }

  /** Over any routing tables, with or without cycles, the requests handled, the budget on its way and the
      budget dropped make up the first budget at every point; so the flood handles at most that many requests
      and has at most that many events of any kind. */
  lemma {:induction false} FloodBounded(me: nat, routing: map<nat, nat>, shares: map<nat, nat>, budget: nat,
        es: seq<Event>)
    requires Shares(shares, Neighbors(routing, me, None), budget) && shares != map[]
    requires Legal(Begin(me, shares), es)
    ensures var s := Run(Begin(me, shares), es);
            && Conserved(s, budget) && s.handled == Arrivals(es)
            && |s.flights| + Arrivals(es) <= budget
            && |es| + |s.flights| <= budget
  {
    if es == [] {
      RequestsTotal(me, shares);
      ManyFlights(Requests(me, shares));
    } else {
      var before := es[..|es| - 1];
      FloodBounded(me, routing, shares, budget, before);
      var s := Run(Begin(me, shares), before);
      StepConserves(s, es[|es| - 1], budget);
      ManyFlights(Run(Begin(me, shares), es).flights);
      EventsBounded(me, routing, shares, budget, es);
    }
  }

  /** Each event uses up a request's own unit of budget, or all it had. */
  lemma {:induction false} EventsBounded(me: nat, routing: map<nat, nat>, shares: map<nat, nat>, budget: nat,
        es: seq<Event>)
    requires Shares(shares, Neighbors(routing, me, None), budget) && shares != map[]
    requires Legal(Begin(me, shares), es)
    ensures |es| + Total(Run(Begin(me, shares), es).flights) <= budget
    ensures forall r :: r in Run(Begin(me, shares), es).flights ==> r.budget >= 1
  {
    if es == [] {
      RequestsTotal(me, shares);
    } else {
      var before, e := es[..|es| - 1], es[|es| - 1];
      EventsBounded(me, routing, shares, budget, before);
      var s := Run(Begin(me, shares), before);
      assert s.flights[e.k] in s.flights;
      WithoutTotal(s.flights, e.k);
      if e.Arrive? {
        RequestsTotal(s.flights[e.k].dest, e.shares);
        TotalJoin(Without(s.flights, e.k), Requests(s.flights[e.k].dest, e.shares));
      }
    }
  }
}
