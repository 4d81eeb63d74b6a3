/** Notions shared by the protocol models. */
module Common {

  datatype Option<+T> = None | Some(value: T)

  /** The peers of a network of n nodes, named by their index. */
  function Peers(n: nat): (peers: set<nat>)
    ensures forall i: nat :: i in peers <==> i < n
  {
    if n == 0 then {} else Peers(n - 1) + {n - 1}
  }

  lemma {:induction false} PeersSize(n: nat)
    ensures |Peers(n)| == n
  {
    if n > 0 {
      PeersSize(n - 1);
    }
  }

  lemma {:induction false} SubsetSize<T>(a: set<T>, b: set<T>)
    requires a <= b
    ensures |a| <= |b|
  {
    if a != {} {
      var x :| x in a;
      SubsetSize(a - {x}, b - {x});
    }
  }

  /** Two quorums of a network of n nodes that are large enough share a node outside `faulty`. */
  lemma QuorumsMeet(n: nat, q: set<nat>, r: set<nat>, faulty: set<nat>) returns (x: nat)
    requires q <= Peers(n) && r <= Peers(n)
    requires |q| + |r| > n + |faulty|
    ensures x in q && x in r && x !in faulty
  {
    PeersSize(n);
    SubsetSize(q + r, Peers(n));
    assert |q + r| == |q| + |r| - |q * r|;
    if q * r <= faulty {
      SubsetSize(q * r, faulty);
    }
    x :| x in q * r && x !in faulty;
  }

  /** The peer an id belongs to: the ids of a peer start at its index plus one and grow by total. */
  function Owner(total: nat, id: nat): (owner: nat)
    requires total > 0
    ensures owner < total
  {
    if id == 0 then total - 1
    else if id <= total then id - 1
    else Owner(total, id - total)
  }

  /** Two ids have the same owner exactly when they are in the same residue class. */
  lemma {:induction false} OwnerIsResidue(total: nat, id: nat)
    requires total > 0
    ensures Owner(total, id) == (id + total - 1) % total
    decreases id
  {
    if id > total {
      OwnerIsResidue(total, id - total);
      ModShift(id - 1, total);
    } else if id > 0 {
      assert id + total - 1 == 1 * total + (id - 1);
      Remainder(id + total - 1, total, 1, id - 1);
    } else {
      Remainder(total - 1, total, 0, total - 1);
    }
  }

  lemma ModShift(x: nat, n: nat)
    requires n > 0
    ensures (x + n) % n == x % n
  {
    assert (x + n) == (x / n + 1) * n + x % n;
    Remainder(x + n, n, x / n + 1, x % n);
  }

  lemma Remainder(x: nat, n: nat, q: nat, r: nat)
    requires n > 0 && x == q * n + r && r < n
    ensures x % n == r
  {
    var d := x / n - q;
    assert x == x / n * n + x % n;
    assert d * n == r - x % n;
    if d != 0 {
      Multiple(d, n);
    }
  }

  lemma {:induction false} Multiple(d: int, n: int)
    requires d != 0 && n > 0
    ensures d * n >= n || d * n <= -n
    decreases if d > 0 then d else -d
  {
    if d > 1 {
      Multiple(d - 1, n);
      assert d * n == (d - 1) * n + n;
    } else if d < -1 {
      Multiple(d + 1, n);
      assert d * n == (d + 1) * n - n;
    }
  }
}
