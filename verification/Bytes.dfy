/** Byte strings, as Go strings and slices are, and the encodings built on them. */
module Bytes {

  type byte = x: int | 0 <= x < 256

  type Bytes = seq<byte>

  function HexDigit(d: byte): (c: byte)
    requires d < 16
    ensures 48 <= c <= 57 || 97 <= c <= 102
  {
    if d < 10 then 48 + d else 87 + d
  }

  function Hex(b: Bytes): (h: Bytes)
    ensures |h| == 2 * |b|
    ensures forall i :: 0 <= i < |h| ==> 48 <= h[i] <= 57 || 97 <= h[i] <= 102
  {
    if b == [] then [] else [HexDigit(b[0] / 16), HexDigit(b[0] % 16)] + Hex(b[1..])
  }

  lemma {:induction false} HexInjective(a: Bytes, b: Bytes)
    requires Hex(a) == Hex(b)
    ensures a == b
  {
    if a != [] {
      assert Hex(a)[..2] == Hex(b)[..2] && Hex(a)[2..] == Hex(b)[2..];
      assert Hex(a)[2..] == Hex(a[1..]) && Hex(b)[2..] == Hex(b[1..]);
      HexInjective(a[1..], b[1..]);
      assert Hex(a)[0] == Hex(b)[0] && Hex(a)[1] == Hex(b)[1];
      assert a[0] == a[0] / 16 * 16 + a[0] % 16 && b[0] == b[0] / 16 * 16 + b[0] % 16;
    }
  }

  function Decimal(n: nat): Bytes {
    if n < 10 then [48 + n] else Decimal(n / 10) + [48 + n % 10]
  }

  lemma {:induction false} DecimalInjective(a: nat, b: nat)
    requires Decimal(a) == Decimal(b)
    ensures a == b
  {
    if a >= 10 && b >= 10 {
      var p, q := Decimal(a / 10), Decimal(b / 10);
      assert p == Decimal(a)[..|Decimal(a)| - 1] == Decimal(b)[..|Decimal(b)| - 1] == q;
      DecimalInjective(a / 10, b / 10);
      assert Decimal(a)[|p|] == 48 + a % 10 && Decimal(b)[|q|] == 48 + b % 10;
    } else {
      DecimalSize(a);
      DecimalSize(b);
    }
  }

  lemma {:induction false} DecimalSize(n: nat)
    ensures |Decimal(n)| >= 1 && (n >= 10 ==> |Decimal(n)| >= 2)
  {
    if n >= 10 {
      DecimalSize(n / 10);
    }
  }

  function Repeat(c: byte, n: nat): (s: Bytes)
    ensures |s| == n && forall i :: 0 <= i < n ==> s[i] == c
  {
    seq(n, _ => c)
  }

  /** The keys of a metafile, one a line. */
  function Join(keys: seq<Bytes>, sep: byte): Bytes {
    if keys == [] then []
    else if |keys| == 1 then keys[0]
    else keys[0] + [sep] + Join(keys[1..], sep)
  }

  /** The pieces between separators; the empty string has one empty piece. */
  function Split(s: Bytes, sep: byte): (keys: seq<Bytes>)
    ensures keys != []
  {
    if s == [] then [[]]
    else
      var rest := Split(s[1..], sep);
      if s[0] == sep then [[]] + rest else [[s[0]] + rest[0]] + rest[1..]
  }

  lemma {:induction false} SplitPiece(s: Bytes, t: Bytes, sep: byte)
    requires sep !in s
    ensures Split(s + [sep] + t, sep) == [s] + Split(t, sep)
  {
    var all := s + [sep] + t;
    if s == [] {
      assert all[1..] == t;
    } else {
      assert all[1..] == s[1..] + [sep] + t && s[0] in s;
      SplitPiece(s[1..], t, sep);
      assert [s[0]] + s[1..] == s;
    }
  }

  lemma {:induction false} SplitWhole(s: Bytes, sep: byte)
    requires sep !in s
    ensures Split(s, sep) == [s]
  {
    if s != [] {
      assert s[0] in s;
      SplitWhole(s[1..], sep);
      assert [s[0]] + s[1..] == s;
    }
  }

  /** Splitting gives back the pieces that were joined. */
  lemma {:induction false} SplitJoin(keys: seq<Bytes>, sep: byte)
    requires keys != [] && forall k :: k in keys ==> sep !in k
    ensures Split(Join(keys, sep), sep) == keys
  {
    if |keys| == 1 {
      SplitWhole(keys[0], sep);
    } else {
      SplitPiece(keys[0], Join(keys[1..], sep), sep);
      SplitJoin(keys[1..], sep);
    }
  }
}
