/** The padding of section 6.3 of RFC 5652, as pkcs7Pad and pkcs7Unpad do it. */
module Padding {
  import opened Common
  import opened Bytes

  datatype Error = InvalidBlockSize | InvalidData | InvalidPadding

  datatype Result = Ok(value: Bytes) | Err(error: Error)

  /** The number of bytes to add: 1 to blocksize, up to the next larger multiple. */
  function Fill(length: nat, blocksize: nat): (n: nat)
    requires blocksize > 0
    ensures 1 <= n <= blocksize
  {
    blocksize - length % blocksize
  }

  /** Empty data is refused; the count of added bytes is cut to a byte. */
  function Pad(b: Bytes, blocksize: int): Result {
    if blocksize <= 0 then Err(InvalidBlockSize)
    else if b == [] then Err(InvalidData)
    else Ok(b + Repeat(Fill(|b|, blocksize) % 256, Fill(|b|, blocksize)))
  }

  function Unpad(b: Bytes, blocksize: int): Result {
    if blocksize <= 0 then Err(InvalidBlockSize)
    else if b == [] then Err(InvalidData)
    else if |b| % blocksize != 0 then Err(InvalidPadding)
    else
      var n := b[|b| - 1];
      if n == 0 || n > |b| then Err(InvalidPadding)
      else if b[|b| - n..] != Repeat(n, n) then Err(InvalidPadding)
      else Ok(b[..|b| - n])
  }

  method Pkcs7Pad(b: array<byte>, blocksize: int) returns (pb: array?<byte>, error: Error)
    ensures match Pad(b[..], blocksize)
            case Ok(v) => pb != null && fresh(pb) && pb[..] == v
            case Err(e) => pb == null && error == e
  {
    pb, error := null, InvalidBlockSize;
    if blocksize <= 0 {
      return;
    }
    if b.Length == 0 {
      error := InvalidData;
      return;
    }
    var n := blocksize - b.Length % blocksize;
    var padded := new byte[b.Length + n];
    forall i | 0 <= i < b.Length {
      padded[i] := b[i];
    }
    var i := 0;
    while i < n
      invariant 0 <= i <= n && padded[..b.Length] == b[..]
      invariant forall j :: b.Length <= j < b.Length + i ==> padded[j] == n % 256
    {
      padded[b.Length + i] := n % 256;
      i := i + 1;
    }
    assert padded[..] == padded[..b.Length] + padded[b.Length..];
    assert padded[b.Length..] == Repeat(n % 256, n);
    pb := padded;
  }

  method Pkcs7Unpad(b: array<byte>, blocksize: int) returns (res: Result)
    ensures res == Unpad(b[..], blocksize)
  {
    if blocksize <= 0 {
      return Err(InvalidBlockSize);
    }
    if b.Length == 0 {
      return Err(InvalidData);
    }
    if b.Length % blocksize != 0 {
      return Err(InvalidPadding);
    }
    var c := b[b.Length - 1];
    var n: int := c;
    if n == 0 || n > b.Length {
      return Err(InvalidPadding);
    }
    var i := 0;
    while i < n
      invariant 0 <= i <= n && forall j :: b.Length - n <= j < b.Length - n + i ==> b[j] == c
    {
      if b[b.Length - n + i] != c {
        assert b[..][b.Length - n..][i] != Repeat(c, n)[i];
        return Err(InvalidPadding);
      }
      i := i + 1;
    }
    assert b[..][b.Length - n..] == Repeat(c, n);
    assert b[..b.Length - n] == b[..][..b.Length - n];
    res := Ok(b[..b.Length - n]);
  }

  /** The last byte says how many bytes at the end are equal to it. */
  ghost predicate EndsInCount(b: Bytes)
    requires b != []
  {
    var n := b[|b| - 1];
    0 < n <= |b| && forall k :: |b| - n <= k < |b| ==> b[k] == n
  }

  /** Which error says what: the block size, then missing data, then anything that does not end in its own count. */
  lemma {:induction false} UnpadErrors(b: Bytes, blocksize: int)
    ensures Unpad(b, blocksize) == Err(InvalidBlockSize) <==> blocksize <= 0
    ensures Unpad(b, blocksize) == Err(InvalidData) <==> blocksize > 0 && b == []
    ensures Unpad(b, blocksize) == Err(InvalidPadding) <==>
              blocksize > 0 && b != [] && (|b| % blocksize != 0 || !EndsInCount(b))
  {
    if blocksize > 0 && b != [] {
      var n := b[|b| - 1];
      if 0 < n <= |b| {
        EndsIn(b, n);
      }
    }
  }

  lemma EndsIn(b: Bytes, n: byte)
    requires 0 < n <= |b|
    ensures b[|b| - n..] == Repeat(n, n) <==> forall k :: |b| - n <= k < |b| ==> b[k] == n
  {
    var end := b[|b| - n..];
    if end == Repeat(n, n) {
      forall k | |b| - n <= k < |b|
        ensures b[k] == n
      {
        assert end[k - (|b| - n)] == n;
      }
    }
  }

  /** And when padding fails. */
  lemma PadErrors(b: Bytes, blocksize: int)
    ensures Pad(b, blocksize) == Err(InvalidBlockSize) <==> blocksize <= 0
    ensures Pad(b, blocksize) == Err(InvalidData) <==> blocksize > 0 && b == []
    ensures Pad(b, blocksize).Ok? <==> blocksize > 0 && b != []
  {
  }

  /** What is padded has the next strictly larger multiple of the block size as its length. */
  lemma PadLength(b: Bytes, blocksize: int)
    requires b != [] && blocksize > 0
    ensures Pad(b, blocksize).Ok?
    ensures var n := |Pad(b, blocksize).value|;
            n % blocksize == 0 && |b| < n <= |b| + blocksize
            && forall m: nat :: |b| < m && m % blocksize == 0 ==> n <= m
  {
    var n := |Pad(b, blocksize).value|;
    var q := |b| / blocksize;
    assert |b| == q * blocksize + |b| % blocksize;
    assert n == (q + 1) * blocksize;
    Remainder(n, blocksize, q + 1, 0);
    forall m: nat | |b| < m && m % blocksize == 0
      ensures n <= m
    {
      NextMultiple(m, q, blocksize);
    }
  }

  lemma NextMultiple(m: nat, q: nat, blocksize: nat)
    requires blocksize > 0 && m % blocksize == 0 && m > q * blocksize
    ensures m >= (q + 1) * blocksize
  {
    var k := m / blocksize;
    assert m == k * blocksize;
    if k < q + 1 {
      Monotone(k, q, blocksize);
    }
  }

  lemma Monotone(k: nat, q: nat, blocksize: nat)
    requires k <= q
    ensures k * blocksize <= q * blocksize
  {
  }

  /** Unpadding takes off exactly what padding put on, as long as the count of added bytes fits a byte. */
  lemma {:induction false} UnpadPad(b: Bytes, blocksize: int)
    requires b != [] && 1 <= blocksize <= 255
    ensures Pad(b, blocksize).Ok? && Unpad(Pad(b, blocksize).value, blocksize) == Ok(b)
  {
    PadLength(b, blocksize);
    var n := Fill(|b|, blocksize);
    var padded := Pad(b, blocksize).value;
    assert padded[|padded| - n..] == Repeat(n, n) && padded[..|padded| - n] == b;
  }

  /** For any block size the round trip works exactly when the count of added bytes is no more than 255. */
  lemma {:induction false} RoundTripIff(b: Bytes, blocksize: int)
    requires b != [] && blocksize > 0
    ensures Unpad(Pad(b, blocksize).value, blocksize) == Ok(b) <==> Fill(|b|, blocksize) <= 255
  {
    PadLength(b, blocksize);
    var n := Fill(|b|, blocksize);
    var padded := Pad(b, blocksize).value;
    if n <= 255 {
      assert padded[|padded| - n..] == Repeat(n, n) && padded[..|padded| - n] == b;
    } else {
      assert padded[|padded| - 1] == n % 256;
    }
  }

  /** Nothing but padded data is accepted: what unpads to b is b with as many bytes of that count behind it. */
  lemma {:induction false} UnpadIsPadded(p: Bytes, blocksize: int)
    requires Unpad(p, blocksize).Ok?
    ensures var b := Unpad(p, blocksize).value;
            var n := |p| - |b|;
            1 <= n <= 255 && p == b + Repeat(n, n) && (|b| + n) % blocksize == 0
    ensures var b := Unpad(p, blocksize).value;
            b != [] && |p| - |b| <= blocksize ==> Pad(b, blocksize) == Ok(p)
  {
    var b := Unpad(p, blocksize).value;
    var n := |p| - |b|;
    assert p == b + p[|p| - n..];
    if b != [] && n <= blocksize {
      FillIs(|b|, n, blocksize);
    }
  }

  lemma FillIs(length: nat, n: nat, blocksize: nat)
    requires 1 <= n <= blocksize && (length + n) % blocksize == 0
    ensures Fill(length, blocksize) == n
  {
    var k := (length + n) / blocksize;
    assert length + n == k * blocksize;
    if n == blocksize {
      assert length == (k - 1) * blocksize;
      Remainder(length, blocksize, k - 1, 0);
    } else {
      assert length == (k - 1) * blocksize + (blocksize - n);
      if k == 0 {
        assert false;
      }
      Remainder(length, blocksize, k - 1, blocksize - n);
    }
  }
}
