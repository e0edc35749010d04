/** Byte buffers of any width: the recursive byte loops behind boost's endian buffers.

    Integers are unbounded here, so the conversions to the value type T are written out:
    `byte | (rest << 8)` is byte + 256 * rest, `value >> 8` is division rounding down. */
module Endian {

  type Byte = b: int | 0 <= b < 256

  /** The value type T: its size in bytes and its signedness. */
  datatype IntType = IntType(width: nat, signed: bool)

  const U32: IntType := IntType(4, false)
  const U64: IntType := IntType(8, false)

  function Pow256(n: nat): (p: nat)
    ensures p > 0
  {
    if n == 0 then 1 else 256 * Pow256(n - 1)
  }

  /** v reduced to n bytes: modulo 256^n, and sign-extended from the top byte if signed. */
  function Reduce(signed: bool, n: nat, v: int): int
    requires n > 0
  {
    var half := if signed then 128 * Pow256(n - 1) else 0;
    (v + half) % Pow256(n) - half
  }

  /** v is the value of some n bytes. */
  predicate Fits(signed: bool, n: nat, v: int)
    requires n > 0
  {
    var half := if signed then 128 * Pow256(n - 1) else 0;
    -half <= v < Pow256(n) - half
  }

  /** What reducing means: the same value modulo 256^n, in the range of n bytes, which for a signed type
      is symmetric around 0 but for the least value. */
  lemma ReduceMeans(signed: bool, n: nat, v: int)
    requires n > 0
    ensures var r := Reduce(signed, n, v);
            && (r - v) % Pow256(n) == 0
            && if signed then 0 <= Pow256(n) + 2 * r && 2 * r < Pow256(n) else 0 <= r < Pow256(n)
  {
    var half := if signed then 128 * Pow256(n - 1) else 0;
    Multiple(v, half, Pow256(n));
  }

  lemma Multiple(v: int, half: int, p: nat)
    requires p > 0
    ensures ((v + half) % p - half - v) % p == 0
  {
    var q := (v + half) / p;
    assert v + half == p * q + (v + half) % p;
    assert (-q) * p == -(p * q);
    DivisionIsUnique((v + half) % p - half - v, -q, p, 0);
  }

  /** static_cast<T>. */
  function Cast(t: IntType, v: int): int
    requires t.width > 0
  {
    Reduce(t.signed, t.width, v)
  }

  /** The loop body for a single byte. */
  function LoadByte(t: IntType, b: Byte): int {
    if t.signed && b >= 128 then b - 256 else b
  }

  function LoadBig(t: IntType, bytes: seq<Byte>): int
    requires 0 < |bytes| && t.width > 0
  {
    var n := |bytes|;
    if n == 1 then LoadByte(t, bytes[0])
    else Cast(t, bytes[n - 1] + 256 * LoadBig(t, bytes[..n - 1]))
  }

  function LoadLittle(t: IntType, bytes: seq<Byte>): int
    requires 0 < |bytes| && t.width > 0
  {
    if |bytes| == 1 then LoadByte(t, bytes[0])
    else Cast(t, bytes[0] + 256 * LoadLittle(t, bytes[1..]))
  }

  function StoreBig(t: IntType, n: nat, v: int): (bytes: seq<Byte>)
    requires 0 < n && t.width > 0
    ensures |bytes| == n
  {
    if n == 1 then [v % 256] else StoreBig(t, n - 1, Cast(t, v / 256)) + [v % 256]
  }

  function StoreLittle(t: IntType, n: nat, v: int): (bytes: seq<Byte>)
    requires 0 < n && t.width > 0
    ensures |bytes| == n
  {
    if n == 1 then [v % 256] else [v % 256] + StoreLittle(t, n - 1, Cast(t, v / 256))
  }

  function Reverse<A>(s: seq<A>): (r: seq<A>)
    ensures |r| == |s|
    ensures forall i :: 0 <= i < |s| ==> r[i] == s[|s| - 1 - i]
  {
    if s == [] then [] else Reverse(s[1..]) + [s[0]]
  }

  // --- The same loops, writing into memory -------------------------------------------------

  /** store_big on the n bytes that start at `base`, last byte first. */
  method StoreBigInto(a: array<Byte>, base: nat, n: nat, t: IntType, v: int)
    requires 0 < n && base + n <= a.Length && t.width > 0
    modifies a
    ensures a[base..base + n] == StoreBig(t, n, v)
    ensures a[..base] == old(a[..base]) && a[base + n..] == old(a[base + n..])
    decreases n
  {
    a[base + n - 1] := v % 256;
    if n > 1 {
      ghost var last := a[base + n - 1..];
      StoreBigInto(a, base, n - 1, t, Cast(t, v / 256));
      assert a[base + n - 1..] == last;
      assert a[base + n - 1] == last[0] == v % 256;
      assert a[base..base + n] == a[base..base + (n - 1)] + [a[base + n - 1]];
      assert a[base + n..] == last[1..];
    }
  }

  /** store_little on the n bytes that start at `base`, first byte first. */
  method StoreLittleInto(a: array<Byte>, base: nat, n: nat, t: IntType, v: int)
    requires 0 < n && base + n <= a.Length && t.width > 0
    modifies a
    ensures a[base..base + n] == StoreLittle(t, n, v)
    ensures a[..base] == old(a[..base]) && a[base + n..] == old(a[base + n..])
    decreases n
  {
    a[base] := v % 256;
    if n > 1 {
      ghost var first := a[..base + 1];
      StoreLittleInto(a, base + 1, n - 1, t, Cast(t, v / 256));
      assert a[..base + 1] == first;
      assert a[base] == first[base] == v % 256;
      assert a[base..base + n] == [a[base]] + a[base + 1..base + 1 + (n - 1)];
      assert a[..base] == first[..base];
    }
  }

  /** An unaligned big-endian endian_buffer. */
  class BigBuffer {
    const t: IntType
    const bytes: array<Byte>

    predicate Valid()
      reads this, bytes
    {
      0 < bytes.Length <= t.width
    }

    constructor (t: IntType, n: nat)
      requires 0 < n <= t.width
      ensures Valid() && fresh(bytes) && bytes.Length == n && this.t == t
    {
      this.t := t;
      bytes := new Byte[n](i => 0);
    }

    method Assign(v: int)
      requires Valid()
      modifies bytes
      ensures bytes[..] == StoreBig(t, bytes.Length, v)
    {
      StoreBigInto(bytes, 0, bytes.Length, t, v);
      assert bytes[..] == bytes[0..0 + bytes.Length];
    }

    function Value(): int
      requires Valid()
      reads this, bytes
    {
      LoadBig(t, bytes[..])
    }
  }

  // --- Arithmetic of reduction -------------------------------------------------------------

  lemma AtLeastOne(d: int, m: int)
    requires d != 0 && m > 0
    ensures d * m >= m || d * m + m <= 0
  {
    if d > 0 {
      assert (d - 1) * m >= 0;
    } else {
      assert (-1 - d) * m >= 0;
    }
  }

  lemma DivisionIsUnique(x: int, q: int, m: int, r: int)
    requires m > 0 && 0 <= r < m && x == q * m + r
    ensures x % m == r && x / m == q
  {
    var d := q - x / m;
    assert x == m * (x / m) + x % m;
    assert d * m == q * m - (x / m) * m;
    if d != 0 {
      AtLeastOne(d, m);
    }
  }

  lemma ModSplit(v: int, p: nat)
    requires p > 0
    ensures v % (256 * p) == v % 256 + 256 * ((v / 256) % p)
  {
    var q, r := (v / 256) / p, (v / 256) % p;
    assert v / 256 == q * p + r;
    assert v == 256 * (q * p + r) + v % 256;
    assert 256 * (q * p) == q * (256 * p);
    DivisionIsUnique(v, q, 256 * p, 256 * r + v % 256);
  }

  lemma ShiftedDivision(v: int, h: int)
    ensures (v + 256 * h) % 256 == v % 256 && (v + 256 * h) / 256 == v / 256 + h
  {
    DivisionIsUnique(v + 256 * h, v / 256 + h, 256, v % 256);
  }

  /** Reducing to n bytes keeps the low byte and reduces the rest to n - 1 bytes. */
  lemma ReduceSplit(signed: bool, n: nat, v: int)
    requires n > 1
    ensures Reduce(signed, n, v) == v % 256 + 256 * Reduce(signed, n - 1, v / 256)
  {
    var h := if signed then 128 * Pow256(n - 2) else 0;
    ModSplit(v + 256 * h, Pow256(n - 1));
    ShiftedDivision(v, h);
  }

  lemma {:induction false} PowMonotone(m: nat, n: nat)
    requires m <= n
    ensures Pow256(m) <= Pow256(n)
  {
    if m < n {
      PowMonotone(m, n - 1);
    }
  }

  lemma ReduceFits(signed: bool, n: nat, v: int)
    requires n > 0
    ensures Fits(signed, n, Reduce(signed, n, v))
    ensures Reduce(signed, n, v) == v <==> Fits(signed, n, v)
  {
    var half := if signed then 128 * Pow256(n - 1) else 0;
    if Fits(signed, n, v) {
      DivisionIsUnique(v + half, 0, Pow256(n), v + half);
    }
  }

  lemma FitsWider(signed: bool, m: nat, n: nat, v: int)
    requires 0 < m <= n && Fits(signed, m, v)
    ensures Fits(signed, n, v)
  {
    PowMonotone(m - 1, n - 1);
  }

  lemma QuotientInRange(t: IntType, v: int)
    requires t.width > 0 && Fits(t.signed, t.width, v)
    ensures Fits(t.signed, t.width, v / 256)
  {
  }

  lemma QuotientFits(t: IntType, v: int)
    requires t.width > 0 && Fits(t.signed, t.width, v)
    ensures Cast(t, v / 256) == v / 256
  {
    ReduceFits(t.signed, t.width, v / 256);
  }

  lemma CastReduced(t: IntType, n: nat, v: int)
    requires 0 < n <= t.width
    ensures Cast(t, Reduce(t.signed, n, v)) == Reduce(t.signed, n, v)
  {
    ReduceFits(t.signed, n, v);
    FitsWider(t.signed, n, t.width, Reduce(t.signed, n, v));
    ReduceFits(t.signed, t.width, Reduce(t.signed, n, v));
  }

  lemma ReduceToByte(t: IntType, v: int)
    ensures LoadByte(t, v % 256) == Reduce(t.signed, 1, v)
  {
    assert Pow256(0) == 1 && Pow256(1) == 256;
  }

  /** A byte below n - 1 bytes that fit makes n bytes that fit. */
  lemma AppendFits(signed: bool, n: nat, high: int, b: Byte)
    requires n > 1 && Fits(signed, n - 1, high)
    ensures Fits(signed, n, b + 256 * high)
  {
    assert Pow256(n) == 256 * Pow256(n - 1) && Pow256(n - 1) == 256 * Pow256(n - 2);
  }

  // --- Round trips and layout --------------------------------------------------------------

  /** One turn of the load loop on a stored value. */
  lemma LoadStored(t: IntType, n: nat, v: int)
    requires 1 < n <= t.width && Fits(t.signed, t.width, v)
    ensures LoadBig(t, StoreBig(t, n, v)) == Cast(t, v % 256 + 256 * LoadBig(t, StoreBig(t, n - 1, v / 256)))
  {
    QuotientFits(t, v);
    assert StoreBig(t, n, v)[..n - 1] == StoreBig(t, n - 1, v / 256);
  }

  /** Loading what was stored, at any width: v reduced to n bytes. */
  lemma {:induction false} BigRoundTrip(t: IntType, n: nat, v: int)
    requires 0 < n <= t.width && Fits(t.signed, t.width, v)
    ensures LoadBig(t, StoreBig(t, n, v)) == Reduce(t.signed, n, v)
  {
    if n > 1 {
      LoadStored(t, n, v);
      QuotientInRange(t, v);
      BigRoundTrip(t, n - 1, v / 256);
      ReduceSplit(t.signed, n, v);
      CastReduced(t, n, v);
    } else {
      ReduceToByte(t, v);
    }
  }

  /** A buffer gives back exactly what was assigned if and only if the value fits its width. */
  lemma BigRoundTripExact(t: IntType, n: nat, v: int)
    requires 0 < n <= t.width && Fits(t.signed, t.width, v)
    ensures LoadBig(t, StoreBig(t, n, v)) == v <==> Fits(t.signed, n, v)
  {
    BigRoundTrip(t, n, v);
    ReduceFits(t.signed, n, v);
  }

  /** The two stored layouts are byte reversals of each other. */
  lemma {:induction false} LayoutsMirror(t: IntType, n: nat, v: int)
    requires 0 < n && t.width > 0
    ensures StoreBig(t, n, v) == Reverse(StoreLittle(t, n, v))
  {
    if n > 1 {
      LayoutsMirror(t, n - 1, Cast(t, v / 256));
      assert StoreLittle(t, n, v)[1..] == StoreLittle(t, n - 1, Cast(t, v / 256));
    }
  }

  /** Reading little-endian is reading the mirrored bytes big-endian. */
  lemma {:induction false} LoadsMirror(t: IntType, bytes: seq<Byte>)
    requires 0 < |bytes| && t.width > 0
    ensures LoadLittle(t, bytes) == LoadBig(t, Reverse(bytes))
  {
    if |bytes| > 1 {
      LoadsMirror(t, bytes[1..]);
      assert Reverse(bytes)[..|bytes| - 1] == Reverse(bytes[1..]);
    }
  }

  lemma LittleRoundTrip(t: IntType, n: nat, v: int)
    requires 0 < n <= t.width && Fits(t.signed, t.width, v)
    ensures LoadLittle(t, StoreLittle(t, n, v)) == Reduce(t.signed, n, v)
    ensures LoadLittle(t, StoreLittle(t, n, v)) == v <==> Fits(t.signed, n, v)
  {
    LoadsMirror(t, StoreLittle(t, n, v));
    LayoutsMirror(t, n, v);
    BigRoundTrip(t, n, v);
    ReduceFits(t.signed, n, v);
  }

  /** Storing what was loaded gives the bytes back, so distinct contents have distinct values. */
  lemma {:induction false} StoreUndoesLoad(t: IntType, bytes: seq<Byte>)
    requires 0 < |bytes| <= t.width
    ensures Fits(t.signed, |bytes|, LoadBig(t, bytes))
    ensures StoreBig(t, |bytes|, LoadBig(t, bytes)) == bytes
  {
    var n := |bytes|;
    if n > 1 {
      StoreUndoesLoad(t, bytes[..n - 1]);
      ShiftIn(t, n, LoadBig(t, bytes[..n - 1]), bytes[n - 1]);
      assert bytes == bytes[..n - 1] + [bytes[n - 1]];
    } else {
      assert Pow256(1) == 256 && Pow256(0) == 1;
      assert bytes == [bytes[0]];
    }
  }

  /** One turn of the load loop, seen from the store loop. */
  lemma ShiftIn(t: IntType, n: nat, high: int, b: Byte)
    requires 1 < n <= t.width && Fits(t.signed, n - 1, high)
    ensures var v := Cast(t, b + 256 * high);
            Fits(t.signed, n, v) && v % 256 == b && Cast(t, v / 256) == high
  {
    var v := b + 256 * high;
    AppendFits(t.signed, n, high, b);
    FitsWider(t.signed, n, t.width, v);
    ReduceFits(t.signed, t.width, v);
    ShiftedDivision(b, high);
    QuotientFits(t, v);
  }

  lemma ReverseTwice<A>(s: seq<A>)
    ensures Reverse(Reverse(s)) == s
  {
  }

  lemma StoreUndoesLoadLittle(t: IntType, bytes: seq<Byte>)
    requires 0 < |bytes| <= t.width
    ensures Fits(t.signed, |bytes|, LoadLittle(t, bytes))
    ensures StoreLittle(t, |bytes|, LoadLittle(t, bytes)) == bytes
  {
    var v := LoadLittle(t, bytes);
    LoadsMirror(t, bytes);
    StoreUndoesLoad(t, Reverse(bytes));
    LayoutsMirror(t, |bytes|, v);
    ReverseTwice(StoreLittle(t, |bytes|, v));
    ReverseTwice(bytes);
  }

  /** Putting a byte below bytes that fit changes nothing in T. */
  lemma CastAppended(t: IntType, n: nat, high: int, b: Byte)
    requires 1 < n <= t.width && Fits(t.signed, n - 1, high)
    ensures Cast(t, b + 256 * high) == b + 256 * high
  {
    AppendFits(t.signed, n, high, b);
    FitsWider(t.signed, n, t.width, b + 256 * high);
    ReduceFits(t.signed, t.width, b + 256 * high);
  }

  /** A load of more than one byte is the positional value of the bytes. */
  lemma Horner(t: IntType, bytes: seq<Byte>)
    requires 1 < |bytes| <= t.width
    ensures LoadLittle(t, bytes) == bytes[0] + 256 * LoadLittle(t, bytes[1..])
  {
    StoreUndoesLoadLittle(t, bytes[1..]);
    CastAppended(t, |bytes|, LoadLittle(t, bytes[1..]), bytes[0]);
    LoadLittleTurn(t, bytes);
  }

  lemma LoadLittleTurn(t: IntType, bytes: seq<Byte>)
    requires 1 < |bytes| && t.width > 0
    ensures LoadLittle(t, bytes) == Cast(t, bytes[0] + 256 * LoadLittle(t, bytes[1..]))
  {
  }
}
