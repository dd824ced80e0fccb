/**
 The two length-prefixed framings that idempotency keys, claim scopes and
 journal-cursor scopes are hashed from, and why no two field lists share one.

 SHA-256 is idealised: wherever a digest only has to be collision free, it is
 represented by the bytes that were fed to the hasher.
 */
module Framing {

  type Byte = b: int | 0 <= b < 256
  type Bytes = seq<Byte>

  const NUL: Byte := 0
  const ZERO_DIGIT: Byte := 48

  // ---------------------------------------------------------------- decimal

  /** The decimal spelling of a length, as strconv.Itoa writes it. */
  function Decimal(n: nat): (r: Bytes)
    ensures r != []
  {
    if n < 10 then [ZERO_DIGIT + n] else Decimal(n / 10) + [ZERO_DIGIT + n % 10]
  }

  /** The number a digit string denotes. */
  function Value(digits: Bytes): int {
    if digits == [] then 0 else 10 * Value(digits[..|digits| - 1]) + (digits[|digits| - 1] - ZERO_DIGIT)
  }

  lemma {:induction false} DecimalDenotes(n: nat)
    ensures Value(Decimal(n)) == n
    ensures forall i :: 0 <= i < |Decimal(n)| ==> 48 <= Decimal(n)[i] <= 57
  {
    if n >= 10 {
      DecimalDenotes(n / 10);
      assert Decimal(n)[..|Decimal(n)| - 1] == Decimal(n / 10);
    }
  }

  // ---------------------------------------------------- decimal-length framing

  function FrameField(field: Bytes): Bytes { Decimal(|field|) + [NUL] + field }

  /** Every field written as its decimal length, a NUL, then its bytes. */
  function Frame(fields: seq<Bytes>): Bytes {
    if fields == [] then [] else FrameField(fields[0]) + Frame(fields[1..])
  }

  lemma {:induction false} FrameAppend(fields: seq<Bytes>, field: Bytes)
    ensures Frame(fields + [field]) == Frame(fields) + FrameField(field)
  {
    if fields == [] {
      assert Frame([field]) == FrameField(field) + Frame([field][1..]);
    } else {
      assert (fields + [field])[1..] == fields[1..] + [field];
      FrameAppend(fields[1..], field);
    }
  }

  /** The hasher's input, fed field by field. */
  method FramedPreimage(fields: seq<Bytes>) returns (written: Bytes)
    ensures written == Frame(fields)
  {
    written := [];
    for i := 0 to |fields|
      invariant written == Frame(fields[..i])
    {
      FrameAppend(fields[..i], fields[i]);
      assert fields[..i + 1] == fields[..i] + [fields[i]];
      written := written + Decimal(|fields[i]|);
      written := written + [NUL];
      written := written + fields[i];
    }
    assert fields[..|fields|] == fields;
  }

  /** A NUL cannot appear among decimal digits, so the first boundary is forced. */
  lemma PrefixForced(n: nat, m: nat, x: Bytes, y: Bytes)
    requires Decimal(n) + [NUL] + x == Decimal(m) + [NUL] + y
    ensures n == m && x == y
  {
    var a, b := Decimal(n) + [NUL] + x, Decimal(m) + [NUL] + y;
    DecimalDenotes(n);
    DecimalDenotes(m);
    assert a[|Decimal(n)|] == NUL && b[|Decimal(m)|] == NUL;
    assert forall i :: 0 <= i < |Decimal(n)| ==> a[i] != NUL;
    assert forall i :: 0 <= i < |Decimal(m)| ==> b[i] != NUL;
    assert |Decimal(n)| == |Decimal(m)|;
    assert Decimal(n) == a[..|Decimal(n)|] == Decimal(m);
    assert x == a[|Decimal(n)| + 1..] && y == b[|Decimal(m)| + 1..];
  }

  /** No two field lists, of any lengths, have the same framing. */
  lemma {:induction false} FrameInjective(fields: seq<Bytes>, others: seq<Bytes>)
    requires Frame(fields) == Frame(others)
    ensures fields == others
  {
    if fields != [] && others != [] {
      var f, g := fields[0], others[0];
      var x, y := f + Frame(fields[1..]), g + Frame(others[1..]);
      assert Frame(fields) == Decimal(|f|) + [NUL] + x;
      assert Frame(others) == Decimal(|g|) + [NUL] + y;
      PrefixForced(|f|, |g|, x, y);
      assert f == x[..|f|] && g == y[..|g|];
      assert Frame(fields[1..]) == x[|f|..] && Frame(others[1..]) == y[|g|..];
      FrameInjective(fields[1..], others[1..]);
    }
  }

  // ------------------------------------------------------ eight-byte framing

  /** The low `width` bytes of n, most significant first. */
  function BigEndian(n: nat, width: nat): (r: Bytes)
    ensures |r| == width
  {
    if width == 0 then [] else BigEndian(n / 256, width - 1) + [n % 256]
  }

  function Pow256(width: nat): (r: nat) ensures r > 0 { if width == 0 then 1 else 256 * Pow256(width - 1) }

  lemma {:induction false} BigEndianInjective(n: nat, m: nat, width: nat)
    requires n < Pow256(width) && m < Pow256(width)
    requires BigEndian(n, width) == BigEndian(m, width)
    ensures n == m
  {
    if width > 0 {
      var a, b := BigEndian(n, width), BigEndian(m, width);
      assert a[..width - 1] == BigEndian(n / 256, width - 1);
      assert b[..width - 1] == BigEndian(m / 256, width - 1);
      assert a[width - 1] == n % 256 && b[width - 1] == m % 256;
      BigEndianInjective(n / 256, m / 256, width - 1);
    }
  }

  function WideField(field: Bytes, width: nat): Bytes { BigEndian(|field|, width) + field }

  /**
   Every field written as its length in `width` big-endian bytes, then its
   bytes. The source's width is eight.
   */
  function WideFrame(fields: seq<Bytes>, width: nat): Bytes {
    if fields == [] then [] else WideField(fields[0], width) + WideFrame(fields[1..], width)
  }

  lemma {:induction false} WideFrameAppend(fields: seq<Bytes>, field: Bytes, width: nat)
    ensures WideFrame(fields + [field], width) == WideFrame(fields, width) + WideField(field, width)
  {
    if fields == [] {
      assert WideFrame([field], width) == WideField(field, width) + WideFrame([field][1..], width);
    } else {
      assert (fields + [field])[1..] == fields[1..] + [field];
      WideFrameAppend(fields[1..], field, width);
    }
  }

  /** A hasher that has already been fed `start`, fed the fields one by one. */
  method WidePreimage(start: Bytes, fields: seq<Bytes>, width: nat) returns (written: Bytes)
    ensures written == start + WideFrame(fields, width)
  {
    hide BigEndian;
    written := start;
    for i := 0 to |fields|
      invariant written == start + WideFrame(fields[..i], width)
    {
      WideFrameAppend(fields[..i], fields[i], width);
      assert fields[..i + 1] == fields[..i] + [fields[i]];
      written := written + BigEndian(|fields[i]|, width);
      written := written + fields[i];
    }
    assert fields[..|fields|] == fields;
  }

  /** Fields whose lengths fit the width. A Go length is below 2^63, so always fits eight bytes. */
  ghost predicate Fits(fields: seq<Bytes>, width: nat) {
    forall i :: 0 <= i < |fields| ==> |fields[i]| < Pow256(width)
  }

  lemma WidePrefixForced(f: Bytes, g: Bytes, x: Bytes, y: Bytes, width: nat)
    requires |f| < Pow256(width) && |g| < Pow256(width)
    requires WideField(f, width) + x == WideField(g, width) + y
    ensures f == g && x == y
  {
    var a, b := WideField(f, width) + x, WideField(g, width) + y;
    assert BigEndian(|f|, width) == a[..width];
    assert BigEndian(|g|, width) == b[..width];
    BigEndianInjective(|f|, |g|, width);
    assert f == a[width..width + |f|] && g == b[width..width + |g|];
    assert x == a[width + |f|..] && y == b[width + |g|..];
  }

  /** No two field lists, of any lengths, have the same fixed-width framing. */
  lemma {:induction false} WideFrameInjective(fields: seq<Bytes>, others: seq<Bytes>, width: nat)
    requires width > 0
    requires Fits(fields, width) && Fits(others, width)
    requires WideFrame(fields, width) == WideFrame(others, width)
    ensures fields == others
  {
    if fields != [] && others != [] {
      WidePrefixForced(fields[0], others[0], WideFrame(fields[1..], width), WideFrame(others[1..], width), width);
      WideFrameInjective(fields[1..], others[1..], width);
    }
  }
}
