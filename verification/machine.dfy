/**
 Machine arithmetic the widgets rely on: unsigned integers that wrap (the
 release-build behaviour of `u32`/`u64` overflow), float divisions that may
 produce an infinity or NaN, and the spacing computed for a row of
 equal-width bars or graphs.
 */
module Machine {
  import opened Wrappers

  const U32Modulus: nat := 0x1_0000_0000
  const U64Modulus: nat := 0x1_0000_0000_0000_0000

  predicate IsU32(x: int) {
    0 <= x < U32Modulus
  }

  /** The `u32` an exact result wraps to. */
  function WrapU32(x: int): (r: nat)
    ensures IsU32(r)
    ensures (x - r) % U32Modulus == 0
    ensures IsU32(x) ==> r == x
  {
    x % U32Modulus
  }

  /** The `u64` an exact result wraps to. */
  function WrapU64(x: int): (r: nat)
    ensures r < U64Modulus
    ensures (x - r) % U64Modulus == 0
    ensures 0 <= x < U64Modulus ==> r == x
  {
    x % U64Modulus
  }

  /** Half the `u32` range: the `i32` values are `-I32Span .. I32Span - 1`. */
  const I32Span: int := 0x8000_0000

  /**
   `u as i32` for a `u32`: the same bits read as two's complement, so values
   from `2^31` up become negative.
   */
  function AsI32(u: nat): (w: int)
    requires IsU32(u)
    ensures -I32Span <= w < I32Span
    ensures (w - u) % U32Modulus == 0
    ensures w >= 0 <==> u < I32Span
    ensures w >= 0 ==> w == u
  {
    if u >= I32Span then u - U32Modulus else u
  }

  /** Casting back, `w as u32`, recovers the original bits. */
  lemma AsI32RoundTrip(u: nat)
    requires IsU32(u)
    ensures WrapU32(AsI32(u)) == u
  {
  }

  /** An `f32` result: a finite value, or an infinity or NaN. */
  datatype Ratio = Finite(value: real) | NonFinite

  /** Float division; a zero divisor gives an infinity or NaN. */
  function Divide(a: real, b: real): (r: Ratio)
    ensures r.Finite? <==> b != 0.0
    ensures r.Finite? ==> r.value * b == a
  {
    if b == 0.0 then NonFinite else Finite(a / b)
  }

  /** Division of a float that may already be an infinity or NaN. */
  function DivideRatio(x: Ratio, b: real): (r: Ratio)
    ensures r.Finite? <==> x.Finite? && b != 0.0
    ensures r.Finite? ==> r.value * b == x.value
  {
    match x
    case NonFinite => NonFinite
    case Finite(a) => Divide(a, b)
  }

  const DivideByZero := "attempt to divide by zero"

  /**
   The gap between `count` bars of width `width` spread across
   `containerWidth`: `(container_width - count * width) / (count - 1)` in
   `u32`. The subtraction and multiplication wrap; a single bar divides by
   zero.
   */
  function BarSpacing(containerWidth: nat, count: nat, width: nat): (o: Outcome<nat>)
    requires IsU32(containerWidth) && IsU32(count) && IsU32(width)
    ensures o.Panic? <==> count == 1
    ensures o.Done? ==> IsU32(o.value)
  {
    var divisor := Gaps(count);
    if divisor == 0 then Panic(DivideByZero)
    else Done(Quotient(FreeWidth(containerWidth, count, width), divisor))
  }

  /** `count - 1` in `u32`: zero only for a single bar; no bars wrap to the maximum. */
  function Gaps(count: nat): (d: nat)
    requires IsU32(count)
    ensures IsU32(d)
    ensures d == 0 <==> count == 1
    ensures count >= 1 ==> d == count - 1
  {
    if count == 0 then
      assert WrapU32(-1) == U32Modulus - 1;
      WrapU32(-1)
    else WrapU32(count - 1)
  }

  /** `container_width - count * width` in `u32`, both operations wrapping. */
  function FreeWidth(containerWidth: nat, count: nat, width: nat): (r: nat)
    ensures IsU32(r)
    ensures count * width <= containerWidth < U32Modulus ==> r == containerWidth - count * width
  {
    WrapU32(containerWidth - WrapU32(count * width))
  }

  /** Unsigned division; the quotient is no larger than the dividend. */
  function Quotient(a: nat, d: nat): (q: nat)
    requires d >= 1
    ensures q <= a
    ensures d * q <= a < d * (q + 1)
  {
    var q := a / d;
    assert a == d * q + a % d;
    assert d * (q + 1) == d * q + d;
    assert q <= d * q by { MulAtLeast(d, q); }
    q
  }

  lemma {:induction false} MulAtLeast(d: nat, k: nat)
    requires d >= 1
    ensures d * k >= k
    decreases d
  {
    if d > 1 {
      MulAtLeast(d - 1, k);
      assert d * k == (d - 1) * k + k;
    }
  }

  /**
   When the bars fit, the spacing is the widest that still fits: the bars
   and `count - 1` gaps fill the container with less than one more gap's
   worth of slack per gap.
   */
  lemma BarSpacingFits(containerWidth: nat, count: nat, width: nat)
    requires IsU32(containerWidth) && IsU32(count) && IsU32(width)
    requires 2 <= count && count * width <= containerWidth
    ensures var o := BarSpacing(containerWidth, count, width);
      && o.Done?
      && count * width + (count - 1) * o.value <= containerWidth
      && containerWidth < count * width + (count - 1) * (o.value + 1)
  {
    var free := FreeWidth(containerWidth, count, width);
    var gap := Quotient(free, count - 1);
    assert free == containerWidth - count * width;
    assert (count - 1) * gap <= free < (count - 1) * (gap + 1);
  }

  /** When they do not fit, the subtraction wraps and the spacing is enormous. */
  lemma BarSpacingOverflow()
    ensures BarSpacing(100, 2, 60) == Done(U32Modulus - 20)
  {
  }

  /** Handed to GTK as an `i32`, that wrapped spacing reads as a negative gap. */
  lemma OverflowSpacingNegative()
    ensures AsI32(BarSpacing(100, 2, 60).value) == -20
  {
  }
}
