/** Capacity arithmetic of the controller: internal/driver/controller.go. */
module Capacity {

  const TWO63: int := 0x8000_0000_0000_0000
  const BYTES_IN_GIB: int := 0x4000_0000
  const MIN_VOLUME_SIZE_GIB: int := 10

  /** A Go int64, and a Go int on a 64-bit platform. */
  type Int64 = x: int | -TWO63 <= x < TWO63

  /** Two's complement wrap-around. */
  function Wrap(x: int): (r: Int64) {
    (x + TWO63) % (2 * TWO63) - TWO63
  }

  datatype SizeResult = Size(gib: Int64) | InvalidArgument | OutOfRange

  function ResolveSizeGiB(required: Int64, limit: Int64): SizeResult {
    if required < 0 || limit < 0 then InvalidArgument
    else if limit > 0 && required > limit then InvalidArgument
    else
      var rounded := Wrap(Wrap(required + BYTES_IN_GIB) - 1);
      if rounded < required then OutOfRange
      else
        var whole := rounded / BYTES_IN_GIB;
        var gib := if whole < MIN_VOLUME_SIZE_GIB then MIN_VOLUME_SIZE_GIB else whole;
        if limit > 0 && Wrap(gib * BYTES_IN_GIB) > limit then OutOfRange else Size(gib)
  }

  /** Zero stands for "no upper bound". */
  function LimitSizeGiB(limit: Int64): Int64 {
    if limit <= 0 then 0 else limit / BYTES_IN_GIB
  }

  /** The capacity_bytes a response reports for a volume of `size` GiB. */
  function CapacityBytes(size: Int64): Int64 {
    Wrap(size * BYTES_IN_GIB)
  }

  ghost predicate Malformed(required: Int64, limit: Int64) {
    required < 0 || limit < 0 || (limit > 0 && required > limit)
  }

  /** A size in GiB that meets the request and can be expressed in bytes. */
  ghost predicate Meets(required: Int64, limit: Int64, n: int) {
    && MIN_VOLUME_SIZE_GIB <= n
    && required <= n * BYTES_IN_GIB < TWO63
    && (limit > 0 ==> n * BYTES_IN_GIB <= limit)
  }

  lemma WrapInRange(x: int)
    requires -TWO63 <= x < TWO63
    ensures Wrap(x) == x
  {
  }

  /** Adding `BYTES_IN_GIB - 1` stays in range or wraps to a negative number. */
  lemma Rounding(required: Int64)
    requires required >= 0
    ensures var rounded := Wrap(Wrap(required + BYTES_IN_GIB) - 1);
      if required + BYTES_IN_GIB - 1 < TWO63
      then rounded == required + BYTES_IN_GIB - 1
      else rounded == required + BYTES_IN_GIB - 1 - 2 * TWO63 < 0
  {
    var x := required + BYTES_IN_GIB;
    if x < TWO63 {
      WrapInRange(x);
      WrapInRange(x - 1);
    } else {
      assert (x + TWO63) % (2 * TWO63) == x - TWO63;
      assert Wrap(x) == x - 2 * TWO63;
      if x == TWO63 {
        assert (-TWO63 - 1 + TWO63) % (2 * TWO63) == 2 * TWO63 - 1;
      } else {
        WrapInRange(x - 2 * TWO63 - 1);
      }
    }
  }

  /** The answer is the least size that meets the request, malformed requests are the invalid
      ones, and a well-formed request fails only when no size meets it. */
  lemma ResolveIsLeast(required: Int64, limit: Int64)
    ensures match ResolveSizeGiB(required, limit)
            case InvalidArgument => Malformed(required, limit)
            case OutOfRange => !Malformed(required, limit) && forall n :: !Meets(required, limit, n)
            case Size(gib) => && !Malformed(required, limit) && Meets(required, limit, gib)
                              && forall n :: Meets(required, limit, n) ==> gib <= n
  {
    if !Malformed(required, limit) {
      Rounding(required);
      var rounded := Wrap(Wrap(required + BYTES_IN_GIB) - 1);
      if rounded >= required {
        var whole := rounded / BYTES_IN_GIB;
        var gib := if whole < MIN_VOLUME_SIZE_GIB then MIN_VOLUME_SIZE_GIB else whole;
        WrapInRange(gib * BYTES_IN_GIB);
        forall n | Meets(required, limit, n) ensures gib <= n {
        }
      }
    }
  }

  /** A bounded request that passed never reads as unlimited, and the bound in GiB admits
      exactly the sizes the bound in bytes admits. */
  lemma LimitIsExact(required: Int64, limit: Int64, size: int)
    requires ResolveSizeGiB(required, limit).Size? && limit > 0
    ensures ResolveSizeGiB(required, limit).gib <= LimitSizeGiB(limit)
    ensures size <= LimitSizeGiB(limit) <==> size * BYTES_IN_GIB <= limit
  {
    ResolveIsLeast(required, limit);
  }

  /** The size test of isAdoptable. */
  predicate SizeAdoptable(size: Int64, minGiB: Int64, maxGiB: Int64) {
    size >= minGiB && !(maxGiB > 0 && size > maxGiB)
  }

  /** Under a limit, the capacity reported for an adopted volume lies in the requested range. */
  lemma AdoptedWithinLimit(required: Int64, limit: Int64, size: Int64)
    requires ResolveSizeGiB(required, limit).Size? && limit > 0
    requires SizeAdoptable(size, ResolveSizeGiB(required, limit).gib, LimitSizeGiB(limit))
    ensures required <= CapacityBytes(size) <= limit
    ensures CapacityBytes(size) == size * BYTES_IN_GIB
  {
    ResolveIsLeast(required, limit);
    LimitIsExact(required, limit, size);
    WrapInRange(size * BYTES_IN_GIB);
  }

  /** Without a limit the product can wrap: the report is the volume's size exactly below
      2^33 GiB, and from there on it is wrong. */
  lemma AdoptedWithoutLimit(required: Int64, size: Int64)
    requires ResolveSizeGiB(required, 0).Size?
    requires SizeAdoptable(size, ResolveSizeGiB(required, 0).gib, LimitSizeGiB(0))
    ensures CapacityBytes(size) == size * BYTES_IN_GIB <==> size < 0x2_0000_0000
    ensures size < 0x2_0000_0000 ==> required <= CapacityBytes(size)
  {
    ResolveIsLeast(required, 0);
    if size < 0x2_0000_0000 {
      WrapInRange(size * BYTES_IN_GIB);
    }
  }

  /** 2^33 GiB, adopted by an unbounded request for 10 GiB, reports a negative capacity. */
  lemma AdoptedCapacityWraps()
    ensures ResolveSizeGiB(0, 0) == Size(10)
    ensures SizeAdoptable(0x2_0000_0000, 10, LimitSizeGiB(0)) && CapacityBytes(0x2_0000_0000) == -TWO63
  {
  }
}
