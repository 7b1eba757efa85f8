/** Values shared by every model: optional values and the wrap-around of Go's 64-bit integers. */
module Base {

  datatype Option<+T> = None | Some(value: T)

  const TWO_63: int := 0x8000_0000_0000_0000
  const TWO_64: int := 0x1_0000_0000_0000_0000

  /** The int64 that 64-bit two's-complement arithmetic stores for the integer x. */
  function Wrap(x: int): (r: int)
    ensures -TWO_63 <= r < TWO_63
    ensures -TWO_63 <= x < TWO_63 ==> r == x
    decreases if x < 0 then -x - 1 else x
  {
    if x < -TWO_63 then Wrap(x + TWO_64)
    else if x >= TWO_63 then Wrap(x - TWO_64)
    else x
  }

  lemma WrapPeriod(x: int)
    ensures Wrap(x + TWO_64) == Wrap(x)
  {
  }

  lemma {:induction false} WrapAdd(a: int, b: int)
    ensures Wrap(Wrap(a) + b) == Wrap(a + b)
    decreases if a < 0 then -a - 1 else a
  {
    if a < -TWO_63 {
      WrapAdd(a + TWO_64, b);
      WrapPeriod(a + b);
    } else if a >= TWO_63 {
      WrapAdd(a - TWO_64, b);
      WrapPeriod(a - TWO_64 + b);
    }
  }

  /** The wrapped value is the representative of x modulo 2^64 in the int64 range. */
  lemma {:induction false} WrapIsModular(x: int)
    ensures Wrap(x) == (x + TWO_63) % TWO_64 - TWO_63
    decreases if x < 0 then -x - 1 else x
  {
    if x < -TWO_63 {
      WrapIsModular(x + TWO_64);
    } else if x >= TWO_63 {
      WrapIsModular(x - TWO_64);
    }
  }

  /** Wrapping adds a multiple of 2^64. */
  lemma {:induction false} WrapShift(x: int) returns (k: int)
    ensures Wrap(x) == x + k * TWO_64
    decreases if x < 0 then -x - 1 else x
  {
    if x < -TWO_63 {
      k := WrapShift(x + TWO_64);
      k := k + 1;
    } else if x >= TWO_63 {
      k := WrapShift(x - TWO_64);
      k := k - 1;
    } else {
      k := 0;
    }
  }

  /** Multiples of 2^64 do not matter. */
  lemma {:induction false} WrapShifted(x: int, k: int)
    ensures Wrap(x + k * TWO_64) == Wrap(x)
    decreases if k < 0 then -k else k
  {
    if k < 0 {
      WrapShifted(x, k + 1);
      WrapPeriod(x + k * TWO_64);
    } else if k > 0 {
      WrapShifted(x, k - 1);
      WrapPeriod(x + (k - 1) * TWO_64);
    }
  }

  lemma MulMonotone(t: int, x: int, y: int)
    requires t > 0 && x <= y
    ensures t * x <= t * y
  {
    assert t * (y - x) >= 0;
  }

  /** A part of a finite set is no larger, and as large only if it is the whole. */
  lemma {:induction false} SubsetSize<T>(a: set<T>, b: set<T>)
    requires a <= b
    ensures |a| <= |b| && (|a| == |b| ==> a == b)
  {
    if a != {} {
      var x :| x in a;
      SubsetSize(a - {x}, b - {x});
    }
  }
}
