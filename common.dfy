/** Small value types shared by every part of the model. */
module Common {

  datatype Option<T> = None | Some(value: T)

  /** The outcome of an f32 division whose operands are known exactly except
      for the 0/0 case, which f32 arithmetic turns into NaN. */
  datatype Float = Real(value: real) | NaN

  /** f32 division `a / b` for operands where `b == 0` only ever comes with
      `a == 0` (so the only non-finite outcome is NaN). */
  function Quotient(a: real, b: real): (q: Float)
    requires b == 0.0 ==> a == 0.0
    ensures q.NaN? <==> b == 0.0
    ensures q.Real? ==> q.value * b == a
  {
    if b == 0.0 then NaN else Real(a / b)
  }

  /** f32 addition: NaN as soon as either operand is NaN. */
  function FloatAdd(a: Float, b: Float): (s: Float)
    ensures s.NaN? <==> a.NaN? || b.NaN?
  {
    if a.Real? && b.Real? then Real(a.value + b.value) else NaN
  }

  function Min(a: int, b: int): (m: int)
    ensures m <= a && m <= b && (m == a || m == b)
  {
    if a <= b then a else b
  }

  // Facts of real arithmetic, each over atoms, that the impurity, prior and
  // metric proofs call where the solver does not find them on its own.

  lemma DivMulCancel(x: real, t: real)
    requires t != 0.0
    ensures (x / t) * t == x
  {
  }

  lemma MulLeCancel(a: real, b: real, t: real)
    requires t > 0.0
    ensures a * t <= b * t <==> a <= b
  {
    if a <= b {
      assert (b - a) * t >= 0.0;
    } else {
      assert (a - b) * t > 0.0;
    }
  }

  lemma MulNonneg(a: real, b: real)
    requires a >= 0.0 && b >= 0.0
    ensures a * b >= 0.0
  {
  }

  lemma DivBy(u: real, v: real, t: real)
    requires t != 0.0 && u * t == v
    ensures u == v / t
  {
  }

  lemma DivNonneg(a: real, t: real)
    requires a >= 0.0 && t > 0.0
    ensures a / t >= 0.0
  {
    var q := a / t;
    assert q * t == a;
    MulLeCancel(0.0, q, t);
  }

  lemma DivSelf(t: real)
    requires t != 0.0
    ensures t / t == 1.0
  {
  }

  lemma AddRatios(a: real, b: real, t: real)
    requires t != 0.0
    ensures a / t + b / t == (a + b) / t
  {
  }
}
