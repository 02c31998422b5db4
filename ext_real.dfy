/** The extended reals: the bounds of a slice may be -inf or +inf. */
module ExtReal {

  datatype Ext = NegInf | Fin(r: real) | PosInf {

    /** The usual order on the extended reals. */
    predicate Le(that: Ext) {
      match (this, that)
      case (NegInf, _) => true
      case (_, PosInf) => true
      case (Fin(a), Fin(b)) => a <= b
      case _ => false
    }
  }

  function Min(a: Ext, b: Ext): (m: Ext)
    ensures m.Le(a) && m.Le(b)
    ensures m == a || m == b
  {
    if a.Le(b) then a else b
  }

  function Max(a: Ext, b: Ext): (m: Ext)
    ensures a.Le(m) && b.Le(m)
    ensures m == a || m == b
  {
    if a.Le(b) then b else a
  }

  /** `(x - m) / s` for s > 0, with numpy's conventions at the infinities. */
  function Standardize(x: Ext, m: real, s: real): (z: Ext)
    requires s > 0.0
    ensures x.Fin? <==> z.Fin?
    ensures x == NegInf <==> z == NegInf
  {
    match x
    case NegInf => NegInf
    case Fin(v) => Fin((v - m) / s)
    case PosInf => PosInf
  }

  /** Standardizing by a positive scale keeps the order of two values. */
  lemma StandardizeMonotone(x: Ext, y: Ext, m: real, s: real)
    requires s > 0.0
    ensures x.Le(y) <==> Standardize(x, m, s).Le(Standardize(y, m, s))
  {
    if x.Fin? && y.Fin? {
      DivideKeepsOrder(x.r - m, y.r - m, s);
    }
  }

  /** Dividing by a positive number keeps the order of two reals. */
  lemma DivideKeepsOrder(p: real, q: real, s: real)
    requires s > 0.0
    ensures p <= q <==> p / s <= q / s
  {
    var a, b := p / s, q / s;
    assert a * s == p && b * s == q;
    var d := b - a;
    assert d * s == q - p;
    if p <= q {
      assert d >= 0.0;
    } else {
      assert d < 0.0;
    }
  }
}
