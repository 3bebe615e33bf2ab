/** Points of the loader's drawing plane, with exact coordinates. */
module Geometry {
  datatype Pt = Pt(x: real, y: real)

  /** The point a fraction `f` of the way from `a` to `b`. */
  function Lerp(a: Pt, b: Pt, f: real): Pt {
    Pt(a.x + (b.x - a.x) * f, a.y + (b.y - a.y) * f)
  }

  /** The index after the last one is the first again. */
  lemma WrapsAround(i: nat, n: nat)
    requires i < n
    ensures (i + 1) % n == if i + 1 == n then 0 else i + 1
  {}
}
