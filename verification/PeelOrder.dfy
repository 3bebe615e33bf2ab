/** The order in which the facets leave the mark, and the ring slots they go to. */
module PeelOrder {
  /** A facet's centroid: its distance from the mark's centroid, and its clockwise angle from the top. */
  datatype Meta = Meta(rad: real, cw: real)

  // ---------- stable sorting by angle ----------

  /** Facet `a` comes before facet `b`: by angle, and by index where angles are equal. */
  predicate Before(metas: seq<Meta>, a: nat, b: nat)
    requires a < |metas| && b < |metas|
  {
    metas[a].cw < metas[b].cw || (metas[a].cw == metas[b].cw && a < b)
  }

  ghost predicate InRange(s: seq<nat>, n: nat) {
    forall i :: 0 <= i < |s| ==> s[i] < n
  }

  ghost predicate Sorted(metas: seq<Meta>, s: seq<nat>) {
    InRange(s, |metas|) && forall i, j :: 0 <= i < j < |s| ==> Before(metas, s[i], s[j])
  }

  /** `s` lists exactly the facets below `n`, clockwise from the top. */
  ghost predicate SortedFacets(metas: seq<Meta>, s: seq<nat>, n: nat) {
    n <= |metas| && |s| == n && Sorted(metas, s) && InRange(s, n) && forall v: nat :: v < n ==> v in s
  }

  /** Where a new facet goes among sorted ones: after all whose angle is not greater. */
  method InsertionPoint(metas: seq<Meta>, s: seq<nat>, k: nat) returns (p: nat)
    requires k < |metas| && Sorted(metas, s) && InRange(s, k)
    ensures p <= |s|
    ensures forall i :: 0 <= i < p ==> Before(metas, s[i], k)
    ensures forall i :: p <= i < |s| ==> Before(metas, k, s[i])
  {
    p := |s|;
    while p > 0 && metas[k].cw < metas[s[p - 1]].cw
      invariant p <= |s|
      invariant forall i :: p <= i < |s| ==> Before(metas, k, s[i])
    {
      p := p - 1;
    }
  }

  lemma Inserted(metas: seq<Meta>, s: seq<nat>, k: nat, p: nat)
    requires k < |metas| && SortedFacets(metas, s, k) && p <= |s|
    requires forall i :: 0 <= i < p ==> Before(metas, s[i], k)
    requires forall i :: p <= i < |s| ==> Before(metas, k, s[i])
    ensures SortedFacets(metas, s[..p] + [k] + s[p..], k + 1)
  {
    var t := s[..p] + [k] + s[p..];
    assert t[p] == k;
    forall v: nat | v < k + 1
      ensures v in t
    {
      if v < k {
        assert v in s;
        var i :| 0 <= i < |s| && s[i] == v;
        assert t[if i < p then i else i + 1] == v;
      }
    }
  }

  /** The stable sort of the facet indices by clockwise angle. */
  method ByAngle(metas: seq<Meta>) returns (s: seq<nat>)
    ensures SortedFacets(metas, s, |metas|)
  {
    s := [];
    for k := 0 to |metas|
      invariant SortedFacets(metas, s, k)
    {
      var p := InsertionPoint(metas, s, k);
      Inserted(metas, s, k, p);
      s := s[..p] + [k] + s[p..];
    }
  }

  // ---------- the centre facet ----------

  /** The first facet at the least distance from the centroid. */
  ghost predicate IsCenter(metas: seq<Meta>, center: nat) {
    && center < |metas|
    && (forall i :: 0 <= i < |metas| ==> metas[center].rad <= metas[i].rad)
    && (forall i :: 0 <= i < center ==> metas[center].rad < metas[i].rad)
  }

  method Center(metas: seq<Meta>) returns (center: nat)
    requires metas != []
    ensures IsCenter(metas, center)
  {
    center := 0;
    for i := 0 to |metas|
      invariant center < |metas| && (if i == 0 then center == 0 else center < i)
      invariant forall k :: 0 <= k < i ==> metas[center].rad <= metas[k].rad
      invariant forall k :: 0 <= k < center ==> metas[center].rad < metas[k].rad
    {
      if metas[i].rad < metas[center].rad {
        center := i;
      }
    }
  }

  // ---------- peel order and slots ----------

  method Without(metas: seq<Meta>, s: seq<nat>, center: nat) returns (t: seq<nat>)
    requires SortedFacets(metas, s, |metas|) && center < |metas|
    ensures |t| == |s| - 1 && Sorted(metas, t)
    ensures forall v: nat :: v in t <==> v < |metas| && v != center
  {
    t := [];
    for i := 0 to |s|
      invariant |t| == if center in s[..i] then i - 1 else i
      invariant Sorted(metas, t)
      invariant forall v: nat :: v in t <==> v in s[..i] && v != center
    {
      assert s[..i + 1] == s[..i] + [s[i]];
      if s[i] != center {
        StillSorted(metas, s, i, t);
        t := t + [s[i]];
      }
    }
    assert s[..|s|] == s;
  }

  lemma StillSorted(metas: seq<Meta>, s: seq<nat>, i: nat, t: seq<nat>)
    requires Sorted(metas, s) && i < |s| && Sorted(metas, t) && forall v: nat :: v in t ==> v in s[..i]
    ensures Sorted(metas, t + [s[i]])
  {
    forall k | 0 <= k < |t|
      ensures Before(metas, t[k], s[i])
    {
      assert t[k] in s[..i];
    }
  }

  /** The facet that leaves `m`-th goes to slot -90 + m * 360 / n degrees. */
  function SlotAngle(m: nat, n: nat): real
    requires n > 0
  {
    -90.0 + m as real * (360.0 / n as real)
  }

  /** `order` and `slot` follow the list `peel`, which says who leaves when. */
  ghost predicate Follows(peel: seq<nat>, order: seq<nat>, slot: seq<real>, done: nat)
    requires done <= |peel| && InRange(peel, |peel|)
  {
    && |order| == |slot| == |peel|
    && forall m :: 0 <= m < done ==> order[peel[m]] == m && slot[peel[m]] == SlotAngle(m, |peel|)
  }

  method Assign(peel: seq<nat>) returns (order: seq<nat>, slot: seq<real>)
    requires peel != [] && InRange(peel, |peel|)
    requires forall i, j :: 0 <= i < j < |peel| ==> peel[i] != peel[j]
    ensures Follows(peel, order, slot, |peel|)
  {
    var n := |peel|;
    var step := 360.0 / n as real;
    order := seq(n, i => 0);
    slot := seq(n, i => 0.0);
    for m := 0 to n
      invariant Follows(peel, order, slot, m)
    {
      var idx := peel[m];
      order := order[idx := m];
      slot := slot[idx := -90.0 + m as real * step];
    }
  }

  /**
   The peel order: facets other than the centre leave clockwise from the top, the centre leaves last, every facet
   has its own turn, and its slot is the one of its turn.
   */
  ghost predicate IsPeelOrder(metas: seq<Meta>, center: nat, order: seq<nat>, slot: seq<real>) {
    && |order| == |slot| == |metas|
    && IsCenter(metas, center)
    && (forall i :: 0 <= i < |metas| ==> (order[i] == |metas| - 1 <==> i == center))
    && (forall i :: 0 <= i < |metas| ==> order[i] < |metas| && slot[i] == SlotAngle(order[i], |metas|))
    && (forall i, j :: 0 <= i < |metas| && 0 <= j < |metas| && i != center && j != center ==>
          (order[i] < order[j] <==> metas[i].cw < metas[j].cw || (metas[i].cw == metas[j].cw && i < j)))
  }

  method Peel(metas: seq<Meta>) returns (center: nat, order: seq<nat>, slot: seq<real>)
    requires metas != []
    ensures IsPeelOrder(metas, center, order, slot)
  {
    var byAngle := ByAngle(metas);
    center := Center(metas);
    var others := Without(metas, byAngle, center);
    PeelIsDistinct(metas, others, center);
    order, slot := Assign(others + [center]);
    PeelIsInOrder(metas, others, center, order, slot);
  }

  /** The others first, the centre last: every facet once. */
  ghost predicate IsPeel(metas: seq<Meta>, others: seq<nat>, center: nat) {
    && center < |metas| && |others| == |metas| - 1 && Sorted(metas, others)
    && forall v: nat :: v in others <==> v < |metas| && v != center
  }

  lemma PeelIsDistinct(metas: seq<Meta>, others: seq<nat>, center: nat)
    requires IsPeel(metas, others, center)
    ensures InRange(others + [center], |metas|)
    ensures forall i, j :: 0 <= i < j < |metas| ==> (others + [center])[i] != (others + [center])[j]
  {
    forall i | 0 <= i < |others|
      ensures others[i] != center
    {
      assert others[i] in others;
    }
  }

  lemma TurnOf(metas: seq<Meta>, others: seq<nat>, center: nat, order: seq<nat>, slot: seq<real>, v: nat)
    returns (m: nat)
    requires IsPeel(metas, others, center) && InRange(others + [center], |metas|)
    requires Follows(others + [center], order, slot, |metas|) && v < |metas|
    ensures m < |metas| && order[v] == m && slot[v] == SlotAngle(m, |metas|)
    ensures if v == center then m == |metas| - 1 else m < |others| && others[m] == v
  {
    var peel := others + [center];
    if v == center {
      m := |metas| - 1;
      assert peel[m] == center;
    } else {
      assert v in others;
      m :| 0 <= m < |others| && others[m] == v;
      assert peel[m] == v;
    }
  }

  lemma PeelIsInOrder(metas: seq<Meta>, others: seq<nat>, center: nat, order: seq<nat>, slot: seq<real>)
    requires IsPeel(metas, others, center) && IsCenter(metas, center) && InRange(others + [center], |metas|)
    requires Follows(others + [center], order, slot, |metas|)
    ensures IsPeelOrder(metas, center, order, slot)
  {
    var last := TurnOf(metas, others, center, order, slot, center);
    forall i | 0 <= i < |metas|
      ensures order[i] == |metas| - 1 <==> i == center
      ensures order[i] < |metas| && slot[i] == SlotAngle(order[i], |metas|)
    {
      var m := TurnOf(metas, others, center, order, slot, i);
    }
    forall i, j | 0 <= i < |metas| && 0 <= j < |metas| && i != center && j != center
      ensures order[i] < order[j] <==> Before(metas, i, j)
    {
      var m := TurnOf(metas, others, center, order, slot, i);
      var k := TurnOf(metas, others, center, order, slot, j);
    }
  }

  // ---------- what the order is good for ----------

  /** The ring: the first slot is at the top, each further one the same part of a circle on, and no two are equal. */
  lemma SlotsAre(m: nat, k: nat, n: nat)
    requires m < n && k < n
    ensures SlotAngle(0, n) == -90.0 && SlotAngle(m + 1, n) == SlotAngle(m, n) + 360.0 / n as real
    ensures m != k ==> SlotAngle(m, n) != SlotAngle(k, n)
    ensures -90.0 <= SlotAngle(m, n) < 270.0
  {
    var step := 360.0 / n as real;
    assert step * n as real == 360.0 && step > 0.0;
    assert m as real * step >= 0.0 && (n - m) as real * step > 0.0;
    if m != k {
      Scaled(m as real - k as real, step);
      assert m as real * step - k as real * step == (m as real - k as real) * step;
    }
  }

  lemma Scaled(d: real, step: real)
    requires d != 0.0 && step > 0.0
    ensures d * step != 0.0
  {}

  /** No two facets share a turn or a slot, and neighbouring turns are one n-th of the ring apart. */
  lemma SlotsAreSpread(metas: seq<Meta>, center: nat, order: seq<nat>, slot: seq<real>, i: nat, j: nat)
    requires IsPeelOrder(metas, center, order, slot) && i < |metas| && j < |metas|
    ensures i != j ==> order[i] != order[j] && slot[i] != slot[j]
    ensures order[i] == 0 ==> slot[i] == -90.0
    ensures order[j] == order[i] + 1 ==> slot[j] == slot[i] + 360.0 / |metas| as real
    ensures -90.0 <= slot[i] < 270.0
  {
    if i != j {
      TurnsDiffer(metas, center, order, slot, i, j);
    }
    SlotsAre(order[i], order[j], |metas|);
  }

  lemma TurnsDiffer(metas: seq<Meta>, center: nat, order: seq<nat>, slot: seq<real>, i: nat, j: nat)
    requires IsPeelOrder(metas, center, order, slot) && i < |metas| && j < |metas| && i != j
    ensures order[i] != order[j]
  {}
}
