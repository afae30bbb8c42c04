/** Splitting a box along one axis (internal/ui/layout/box.go). Fill weights are real numbers. */
module BoxSplit {
  import opened Text

  datatype Spec = Fixed(size: int) | Percent(pct: int) | Fill(weight: real)

  /** The size of a Fixed or Percent spec. */
  function OwnSize(spec: Spec, total: nat): (r: int)
    ensures 0 <= r <= total
  {
    match spec
    case Fixed(n) => if n < 0 then 0 else if n > total then total else n
    case Percent(p) =>
      if p < 0 then 0 else if p > 100 then total
      else
        PercentBound(total, p);
        total * p / 100
    case Fill(_) => 0
  }

  lemma PercentBound(total: nat, p: int)
    requires 0 <= p <= 100
    ensures 0 <= total * p / 100 <= total
  {
    assert total * p <= total * 100;
  }

  /** The rounded-down share of a Fill spec. */
  function Share(spec: Spec, remaining: int, weights: real): (r: int)
    ensures r >= 0
  {
    if spec.Fill? && remaining > 0 && weights > 0.0 && spec.weight > 0.0 then
      ShareIsPositive(remaining, spec.weight, weights);
      Part(remaining, spec.weight, weights).Floor
    else 0
  }

  /** The part of what remains that belongs to weight `w` out of `weights`. */
  function Part(remaining: int, w: real, weights: real): real
    requires weights > 0.0
  {
    remaining as real * w / weights
  }

  lemma ShareIsPositive(remaining: int, w: real, weights: real)
    requires remaining > 0 && w > 0.0 && weights > 0.0
    ensures Part(remaining, w, weights) >= 0.0
  {
    assert remaining as real * w > 0.0;
  }

  function Consumed(specs: seq<Spec>, total: nat, n: nat): nat
    requires n <= |specs|
  {
    if n == 0 then 0 else Consumed(specs, total, n - 1) + OwnSize(specs[n - 1], total)
  }

  function Weights(specs: seq<Spec>, n: nat): real
    requires n <= |specs|
  {
    if n == 0 then 0.0 else Weights(specs, n - 1) + if specs[n - 1].Fill? then specs[n - 1].weight else 0.0
  }

  function Allocated(specs: seq<Spec>, remaining: int, weights: real, n: nat): nat
    requires n <= |specs|
  {
    if n == 0 then 0 else Allocated(specs, remaining, weights, n - 1) + Share(specs[n - 1], remaining, weights)
  }

  function LastFill(specs: seq<Spec>, n: nat): (k: int)
    requires n <= |specs|
    ensures -1 <= k < n && (k >= 0 ==> specs[k].Fill?)
    ensures forall i :: k < i < n ==> !specs[i].Fill?
  {
    if n == 0 then -1 else if specs[n - 1].Fill? then n - 1 else LastFill(specs, n - 1)
  }

  function Remaining(specs: seq<Spec>, total: nat): nat { Max(total - Consumed(specs, total, |specs|), 0) }

  /** What rounding down leaves over; it goes to the last Fill spec. */
  function Leftover(specs: seq<Spec>, total: nat): (r: nat) {
    var remaining, weights := Remaining(specs, total), Weights(specs, |specs|);
    if weights > 0.0 && LastFill(specs, |specs|) >= 0
      then Max(remaining - Allocated(specs, remaining, weights, |specs|), 0)
    else 0
  }

  function SizeOf(specs: seq<Spec>, total: nat, i: nat): nat
    requires i < |specs|
  {
    OwnSize(specs[i], total) + Share(specs[i], Remaining(specs, total), Weights(specs, |specs|)) +
    if i == LastFill(specs, |specs|) then Leftover(specs, total) else 0
  }

  /** First pass: Fixed and Percent sizes. */
  method OwnSizes(total: nat, specs: seq<Spec>, sizes: array<int>) returns (consumed: nat, weights: real)
    requires sizes.Length == |specs|
    modifies sizes
    ensures consumed == Consumed(specs, total, |specs|) && weights == Weights(specs, |specs|)
    ensures forall k :: 0 <= k < |specs| ==> sizes[k] == OwnSize(specs[k], total)
  {
    consumed, weights := 0, 0.0;
    for i := 0 to |specs|
      invariant consumed == Consumed(specs, total, i) && weights == Weights(specs, i)
      invariant forall k :: 0 <= k < i ==> sizes[k] == OwnSize(specs[k], total)
    {
      sizes[i] := 0;
      if specs[i].Fill? {
        weights := weights + specs[i].weight;
      } else {
        sizes[i] := OwnSize(specs[i], total);
        consumed := consumed + sizes[i];
      }
    }
  }

  /** Second pass: rounded-down shares. */
  method FillShares(total: nat, specs: seq<Spec>, sizes: array<int>, remaining: nat, weights: real)
    returns (given: nat, last: int)
    requires sizes.Length == |specs| && forall k :: 0 <= k < |specs| ==> sizes[k] == OwnSize(specs[k], total)
    modifies sizes
    ensures given == Allocated(specs, remaining, weights, |specs|) && last == LastFill(specs, |specs|)
    ensures forall k :: 0 <= k < |specs| ==> sizes[k] == OwnSize(specs[k], total) + Share(specs[k], remaining, weights)
  {
    given, last := 0, -1;
    for i := 0 to |specs|
      invariant given == Allocated(specs, remaining, weights, i) && last == LastFill(specs, i)
      invariant forall k :: 0 <= k < i ==> sizes[k] == OwnSize(specs[k], total) + Share(specs[k], remaining, weights)
      invariant forall k :: i <= k < |specs| ==> sizes[k] == OwnSize(specs[k], total)
    {
      if specs[i].Fill? {
        sizes[i] := Share(specs[i], remaining, weights);
        given := given + sizes[i];
        last := i;
      }
    }
  }

  method SplitSizes(total: nat, specs: seq<Spec>) returns (sizes: array<int>)
    ensures fresh(sizes) && sizes.Length == |specs|
    ensures forall i :: 0 <= i < |specs| ==> sizes[i] == SizeOf(specs, total, i)
  {
    sizes := new int[|specs|];
    var consumed, weights := OwnSizes(total, specs, sizes);
    var remaining := Max(total - consumed, 0);
    var given, last := FillShares(total, specs, sizes, remaining, weights);
    if weights > 0.0 && last >= 0 && remaining > given { sizes[last] := sizes[last] + (remaining - given); }
  }

  // ---------- the sizes add up ----------

  function SumOf(specs: seq<Spec>, total: nat, n: nat): nat
    requires n <= |specs|
  {
    if n == 0 then 0 else SumOf(specs, total, n - 1) + SizeOf(specs, total, n - 1)
  }

  lemma {:induction false} SumIs(specs: seq<Spec>, total: nat, n: nat)
    requires n <= |specs|
    ensures var last := LastFill(specs, |specs|);
            SumOf(specs, total, n) ==
              Consumed(specs, total, n) + Allocated(specs, Remaining(specs, total), Weights(specs, |specs|), n) +
                                      if 0 <= last < n then Leftover(specs, total) else 0
  {
    if n > 0 { SumIs(specs, total, n - 1); }
  }

  lemma {:induction false} NoFillNoWeight(specs: seq<Spec>, n: nat)
    requires n <= |specs| && LastFill(specs, n) < 0
    ensures Weights(specs, n) == 0.0
  {
    if n > 0 { NoFillNoWeight(specs, n - 1); }
  }

  lemma {:induction false} NoWeightNoShare(specs: seq<Spec>, remaining: int, weights: real, n: nat)
    requires n <= |specs| && weights <= 0.0
    ensures Allocated(specs, remaining, weights, n) == 0
  {
    if n > 0 { NoWeightNoShare(specs, remaining, weights, n - 1); }
  }

  /** The sizes reach the whole length exactly when the fixed sizes do or the fill weights sum to something positive. */
  lemma CoversIff(specs: seq<Spec>, total: nat)
    ensures SumOf(specs, total, |specs|) >= total <==>
              Consumed(specs, total, |specs|) >= total || Weights(specs, |specs|) > 0.0
  {
    var n := |specs|;
    SumIs(specs, total, n);
    if Weights(specs, n) > 0.0 {
      if LastFill(specs, n) < 0 { NoFillNoWeight(specs, n); }
    } else {
      NoWeightNoShare(specs, Remaining(specs, total), Weights(specs, n), n);
    }
  }

  ghost predicate NonNegative(specs: seq<Spec>) {
    forall i :: 0 <= i < |specs| && specs[i].Fill? ==> specs[i].weight >= 0.0
  }

  function WeightOf(s: Spec): real { if s.Fill? then s.weight else 0.0 }

  /** Rounding down never gives away more than there is: `given` cells for weight `w` out of `weights`. */
  ghost predicate Fits(given: int, remaining: int, w: real, weights: real) {
    given as real * weights <= remaining as real * w
  }

  lemma FitsTogether(x: int, y: int, remaining: int, b: real, w: real, weights: real)
    requires Fits(x, remaining, b, weights) && Fits(y, remaining, w, weights)
    ensures Fits(x + y, remaining, b + w, weights)
  {
    assert (x + y) as real == x as real + y as real;
    Combine(x as real, y as real, weights, remaining as real, b, w);
  }

  lemma {:induction false} SharesFit(specs: seq<Spec>, remaining: nat, weights: real, n: nat)
    requires n <= |specs| && NonNegative(specs) && weights > 0.0
    ensures Fits(Allocated(specs, remaining, weights, n), remaining, Weights(specs, n), weights)
  {
    if n > 0 {
      SharesFit(specs, remaining, weights, n - 1);
      ShareFits(specs[n - 1], remaining, weights);
      FitsTogether(Allocated(specs, remaining, weights, n - 1), Share(specs[n - 1], remaining, weights), remaining,
                   Weights(specs, n - 1), WeightOf(specs[n - 1]), weights);
    }
  }

  lemma Combine(x: real, y: real, z: real, r: real, b: real, w: real)
    requires x * z <= r * b && y * z <= r * w
    ensures (x + y) * z <= r * (b + w)
  {
    Distribute(x, y, z);
    Distribute(b, w, r);
  }

  lemma Distribute(x: real, y: real, z: real)
    ensures (x + y) * z == x * z + y * z && z * (x + y) == z * x + z * y
  {
  }

  lemma ShareFits(s: Spec, remaining: nat, weights: real)
    requires weights > 0.0 && WeightOf(s) >= 0.0
    ensures Fits(Share(s, remaining, weights), remaining, WeightOf(s), weights)
  {
    if s.Fill? && remaining > 0 && s.weight > 0.0 {
      FloorTimes(remaining as real * s.weight, weights);
    } else {
      assert remaining as real * WeightOf(s) >= 0.0;
    }
  }

  lemma FloorTimes(x: real, z: real)
    requires z > 0.0
    ensures (x / z).Floor as real * z <= x
  {
    var q := x / z;
    assert q.Floor as real <= q;
    Monotone(q.Floor as real, q, z);
    assert q * z == x;
  }

  lemma Monotone(a: real, b: real, z: real)
    requires a <= b && z >= 0.0
    ensures a * z <= b * z
  {
  }

  /** With non-negative fill weights that sum to something positive, the fills share out exactly what remains. */
  lemma FillsAddUp(specs: seq<Spec>, total: nat)
    requires NonNegative(specs) && Weights(specs, |specs|) > 0.0
    ensures SumOf(specs, total, |specs|) == Consumed(specs, total, |specs|) + Remaining(specs, total)
    ensures SumOf(specs, total, |specs|) == Max(total, Consumed(specs, total, |specs|))
  {
    var n, weights, remaining := |specs|, Weights(specs, |specs|), Remaining(specs, total);
    SumIs(specs, total, n);
    if LastFill(specs, n) < 0 { NoFillNoWeight(specs, n); }
    SharesDoNotExceed(specs, remaining, weights);
  }

  lemma SharesDoNotExceed(specs: seq<Spec>, remaining: nat, weights: real)
    requires NonNegative(specs) && weights == Weights(specs, |specs|) > 0.0
    ensures Allocated(specs, remaining, weights, |specs|) <= remaining
  {
    SharesFit(specs, remaining, weights, |specs|);
    Cancel(Allocated(specs, remaining, weights, |specs|) as real, remaining as real, weights);
  }

  lemma Cancel(a: real, b: real, z: real)
    requires z > 0.0 && a * z <= b * z
    ensures a <= b
  {
    assert a > b ==> (a - b) * z > 0.0;
  }

  // ---------- the boxes ----------

  datatype Rect = Rect(x0: int, y0: int, x1: int, y1: int)

  /** Where the n-th box begins. */
  function Edge(specs: seq<Spec>, lo: int, hi: int, n: nat): (e: int)
    requires lo <= hi && n <= |specs|
    ensures lo <= e <= hi && (n == 0 ==> e == lo)
  {
    if n == 0 then lo else Min(Edge(specs, lo, hi, n - 1) + SizeOf(specs, hi - lo, n - 1), hi)
  }

  lemma CutAt(at: int, size: nat, hi: int)
    ensures Min(Min(at, hi) + size, hi) == Min(at + size, hi)
  {
  }

  lemma {:induction false} EdgeIsSum(specs: seq<Spec>, lo: int, hi: int, n: nat)
    requires lo <= hi && n <= |specs|
    ensures Edge(specs, lo, hi, n) == Min(lo + SumOf(specs, hi - lo, n), hi)
  {
    if n > 0 {
      EdgeIsSum(specs, lo, hi, n - 1);
      CutAt(lo + SumOf(specs, hi - lo, n - 1), SizeOf(specs, hi - lo, n - 1), hi);
    }
  }

  /** Boxes lie in order, touch, stay inside, and reach the end exactly under the condition on the specs. */
  lemma BoxesTile(specs: seq<Spec>, lo: int, hi: int)
    requires lo < hi
    ensures Edge(specs, lo, hi, 0) == lo
    ensures forall i, j :: 0 <= i <= j <= |specs| ==> lo <= Edge(specs, lo, hi, i) <= Edge(specs, lo, hi, j) <= hi
    ensures Edge(specs, lo, hi, |specs|) == hi <==>
            Consumed(specs, hi - lo, |specs|) >= hi - lo || Weights(specs, |specs|) > 0.0
  {
    EdgeIsSum(specs, lo, hi, |specs|);
    CoversIff(specs, hi - lo);
    forall i, j | 0 <= i <= j <= |specs|
      ensures Edge(specs, lo, hi, i) <= Edge(specs, lo, hi, j)
    {
      EdgesInOrder(specs, lo, hi, i, j);
    }
  }

  lemma {:induction false} EdgesInOrder(specs: seq<Spec>, lo: int, hi: int, i: nat, j: nat)
    requires lo <= hi && i <= j <= |specs|
    ensures Edge(specs, lo, hi, i) <= Edge(specs, lo, hi, j)
    decreases j
  {
    if i < j { EdgesInOrder(specs, lo, hi, i, j - 1); }
  }

  function RowBox(b: Rect, specs: seq<Spec>, i: nat): Rect
    requires b.y0 < b.y1 && i < |specs|
  {
    Rect(b.x0, Edge(specs, b.y0, b.y1, i), b.x1, Edge(specs, b.y0, b.y1, i + 1))
  }

  function ColumnBox(b: Rect, specs: seq<Spec>, i: nat): Rect
    requires b.x0 < b.x1 && i < |specs|
  {
    Rect(Edge(specs, b.x0, b.x1, i), b.y0, Edge(specs, b.x0, b.x1, i + 1), b.y1)
  }

  /** Top to bottom: box i reaches from its edge to the next; a box without height gives empty boxes at its corner. */
  method V(b: Rect, specs: seq<Spec>) returns (boxes: seq<Rect>)
    ensures |specs| == 0 ==> boxes == [b]
    ensures |specs| > 0 ==> |boxes| == |specs|
    ensures |specs| > 0 && b.y1 <= b.y0 ==> forall i :: 0 <= i < |boxes| ==> boxes[i] == Rect(b.x0, b.y0, b.x0, b.y0)
    ensures |specs| > 0 && b.y0 < b.y1 ==>
              forall i :: 0 <= i < |boxes| ==>
                boxes[i] == Rect(b.x0, Edge(specs, b.y0, b.y1, i), b.x1, Edge(specs, b.y0, b.y1, i + 1))
  {
    if |specs| == 0 { return [b]; }
    if b.y1 - b.y0 <= 0 { return seq(|specs|, _ => Rect(b.x0, b.y0, b.x0, b.y0)); }
    var sizes := SplitSizes(b.y1 - b.y0, specs);
    var y := b.y0;
    boxes := [];
    for i := 0 to |specs|
      invariant y == Edge(specs, b.y0, b.y1, i) && |boxes| == i
      invariant forall k :: 0 <= k < i ==> boxes[k] == RowBox(b, specs, k)
    {
      var next := if y >= b.y1 then b.y1 else Min(y + sizes[i], b.y1);
      boxes := boxes + [Rect(b.x0, if y >= b.y1 then b.y1 else y, b.x1, next)];
      y := next;
    }
  }

  /** Left to right. */
  method H(b: Rect, specs: seq<Spec>) returns (boxes: seq<Rect>)
    ensures |specs| == 0 ==> boxes == [b]
    ensures |specs| > 0 ==> |boxes| == |specs|
    ensures |specs| > 0 && b.x1 <= b.x0 ==> forall i :: 0 <= i < |boxes| ==> boxes[i] == Rect(b.x0, b.y0, b.x0, b.y0)
    ensures |specs| > 0 && b.x0 < b.x1 ==>
              forall i :: 0 <= i < |boxes| ==>
                boxes[i] == Rect(Edge(specs, b.x0, b.x1, i), b.y0, Edge(specs, b.x0, b.x1, i + 1), b.y1)
  {
    if |specs| == 0 { return [b]; }
    if b.x1 - b.x0 <= 0 { return seq(|specs|, _ => Rect(b.x0, b.y0, b.x0, b.y0)); }
    var sizes := SplitSizes(b.x1 - b.x0, specs);
    var x := b.x0;
    boxes := [];
    for i := 0 to |specs|
      invariant x == Edge(specs, b.x0, b.x1, i) && |boxes| == i
      invariant forall k :: 0 <= k < i ==> boxes[k] == ColumnBox(b, specs, k)
    {
      var next := if x >= b.x1 then b.x1 else Min(x + sizes[i], b.x1);
      boxes := boxes + [Rect(if x >= b.x1 then b.x1 else x, b.y0, next, b.y1)];
      x := next;
    }
  }
  // ---------- what a size means ----------

  /** A fixed size is cut to what there is; a percentage is rounded down, below 0 nothing and above 100 everything. */
  lemma OwnSizeMeans(spec: Spec, total: nat, r: int)
    requires r == OwnSize(spec, total)
    ensures spec.Fixed? ==> r == Max(0, Min(spec.size, total))
    ensures spec.Percent? && 0 <= spec.pct <= 100 ==> r * 100 <= total * spec.pct < (r + 1) * 100
    ensures spec.Percent? && spec.pct < 0 ==> r == 0
    ensures spec.Percent? && spec.pct > 100 ==> r == total
  {
  }

  lemma FloorMeans(x: real, n: int)
    requires n == x.Floor
    ensures n as real <= x < n as real + 1.0
  {
    assert n as real <= x < (n + 1) as real;
  }

  /** A share is the weight's part of what remains, rounded down. */
  lemma ShareMeans(spec: Spec, remaining: int, weights: real)
    requires spec.Fill? && remaining > 0 && weights > 0.0 && spec.weight > 0.0
    ensures Share(spec, remaining, weights) as real <= Part(remaining, spec.weight, weights)
    ensures Part(remaining, spec.weight, weights) < Share(spec, remaining, weights) as real + 1.0
    ensures Part(remaining, spec.weight, weights) * weights == remaining as real * spec.weight
  {
    FloorMeans(Part(remaining, spec.weight, weights), Share(spec, remaining, weights));
  }

  /** Every size but the last fill's is its own, or its share of what remains, rounded down. */
  lemma SizeMeans(specs: seq<Spec>, total: nat, i: nat, j: nat, r: nat)
    requires i < |specs| && r == SizeOf(specs, total, i)
    ensures !specs[i].Fill? ==> r == OwnSize(specs[i], total)
    ensures i < j < |specs| && specs[i].Fill? && specs[j].Fill? ==>
              r == Share(specs[i], Max(total - Consumed(specs, total, |specs|), 0), Weights(specs, |specs|))
  {
    var last := LastFill(specs, |specs|);
    assert !specs[i].Fill? ==> last != i;
    assert i < j < |specs| && specs[j].Fill? ==> last >= j;
  }
}
