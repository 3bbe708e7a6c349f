/** Per-group mean and variance by scattered sums (verl/utils/groupwise.py, `group_mean_std`), over the
    reals. `spread` stands for the square of the returned standard deviation. */
module GroupStatistics {
  import opened Outcomes

  datatype Statistics = Statistics(mean: seq<real>, spread: seq<real>, count: seq<real>)

  function Count(gidx: seq<nat>, g: nat): nat {
    if gidx == [] then 0 else Count(gidx[..|gidx| - 1], g) + (if gidx[|gidx| - 1] == g then 1 else 0)
  }

  /** As many rows as have this group index. */
  lemma {:induction false} CountIsSize(gidx: seq<nat>, g: nat)
    ensures Count(gidx, g) == |set i | 0 <= i < |gidx| && gidx[i] == g|
  {
    var rows := set i | 0 <= i < |gidx| && gidx[i] == g;
    if gidx != [] {
      var n := |gidx| - 1;
      CountIsSize(gidx[..n], g);
      var before := set i | 0 <= i < n && gidx[..n][i] == g;
      assert rows == before + (if gidx[n] == g then {n} else {});
    } else {
      assert rows == {};
    }
  }

  /** The sum of the values of group g. */
  function Sum(values: seq<real>, gidx: seq<nat>, g: nat): real
    requires |values| == |gidx|
  {
    if gidx == [] then 0.0
    else
      var n := |gidx| - 1;
      Sum(values[..n], gidx[..n], g) + (if gidx[n] == g then values[n] else 0.0)
  }

  function Square(x: real): real { x * x }

  function Squares(values: seq<real>): seq<real> {
    seq(|values|, i requires 0 <= i < |values| => Square(values[i]))
  }

  function Centered(values: seq<real>, gidx: seq<nat>, center: seq<real>): seq<real>
    requires |values| == |gidx| && forall i :: 0 <= i < |gidx| ==> gidx[i] < |center|
  {
    seq(|values|, i requires 0 <= i < |values| => values[i] - center[gidx[i]])
  }

  function Max(a: real, b: real): real { if a < b then b else a }

  /** `max(gidx) + 1`. */
  function Groups(gidx: seq<nat>): nat {
    if gidx == [] then 0
    else
      var before, last := Groups(gidx[..|gidx| - 1]), gidx[|gidx| - 1];
      if before < last + 1 then last + 1 else before
  }

  lemma {:induction false} GroupsBound(gidx: seq<nat>)
    ensures forall i :: 0 <= i < |gidx| ==> gidx[i] < Groups(gidx)
    ensures Groups(gidx) > 0 ==> Groups(gidx) - 1 in gidx
  {
    if gidx != [] {
      GroupsBound(gidx[..|gidx| - 1]);
    }
  }

  /** `zeros(n).index_add_(0, gidx, values)`. */
  method IndexAdd(n: nat, gidx: seq<nat>, values: seq<real>) returns (sums: seq<real>)
    requires |values| == |gidx| && forall i :: 0 <= i < |gidx| ==> gidx[i] < n
    ensures |sums| == n && forall g :: 0 <= g < n ==> sums[g] == Sum(values, gidx, g)
  {
    var acc := new real[n](_ => 0.0);
    for i := 0 to |gidx|
      invariant forall g :: 0 <= g < n ==> acc[g] == Sum(values[..i], gidx[..i], g)
    {
      assert values[..i + 1][..i] == values[..i] && gidx[..i + 1][..i] == gidx[..i];
      acc[gidx[i]] := acc[gidx[i]] + values[i];
    }
    assert values[..|gidx|] == values && gidx[..|gidx|] == gidx;
    return acc[..];
  }

  lemma {:induction false} CountIsSum(gidx: seq<nat>, ones: seq<real>, g: nat)
    requires |ones| == |gidx| && forall i :: 0 <= i < |ones| ==> ones[i] == 1.0
    ensures Sum(ones, gidx, g) == Count(gidx, g) as real
  {
    if gidx != [] {
      CountIsSum(gidx[..|gidx| - 1], ones[..|gidx| - 1], g);
    }
  }

  lemma {:induction false} PrefixColumns(values: seq<real>, gidx: seq<nat>, center: seq<real>)
    requires |values| == |gidx| > 0 && forall i :: 0 <= i < |gidx| ==> gidx[i] < |center|
    ensures var n := |values| - 1;
            && Squares(values)[..n] == Squares(values[..n])
            && Squares(Centered(values, gidx, center))[..n] == Squares(Centered(values[..n], gidx[..n], center))
  {
    hide Square;
  }

  /** A sum of k squares about c, from the sums of values and squares. */
  function About(c: real, squares: real, sum: real, k: real): real { squares - 2.0 * (c * sum) + k * (c * c) }

  lemma AboutStep(c: real, squares: real, sum: real, k: real, x: real)
    ensures About(c, squares + Square(x), sum + x, k + 1.0) == About(c, squares, sum, k) + Square(x - c)
  {
    assert c * (sum + x) == c * sum + c * x;
    assert (k + 1.0) * (c * c) == k * (c * c) + c * c;
    assert (x - c) * (x - c) == x * x - 2.0 * (c * x) + c * c;
  }

  lemma AboutNothing(c: real)
    ensures About(c, 0.0, 0.0, 0.0) == 0.0
  {
  }

  /** The sum of squares about any center. */
  lemma {:induction false} SquaresAbout(values: seq<real>, gidx: seq<nat>, center: seq<real>, g: nat)
    requires |values| == |gidx| && (forall i :: 0 <= i < |gidx| ==> gidx[i] < |center|) && g < |center|
    ensures Sum(Squares(Centered(values, gidx, center)), gidx, g)
            == About(center[g], Sum(Squares(values), gidx, g), Sum(values, gidx, g), Count(gidx, g) as real)
  {
    hide Square, About;
    if gidx != [] {
      var n := |gidx| - 1;
      SquaresAbout(values[..n], gidx[..n], center, g);
      PrefixColumns(values, gidx, center);
      AboutStep(center[g], Sum(Squares(values[..n]), gidx[..n], g), Sum(values[..n], gidx[..n], g),
                Count(gidx[..n], g) as real, values[n]);
    } else {
      AboutNothing(center[g]);
    }
  }

  /** No center has a smaller sum of squares than the mean. */
  lemma MeanIsLeast(squares: real, s: real, k: real, c: real)
    requires k > 0.0
    ensures About(c, squares, s, k) == Deviation(squares, s, k) + k * Square(c - s / k)
    ensures About(c, squares, s, k) >= Deviation(squares, s, k)
  {
    var m := s / k;
    AboutMean(squares, s, k);
    assert k * m == s;
    assert (c - m) * (c - m) == c * c - 2.0 * (c * m) + m * m;
    assert k * ((c - m) * (c - m)) == k * (c * c) - 2.0 * (c * s) + k * (m * m) by {
      assert k * (c * m) == c * (k * m);
    }
    assert m * s == k * (m * m);
    assert (c - m) * (c - m) >= 0.0;
  }

  /** The documented sum of squares about the mean. */
  function Deviation(squares: real, sum: real, k: real): real
    requires k > 0.0
  {
    squares - sum * sum / k
  }

  lemma AboutMean(squares: real, s: real, k: real)
    requires k > 0.0
    ensures About(s / k, squares, s, k) == Deviation(squares, s, k)
  {
    var c := s / k;
    assert k * c == s;
    assert k * (c * c) == s * c by { assert k * (c * c) == k * c * c; }
    assert s * s / k == s * c;
  }

  function Mean(sum: real, k: real): real { sum / Max(k, 1.0) }

  function Floored(deviation: real, k: real, eps: real): real { Max(deviation / Max(k - 1.0, 1.0), eps) }

  /** Groups of at most one row get mean 0 and deviation 1; all others the documented mean, and the
      documented variance unless it is below eps, which replaces it then. */
  ghost predicate Documented(scores: seq<real>, gidx: seq<nat>, eps: real, g: nat, mean: real, spread: real, count: real)
    requires |scores| == |gidx|
  {
    && count == Count(gidx, g) as real
    && if Count(gidx, g) <= 1 then mean == 0.0 && spread == 1.0
       else
         var s, k := Sum(scores, gidx, g), count;
         var v := Deviation(Sum(Squares(scores), gidx, g), s, k) / (k - 1.0);
         mean == s / k && spread >= v && spread >= eps && (spread == v || spread == eps)
  }

  lemma FlooredIs(squares: real, s: real, k: real, eps: real)
    requires k >= 2.0
    ensures Mean(s, k) == s / k
    ensures var v, floored := Deviation(squares, s, k) / (k - 1.0), Floored(About(Mean(s, k), squares, s, k), k, eps);
            floored >= v && floored >= eps && (floored == v || floored == eps)
  {
    MeanOf(s, k);
    AboutMean(squares, s, k);
    hide About, Mean, Deviation;
  }

  lemma MeanOf(s: real, k: real)
    requires k >= 1.0
    ensures Mean(s, k) == s / k
  {
  }

  /** Two passes: sums and means, then squares about the means. */
  method GroupMeanStd(scores: seq<real>, gidx: seq<nat>, eps: real) returns (r: Option<Statistics>)
    ensures r.None? <==> |scores| != |gidx|
    ensures (forall i :: 0 <= i < |gidx| ==> gidx[i] < Groups(gidx)) && (Groups(gidx) > 0 ==> Groups(gidx) - 1 in gidx)
    ensures r.Some? ==>
      && |r.value.mean| == |r.value.spread| == |r.value.count| == Groups(gidx)
      && forall g :: 0 <= g < Groups(gidx) ==>
           Documented(scores, gidx, eps, g, r.value.mean[g], r.value.spread[g], r.value.count[g])
  {
    hide Sum, Count, Squares, Documented, Groups, Square, Mean, Floored, Max, Deviation;
    GroupsBound(gidx);
    if |scores| != |gidx| { return None; }
    var n := Groups(gidx);
    var ones := seq(|gidx|, _ => 1.0);
    var count := IndexAdd(n, gidx, ones);
    var s1 := IndexAdd(n, gidx, scores);
    var mean: seq<real> := [];
    for g := 0 to n
      invariant |mean| == g && forall h :: 0 <= h < g ==> mean[h] == Mean(s1[h], count[h])
    {
      mean := mean + [Mean(s1[g], count[g])];
    }
    var squares := Squares(Centered(scores, gidx, mean));
    SquaresLength(Centered(scores, gidx, mean));
    var varNum := IndexAdd(n, gidx, squares);
    var means, spreads, counts := [], [], [];
    for g := 0 to n
      invariant |means| == |spreads| == |counts| == g
      invariant forall h :: 0 <= h < g ==> Documented(scores, gidx, eps, h, means[h], spreads[h], counts[h])
    {
      CountIsSum(gidx, ones, g);
      GroupIsDocumented(scores, gidx, eps, mean, g);
      var single := count[g] <= 1.0;
      var m, s := if single then 0.0 else mean[g], if single then 1.0 else Floored(varNum[g], count[g], eps);
      means, spreads, counts := means + [m], spreads + [s], counts + [count[g]];
    }
    return Some(Statistics(means, spreads, counts));
  }

  lemma SquaresLength(values: seq<real>)
    ensures |Squares(values)| == |values|
  {
  }

  lemma GroupIsDocumented(scores: seq<real>, gidx: seq<nat>, eps: real, mean: seq<real>, g: nat)
    requires |scores| == |gidx| && (forall i :: 0 <= i < |gidx| ==> gidx[i] < |mean|) && g < |mean|
    requires mean[g] == Mean(Sum(scores, gidx, g), Count(gidx, g) as real)
    ensures var k := Count(gidx, g); var varNum := Sum(Squares(Centered(scores, gidx, mean)), gidx, g);
            Documented(scores, gidx, eps, g, if k <= 1 then 0.0 else mean[g],
                       if k <= 1 then 1.0 else Floored(varNum, k as real, eps), k as real)
  {
    hide Sum, Squares, Count, Centered, Square, About, Floored, Mean, Deviation;
    SquaresAbout(scores, gidx, mean, g);
    SquaresLength(scores);
    if Count(gidx, g) > 1 {
      FlooredIs(Sum(Squares(scores), gidx, g), Sum(scores, gidx, g), Count(gidx, g) as real, eps);
    }
  }
}
