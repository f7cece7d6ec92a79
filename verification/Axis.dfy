/** Axis scaling: nice tick intervals, tick positions, the translation between
    values and pixels, and the alignment of ticks across axes. */
module Axis {
  import opened Wrappers
  import opened Reals

  // ---------- Powers of ten ----------

  function Pow10(e: int): (p: real)
    ensures p > 0.0
    decreases if e < 0 then -e else e
  {
    if e == 0 then 1.0 else if e > 0 then 10.0 * Pow10(e - 1) else Pow10(e + 1) / 10.0
  }

  lemma Pow10Step(e: int)
    ensures Pow10(e + 1) == 10.0 * Pow10(e)
  {
  }

  /** The integer part of the decimal logarithm. */
  function Exponent(x: real): (e: int)
    requires x > 0.0
    ensures Pow10(e) <= x < Pow10(e + 1)
    decreases x < 1.0, if x < 1.0 then (1.0 / x).Floor else x.Floor
  {
    if x >= 10.0 then
      var e := Exponent(x / 10.0);
      Pow10Step(e); Pow10Step(e + 1);
      e + 1
    else if x < 1.0 then
      ReciprocalShrinks(x);
      var e := Exponent(x * 10.0);
      Pow10Step(e); Pow10Step(e - 1);
      e - 1
    else
      assert Pow10(1) == 10.0 * Pow10(0);
      0
  }

  lemma ReciprocalShrinks(x: real)
    requires 0.0 < x < 1.0
    ensures 10.0 * x < 1.0 ==> (1.0 / (x * 10.0)).Floor < (1.0 / x).Floor
    ensures (1.0 / x).Floor >= 1
  {
    var r := 1.0 / x;
    assert r * x == 1.0;
    assert r >= 1.0;
    if 10.0 * x < 1.0 {
      var s := 1.0 / (x * 10.0);
      assert s * (x * 10.0) == 1.0;
      assert (10.0 * s - r) * x == 0.0;
      assert r == 10.0 * s;
      assert s > 1.0 by { assert (s - 1.0) * (x * 10.0) > 0.0; }
    }
  }

  lemma {:induction false} Pow10Monotone(d: int, e: int)
    requires d <= e
    ensures Pow10(d) <= Pow10(e)
    decreases e - d
  {
    if d < e { Pow10Monotone(d, e - 1); Pow10Step(e - 1); }
  }

  lemma ExponentUnique(x: real, e: int)
    requires Pow10(e) <= x < Pow10(e + 1)
    ensures x > 0.0 && Exponent(x) == e
  {
    var d := Exponent(x);
    if d < e { Pow10Monotone(d + 1, e); } else if e < d { Pow10Monotone(e + 1, d); }
  }

  lemma {:induction false} Pow10Whole(e: int)
    requires e >= 0
    ensures Pow10(e) == Pow10(e).Floor as real
  {
    if e > 0 {
      Pow10Whole(e - 1);
      assert Pow10(e) == (10 * Pow10(e - 1).Floor) as real;
    }
  }

  // ---------- Nice intervals ----------

  const MULTIPLES: seq<real> := [1.0, 2.0, 2.5, 5.0, 10.0]

  ghost predicate Ascending(ms: seq<real>) {
    && ms != [] && ms[0] > 0.0
    && forall i, j :: 0 <= i < j < |ms| ==> ms[i] < ms[j]
  }

  /** m is a nearest multiple, and on a tie the lower one. */
  ghost predicate Nearest(ms: seq<real>, x: real, m: real) {
    && m in ms
    && forall i :: 0 <= i < |ms| ==>
      Abs(x - m) <= Abs(x - ms[i]) && (ms[i] < m ==> Abs(x - m) < Abs(x - ms[i]))
  }

  lemma NearestUnique(ms: seq<real>, x: real, m: real, m': real)
    requires Nearest(ms, x, m) && Nearest(ms, x, m')
    ensures m == m'
  {
    var i :| 0 <= i < |ms| && ms[i] == m;
    var j :| 0 <= j < |ms| && ms[j] == m';
  }

  /** ti is m times 10 to the e for one of the default multiples. */
  ghost predicate Nice(ti: real, m: real, e: int) {
    m in MULTIPLES && ti == Times(m, Pow10(e))
  }

  /** The leading factor of x: x is Mantissa(x) times ten to the Exponent(x). */
  function Mantissa(x: real): (n: real)
    requires x > 0.0
    ensures Times(n, Pow10(Exponent(x))) == x
  {
    Divided(x, Pow10(Exponent(x)));
    x / Pow10(Exponent(x))
  }

  /** ti is the interval normalizeTickInterval makes of x with the default multiples. */
  ghost predicate Normalized(x: real, m: real, ti: real)
    requires x > 0.0
  {
    Nice(ti, m, Exponent(x)) && Nearest(MULTIPLES, Mantissa(x), m)
  }

  lemma MultipleIsNearest(m: real)
    requires m in MULTIPLES
    ensures Nearest(MULTIPLES, m, m)
  {
  }

  /** The default multiples and where one gives way to the next. */
  lemma Thresholds(n: real, m: real)
    requires Nearest(MULTIPLES, n, m)
    ensures m == if n <= 1.5 then 1.0 else if n <= 2.25 then 2.0 else if n <= 3.75 then 2.5
                 else if n <= 7.5 then 5.0 else 10.0
  {
    assert MULTIPLES[0] == 1.0 && MULTIPLES[1] == 2.0 && MULTIPLES[2] == 2.5 && MULTIPLES[3] == 5.0 && MULTIPLES[4] == 10.0;
  }

  /** A nice interval is its own normalization. */
  lemma NormalizedIdempotent(m: real, e: int, ti: real, m': real, again: real)
    requires Nice(ti, m, e) && ti > 0.0 && Normalized(ti, m', again)
    ensures again == ti
  {
    if m == 10.0 {
      TenIsNextOne(e);
      Leading(1.0, e + 1, ti);
      MultipleIsNearest(1.0);
      NearestUnique(MULTIPLES, 1.0, 1.0, m');
    } else {
      Leading(m, e, ti);
      MultipleIsNearest(m);
      NearestUnique(MULTIPLES, m, m, m');
    }
  }

  lemma TenIsNextOne(e: int)
    ensures Times(10.0, Pow10(e)) == Times(1.0, Pow10(e + 1))
  {
    Pow10Step(e);
  }

  /** The exponent and the leading factor of a number written in scientific form. */
  lemma Leading(m: real, e: int, x: real)
    requires 1.0 <= m < 10.0 && x == Times(m, Pow10(e))
    ensures x > 0.0 && Exponent(x) == e && Mantissa(x) == m
  {
    Pow10Step(e);
    LeadingBounds(m, Pow10(e), Pow10(e + 1));
    ExponentUnique(x, e);
    CancelFactor(Mantissa(x), m, Pow10(e));
  }

  lemma LeadingBounds(m: real, p: real, q: real)
    requires 1.0 <= m < 10.0 && p > 0.0 && q == 10.0 * p
    ensures p <= Times(m, p) < q
  {
    assert (m - 1.0) * p >= 0.0;
    assert (10.0 - m) * p > 0.0;
    assert (m - 1.0) * p == m * p - p;
    assert (10.0 - m) * p == 10.0 * p - m * p;
  }

  // ---------- Ticks ----------

  function Ceil(x: real): int { -(-x).Floor }

  lemma Monotone(p: real, q: real, d: real)
    requires d > 0.0 && p <= q
    ensures Times(p, d) <= Times(q, d)
    ensures p < q ==> Times(p, d) < Times(q, d)
  {
    assert (q - p) * d == q * d - p * d;
    assert (q - p) * d >= 0.0;
    assert p < q ==> (q - p) * d > 0.0;
  }

  lemma Snap(x: real, d: real)
    requires d > 0.0
    ensures Times((x / d).Floor as real, d) <= x < Times(((x / d).Floor + 1) as real, d)
    ensures Times((Ceil(x / d) - 1) as real, d) < x <= Times(Ceil(x / d) as real, d)
  {
    Divided(x, d);
    Monotone((x / d).Floor as real, x / d, d);
    Monotone(x / d, ((x / d).Floor + 1) as real, d);
    Monotone((Ceil(x / d) - 1) as real, x / d, d);
    Monotone(x / d, Ceil(x / d) as real, d);
  }

  function InvMag(magnitude: real): (f: real)
    requires magnitude > 0.0
    ensures f > 0.0
  {
    (if magnitude < 1.0 then 1.0 / magnitude else 1.0) * 10.0
  }

  /** The rounding applied to each tick, with the factor derived from the magnitude. */
  function RoundOff(x: real, magnitude: real): real
    requires magnitude > 0.0
  {
    Round(Times(x, InvMag(magnitude))) as real / InvMag(magnitude)
  }

  lemma RoundWhole(k: int, x: real, f: real)
    requires f > 0.0 && Times(x, f) == k as real
    ensures Round(Times(x, f)) as real / f == x
  {
    assert Round(Times(x, f)) == k;
    assert x * f / f == x;
  }

  /** Rounding leaves every multiple of a nice interval alone. */
  lemma RoundOffIdentity(k: int, m: real, e: int, ti: real)
    requires Nice(ti, m, e)
    ensures RoundOff(Times(k as real, ti), Pow10(e)) == Times(k as real, ti)
  {
    var p := Pow10(e);
    if e >= 0 {
      Pow10Monotone(0, e);
      Pow10Whole(e);
      assert InvMag(p) == 10.0;
      WholeTimesTen(k, m, p, p.Floor, ti, InvMag(p));
      RoundWhole(k * (10.0 * m).Floor * p.Floor, Times(k as real, ti), InvMag(p));
    } else {
      Pow10Monotone(e, -1);
      assert Pow10(-1) == Pow10(0) / 10.0;
      InverseOf(p);
      WholeTimesTen(k, m, p, 1, ti, InvMag(p));
      RoundWhole(k * (10.0 * m).Floor * 1, Times(k as real, ti), InvMag(p));
    }
  }

  lemma InverseOf(p: real)
    requires 0.0 < p < 1.0
    ensures Times(InvMag(p), p) == 10.0
  {
    assert 1.0 / p * p == 1.0;
  }

  /** With ten times the inverse magnitude, a multiple of a nice interval is whole. */
  lemma WholeTimesTen(k: int, m: real, p: real, w: int, ti: real, f: real)
    requires m in MULTIPLES && ti == Times(m, p) && Times(f, p) == 10.0 * w as real
    ensures Times(Times(k as real, ti), f) == (k * (10.0 * m).Floor * w) as real
  {
    var t := (10.0 * m).Floor;
    assert 10.0 * m == t as real;
    calc {
      Times(Times(k as real, ti), f);
      k as real * (m * p) * f;
      k as real * m * (f * p);
      k as real * m * (10.0 * w as real);
      k as real * (10.0 * m) * w as real;
      k as real * t as real * w as real;
      (k * t * w) as real;
    }
  }

  lemma NearestByMidpoints(ms: seq<real>, x: real, i: nat)
    requires Ascending(ms) && i < |ms|
    requires i > 0 ==> x > (ms[i-1] + ms[i]) / 2.0
    requires i + 1 < |ms| ==> x <= (ms[i] + ms[i+1]) / 2.0
    ensures Nearest(ms, x, ms[i])
  {
    forall j | 0 <= j < |ms|
      ensures Abs(x - ms[i]) <= Abs(x - ms[j]) && (ms[j] < ms[i] ==> Abs(x - ms[i]) < Abs(x - ms[j]))
    {
      assert j < i ==> ms[j] <= ms[i-1];
      assert j > i ==> ms[i+1] <= ms[j];
    }
  }

  /** The loop over the multiples in normalizeTickInterval. */
  method ToNearest(ms: seq<real>, x: real) returns (r: real)
    requires Ascending(ms)
    ensures Nearest(ms, x, r)
  {
    var i := 0;
    r := x;
    while i < |ms|
      invariant i <= |ms| && (i > 0 ==> r == ms[i-1])
      invariant 0 < i < |ms| ==> x > (ms[i-1] + ms[i]) / 2.0
      invariant i == |ms| ==> Nearest(ms, x, r)
    {
      r := ms[i];
      if i + 1 == |ms| || x <= (ms[i] + ms[i+1]) / 2.0 { NearestByMidpoints(ms, x, i); }
      if x <= (ms[i] + (if i + 1 < |ms| then ms[i+1] else ms[i])) / 2.0 { break; }
      i := i + 1;
    }
  }

  // ---------- Data extremes ----------

  /** A series of one axis dimension; `area` for the area, column and bar types. */
  datatype Series = Series(area: bool, data: seq<Option<real>>)

  /** The number a comparison makes of a point value: null counts as zero. Extremes
      that are missing are never looked at. */
  function Number(v: Option<real>): real {
    if v.Some? then v.value else 0.0
  }

  ghost function Values(series: seq<Series>): seq<real> {
    if series == [] then [] else Values(series[..|series|-1]) + Numbers(series[|series|-1].data)
  }

  ghost function Numbers(data: seq<Option<real>>): seq<real> {
    seq(|data|, i requires 0 <= i < |data| => Number(data[i]))
  }

  /** The value a point gives: its own, or zero for null. */
  ghost predicate Gives(series: seq<Series>, i: nat, j: nat, v: real)
    requires i < |series| && j < |series[i].data|
  {
    series[i].data[j] == Some(v) || (series[i].data[j] == None && v == 0.0)
  }

  /** The values are those of all points of all series. */
  lemma {:induction false} ValuesAre(series: seq<Series>, v: real)
    ensures v in Values(series) <==>
            exists i, j :: 0 <= i < |series| && 0 <= j < |series[i].data| && Gives(series, i, j, v)
  {
    if series != [] {
      var n := |series| - 1;
      var before := series[..n];
      ValuesAre(before, v);
      if v in Values(before) {
        var i, j :| 0 <= i < n && 0 <= j < |before[i].data| && Gives(before, i, j, v);
        assert Gives(series, i, j, v);
      }
      if v in Numbers(series[n].data) {
        var j :| 0 <= j < |series[n].data| && Numbers(series[n].data)[j] == v;
        assert Gives(series, n, j, v);
      }
      forall i, j | 0 <= i < |series| && 0 <= j < |series[i].data| && Gives(series, i, j, v)
        ensures v in Values(series)
      {
        if i < n {
          assert before[i] == series[i] && Gives(before, i, j, v);
        } else {
          assert Numbers(series[n].data)[j] == v;
        }
      }
    }
  }

  lemma NumbersStep(data: seq<Option<real>>, j: nat)
    requires j < |data|
    ensures Numbers(data[..j+1]) == Numbers(data[..j]) + [Number(data[j])]
  {
  }

  ghost function Lowest(vs: seq<real>): real
    requires vs != []
  {
    var v := vs[|vs|-1];
    if |vs| == 1 then v else Least(v, Lowest(vs[..|vs|-1]))
  }

  ghost function Highest(vs: seq<real>): real
    requires vs != []
  {
    var v := vs[|vs|-1];
    if |vs| == 1 then v else Greatest(v, Highest(vs[..|vs|-1]))
  }

  /** The extremes are attained and enclose every value. */
  lemma {:induction false} ExtremesEnclose(vs: seq<real>)
    requires vs != []
    ensures Lowest(vs) in vs && Highest(vs) in vs
    ensures forall v :: v in vs ==> Lowest(vs) <= v <= Highest(vs)
  {
    if |vs| > 1 {
      var before := vs[..|vs|-1];
      ExtremesEnclose(before);
      assert vs == before + [vs[|vs|-1]];
    }
  }

  /** The first series that has points is an area, column or bar series. */
  ghost predicate ZeroBased(series: seq<Series>) {
    series != [] &&
    var before, serie := series[..|series|-1], series[|series|-1];
    if Values(before) == [] then serie.area && serie.data != [] else ZeroBased(before)
  }

  lemma {:induction false} NoValues(series: seq<Series>)
    ensures Values(series) == [] <==> forall i :: 0 <= i < |series| ==> series[i].data == []
  {
    if series != [] {
      var n := |series| - 1;
      NoValues(series[..n]);
      assert |Numbers(series[n].data)| == |series[n].data|;
      assert forall i :: 0 <= i < n ==> series[..n][i] == series[i];
    }
  }

  /** Series i has points, and is the first. */
  ghost predicate FirstWithData(series: seq<Series>, i: nat)
    requires i < |series|
  {
    series[i].data != [] && forall j :: 0 <= j < i ==> series[j].data == []
  }

  lemma {:induction false} ZeroBasedIs(series: seq<Series>)
    ensures ZeroBased(series) <==> exists i :: 0 <= i < |series| && FirstWithData(series, i) && series[i].area
  {
    if series != [] {
      var n := |series| - 1;
      var before := series[..n];
      ZeroBasedIs(before);
      NoValues(before);
      assert forall i :: 0 <= i < n ==> before[i] == series[i];
      assert forall i :: 0 <= i < n ==> (FirstWithData(series, i) <==> FirstWithData(before, i));
      assert FirstWithData(series, n) <==> Values(before) == [] && series[n].data != [];
      if ZeroBased(series) && Values(before) != [] {
        var i :| 0 <= i < |before| && FirstWithData(before, i) && before[i].area;
        assert FirstWithData(series, i) && series[i].area;
      }
      forall i | 0 <= i < n && FirstWithData(series, i) && series[i].area ensures ZeroBased(series) {
        assert FirstWithData(before, i) && before[i].area && before[i].data != [];
      }
    }
  }

  // ---------- The axis object ----------

  datatype Options = Options(isX: bool, length: real, min: Option<real>, max: Option<real>,
                             minPadding: real, maxPadding: real, tickInterval: Option<real>,
                             tickPixelInterval: real, categories: bool, reversed: bool)

  ghost predicate GoodOptions(o: Options) {
    o.length > 0.0 && o.tickPixelInterval > 0.0 && (o.tickInterval.Some? ==> o.tickInterval.value > 0.0)
  }

  ghost predicate Widening(o: Options) {
    o.minPadding >= 0.0 && o.maxPadding >= 0.0
  }

  function OrElse(v: Option<real>, otherwise: real): real {
    if v.Some? then v.value else otherwise
  }

  /** The lower end of the range before it is snapped to ticks: padded where it is
      the data's. */
  ghost function PadLow(o: Options, bottom: real, top: real, dataMin: real, zeroBased: bool): real {
    if o.min == None && !o.categories && (dataMin < 0.0 || !zeroBased)
    then bottom - Times(Reach(bottom, top), o.minPadding) else bottom
  }

  ghost function PadHigh(o: Options, bottom: real, top: real): real {
    if o.max == None && !o.categories then top + Times(Reach(bottom, top), o.maxPadding) else top
  }

  ghost function Reach(bottom: real, top: real): real {
    if top == bottom then 1.0 else top - bottom
  }

  /** The extremes of the data, if there is any. */
  ghost function DataMin(o: Options, series: seq<Series>): Option<real> {
    if Values(series) == [] then None
    else Some(if FromZero(o, series) then Least(0.0, Lowest(Values(series))) else Lowest(Values(series)))
  }

  ghost function DataMax(series: seq<Series>): Option<real> {
    if Values(series) == [] then None else Some(Highest(Values(series)))
  }

  ghost predicate FromZero(o: Options, series: seq<Series>) {
    !o.isX && ZeroBased(series)
  }

  /** The range of an axis with these options and series. */
  ghost function SeriesLow(o: Options, series: seq<Series>): real {
    var lo, hi := Number(DataMin(o, series)), Number(DataMax(series));
    PadLow(o, OrElse(o.min, lo), OrElse(o.max, hi), lo, FromZero(o, series))
  }

  ghost function SeriesHigh(o: Options, series: seq<Series>): real {
    PadHigh(o, OrElse(o.min, Number(DataMin(o, series))), OrElse(o.max, Number(DataMax(series))))
  }

  /** There is something to scale, data or both bounds, and the range has its ends in
      order. */
  ghost predicate Plottable(o: Options, series: seq<Series>) {
    && GoodOptions(o) && (Values(series) == [] ==> o.min.Some? && o.max.Some?)
    && SeriesLow(o, series) <= SeriesHigh(o, series)
  }

  /** The greatest value; and the least, or zero if that is less and the axis starts
      from zero. */
  lemma DataEnds(o: Options, series: seq<Series>)
    requires Values(series) != []
    ensures var lo := Number(DataMin(o, series));
      && DataMin(o, series).Some? && (forall v :: v in Values(series) ==> lo <= v)
      && DataMax(series).Some? && DataMax(series).value in Values(series)
      && (forall v :: v in Values(series) ==> v <= DataMax(series).value)
      && (FromZero(o, series) ==> lo <= 0.0) && (lo in Values(series) || (FromZero(o, series) && lo == 0.0))
  {
    ExtremesEnclose(Values(series));
  }

  /** How far the padding moves the ends of a range. */
  lemma PaddedBy(o: Options, bottom: real, top: real, lo: real, zeroBased: bool)
    ensures var range := if top == bottom then 1.0 else top - bottom;
      && PadHigh(o, bottom, top) - top == (if o.max.Some? || o.categories then 0.0 else Times(range, o.maxPadding))
      && bottom - PadLow(o, bottom, top, lo, zeroBased)
         == (if o.min.Some? || o.categories || (zeroBased && lo >= 0.0) then 0.0 else Times(range, o.minPadding))
  {
  }

  /** An explicit bound is the end of the range. An automatic end lies beyond the
      extreme of the data by its padding times the range, but on a category axis, or
      at the bottom of an axis that starts from zero, it is that extreme. */
  lemma SeriesEnds(o: Options, series: seq<Series>)
    requires Values(series) != []
    ensures o.max.Some? ==> SeriesHigh(o, series) == o.max.value
    ensures o.min.Some? ==> SeriesLow(o, series) == o.min.value
    ensures var lo, hi := Number(DataMin(o, series)), Number(DataMax(series));
            var bottom, top := OrElse(o.min, lo), OrElse(o.max, hi);
            var range := if top == bottom then 1.0 else top - bottom;
      && (o.max == None ==>
            SeriesHigh(o, series) - hi == if o.categories then 0.0 else Times(range, o.maxPadding))
      && (o.min == None ==>
            lo - SeriesLow(o, series)
            == if o.categories || (FromZero(o, series) && lo >= 0.0) then 0.0 else Times(range, o.minPadding))
  {
    var lo, hi := Number(DataMin(o, series)), Number(DataMax(series));
    var bottom, top := OrElse(o.min, lo), OrElse(o.max, hi);
    PaddedBy(o, bottom, top, lo, FromZero(o, series));
    assert SeriesHigh(o, series) == PadHigh(o, bottom, top);
    assert SeriesLow(o, series) == PadLow(o, bottom, top, lo, FromZero(o, series));
  }

  /** Without data the bounds are the range. */
  lemma BoundsAlone(o: Options, series: seq<Series>)
    requires Values(series) == [] && o.min.Some? && o.max.Some?
    ensures SeriesLow(o, series) == o.min.value && SeriesHigh(o, series) == o.max.value
  {
  }

  /** The interval between ticks that the pixel interval or the options ask for. */
  ghost function Raw(o: Options, lo: real, hi: real): (interval: real)
    requires GoodOptions(o) && lo <= hi
    ensures interval > 0.0
  {
    if o.categories || lo == hi then 1.0
    else if o.tickInterval.Some? then o.tickInterval.value
    else Share(hi - lo, o.tickPixelInterval, o.length)
  }

  ghost predicate WithinBounds(o: Options, v: real) {
    (o.min.Some? ==> o.min.value <= v) && (o.max.Some? ==> v <= o.max.value)
  }

  /** With paddings that widen, no value within the explicit bounds is cut off. */
  lemma SeriesCovered(o: Options, series: seq<Series>, v: real)
    requires Plottable(o, series) && Widening(o) && v in Values(series) && WithinBounds(o, v)
    ensures SeriesLow(o, series) <= v <= SeriesHigh(o, series)
  {
    var lo, hi := Number(DataMin(o, series)), Number(DataMax(series));
    var bottom, top := OrElse(o.min, lo), OrElse(o.max, hi);
    ExtremesEnclose(Values(series));
    SignOfProduct(Reach(bottom, top), o.minPadding);
    SignOfProduct(Reach(bottom, top), o.maxPadding);
  }

  lemma SignOfProduct(a: real, b: real)
    requires b >= 0.0
    ensures a >= 0.0 ==> Times(a, b) >= 0.0
    ensures a <= 0.0 ==> Times(a, b) <= 0.0
  {
  }

  /** The greatest number of ticks in each dimension, shared by the axes of a chart. */
  class Chart {
    var maxTicksX: nat
    var maxTicksY: nat

    constructor ()
      ensures maxTicksX == maxTicksY == 0
    {
      maxTicksX, maxTicksY := 0, 0;
    }

    function MaxTicks(isX: bool): nat
      reads this
    {
      if isX then maxTicksX else maxTicksY
    }

    /** Records the number of ticks of an axis. */
    method Record(isX: bool, n: nat)
      modifies this
      ensures MaxTicks(isX) == Most(old(MaxTicks(isX)), n) && MaxTicks(!isX) == old(MaxTicks(!isX))
    {
      if isX {
        if n > maxTicksX { maxTicksX := n; }
      } else {
        if n > maxTicksY { maxTicksY := n; }
      }
    }
  }

  class Axis {
    const options: Options
    var dataMin: Option<real>
    var dataMax: Option<real>
    var ignoreMinPadding: bool
    var min: Option<real>
    var max: Option<real>
    var magnitude: real
    var tickInterval: real
    var tickPositions: seq<real>
    var transA: real
    /** min and max counted in tick intervals. */
    ghost var first: int
    ghost var last: int

    constructor (options: Options)
      ensures this.options == options && dataMin == dataMax == min == max == None && !ignoreMinPadding
    {
      this.options := options;
      dataMin, dataMax, min, max, ignoreMinPadding := None, None, None, None, false;
      magnitude, tickInterval, tickPositions, transA := 1.0, 1.0, [], 0.0;
      first, last := 0, 0;
    }

    // ----- Extremes -----

    /** The extremes of the values taken so far, with zero among them if the first
        came from an area. */
    ghost predicate Extremes(vs: seq<real>)
      reads this
    {
      if vs == [] then dataMin == dataMax == None && !ignoreMinPadding
      else dataMin == Some(if ignoreMinPadding then Least(0.0, Lowest(vs)) else Lowest(vs)) && dataMax == Some(Highest(vs))
    }

    method GetSeriesExtremes(series: seq<Series>)
      requires dataMin == dataMax == None && !ignoreMinPadding
      modifies `dataMin, `dataMax, `ignoreMinPadding
      ensures Extremes(Values(series)) && (ignoreMinPadding <==> !options.isX && ZeroBased(series))
    {
      for i := 0 to |series|
        invariant Extremes(Values(series[..i])) && (ignoreMinPadding <==> !options.isX && ZeroBased(series[..i]))
      {
        assert series[..i+1][..i] == series[..i];
        TakeSeries(series[i], Values(series[..i]));
      }
      assert series[..|series|] == series;
    }

    method TakeSeries(serie: Series, ghost vs: seq<real>)
      requires Extremes(vs)
      modifies `dataMin, `dataMax, `ignoreMinPadding
      ensures Extremes(vs + Numbers(serie.data))
      ensures ignoreMinPadding <==> if vs == [] then !options.isX && serie.area && serie.data != [] else old(ignoreMinPadding)
    {
      var data := serie.data;
      ghost var seen := vs;
      assert vs + Numbers(data[..0]) == vs;
      for j := 0 to |data|
        invariant seen == vs + Numbers(data[..j])
        invariant Extremes(seen)
        invariant ignoreMinPadding <==> if vs == [] then !options.isX && serie.area && j > 0 else old(ignoreMinPadding)
      {
        NumbersStep(data, j);
        TakePoint(Number(data[j]), serie.area, seen);
        seen := seen + [Number(data[j])];
      }
      assert data[..|data|] == data;
    }

    /** The body of the loop over the points. */
    method TakePoint(v: real, area: bool, ghost seen: seq<real>)
      requires Extremes(seen)
      modifies `dataMin, `dataMax, `ignoreMinPadding
      ensures Extremes(seen + [v])
      ensures ignoreMinPadding <==> if seen == [] then !options.isX && area else old(ignoreMinPadding)
    {
      ghost var now := seen + [v];
      assert now[..|now|-1] == seen && now[|now|-1] == v;
      if dataMin == None {
        dataMin, dataMax := Some(v), Some(v);
        if !options.isX && area {
          dataMin := Some(0.0);
          ignoreMinPadding := true;
        }
      }
      if v > dataMax.value {
        dataMax := Some(v);
      } else if v < dataMin.value {
        dataMin := Some(v);
      }
    }

    // ----- The scale -----

    method NormalizeTickInterval(interval: real, multiples: Option<seq<real>>) returns (r: real, ghost m: real)
      requires multiples == None ==> interval > 0.0
      requires multiples.Some? ==> Ascending(multiples.value)
      modifies `magnitude
      ensures multiples == None ==> magnitude == Pow10(Exponent(interval)) && Normalized(interval, m, r)
      ensures multiples.Some? ==> magnitude == 1.0 && r == m && Nearest(multiples.value, interval, r)
    {
      magnitude := if multiples.Some? then 1.0 else Pow10(Exponent(interval));
      var normalized := interval / magnitude;
      var ms := if multiples.Some? then multiples.value else MULTIPLES;
      var nearest := ToNearest(ms, normalized);
      assert Times(nearest, 1.0) == nearest;
      assert multiples.Some? ==> normalized == interval;
      m := nearest;
      r := Times(nearest, magnitude);
    }

    /** The ends of the range before it is snapped to ticks: the present ones if
        there are, else the options, else the data, and padded where that is due. */
    ghost function Low(): real
      reads this
    {
      PadLow(options, Bottom(), Top(), Number(dataMin), ignoreMinPadding)
    }

    ghost function High(): real
      reads this
    {
      PadHigh(options, Bottom(), Top())
    }

    /** What the ends of the range are taken from is there. */
    ghost predicate HasEnds()
      reads this
    {
      (options.min.Some? || dataMin.Some?) && (max.Some? || options.max.Some? || dataMax.Some?)
    }

    ghost function Bottom(): real
      reads this
    {
      OrElse(min, OrElse(options.min, Number(dataMin)))
    }

    ghost function Top(): real
      reads this
    {
      OrElse(max, OrElse(options.max, Number(dataMax)))
    }

    /** The ticks enclose lo to hi with less than an interval to spare at either end,
        and the range runs from the first tick of its own to the last. */
    ghost predicate Covers(lo: real, hi: real)
      reads `first, `last, `tickInterval, `min, `max
    {
      && Times(first as real, tickInterval) <= lo < Times((first + 1) as real, tickInterval)
      && Times((last - 1) as real, tickInterval) < hi <= Times(last as real, tickInterval)
      && min == Some(Times(first as real, tickInterval) - if options.categories then 0.5 else 0.0)
      && max == Some(Times(last as real, tickInterval) + if options.categories then 0.5 else 0.0)
    }

    /** The axis has its ticks: consecutive multiples of a nice interval from first
        on, at least up to last. On a linear axis these are the ends of the range,
        and the translation factor spreads all the ticks over the whole length; on a
        category axis it spreads the range. */
    ghost predicate Scaled()
      reads this
    {
      && tickInterval > 0.0 && min.Some? && max.Some? && transA >= 0.0
      && first <= last && |tickPositions| > last - first
      && Ticks(tickPositions, first, tickInterval)
      && Spread()
    }

    ghost predicate Spread()
      reads this
      requires min.Some? && max.Some?
    {
      if options.categories then min.value < max.value && Times(transA, max.value - min.value) == options.length
      else
        && min.value == Times(first as real, tickInterval) && max.value == Times(last as real, tickInterval)
        && (first < last ==> Times(transA, Times((|tickPositions| - 1) as real, tickInterval)) == options.length)
        && (first == last ==> transA == if |tickPositions| == 1 then options.length else 0.0)
    }

    /** The interval is the nice one next to what a range from lo to hi asks for. */
    ghost predicate IntervalFor(lo: real, hi: real)
      reads `tickInterval
      requires GoodOptions(options) && lo <= hi
    {
      exists m :: Normalized(Raw(options, lo, hi), m, tickInterval)
    }

    method SetLinearTickPositions(ghost m: real, ghost e: int)
      requires min.Some? && max.Some? && min.value <= max.value
      requires tickInterval > 0.0 && Nice(tickInterval, m, e) && magnitude == Pow10(e)
      modifies `min, `max, `tickPositions, `first, `last
      ensures first <= last && |tickPositions| == last - first + 1
      ensures Ticks(tickPositions, first, tickInterval)
      ensures Covers(old(min.value), old(max.value))
    {
      Snap(min.value, tickInterval);
      Snap(max.value, tickInterval);
      SnapOrder(min.value, max.value, tickInterval);
      first, last := (min.value / tickInterval).Floor, Ceil(max.value / tickInterval);
      var lo := Times((min.value / tickInterval).Floor as real, tickInterval);
      var hi := Times(Ceil(max.value / tickInterval) as real, tickInterval);
      min, max := Some(lo), Some(hi);
      PushTicks(lo, hi, first, last, m, e);
      if options.categories { min, max := Some(lo - 0.5), Some(hi + 0.5); }
    }

    /** The loop that populates the tick positions; rounding does not change them. */
    method PushTicks(lo: real, hi: real, ghost a: int, ghost b: int, ghost m: real, ghost e: int)
      requires tickInterval > 0.0 && Nice(tickInterval, m, e) && magnitude == Pow10(e)
      requires a <= b && lo == Times(a as real, tickInterval) && hi == Times(b as real, tickInterval)
      modifies `tickPositions
      ensures |tickPositions| == b - a + 1 && Ticks(tickPositions, a, tickInterval)
    {
      tickPositions := [];
      var i := lo;
      ghost var k := 0;
      while i <= hi
        invariant 0 <= k == |tickPositions| <= b - a + 1
        invariant i == Times((a + k) as real, tickInterval)
        invariant Ticks(tickPositions, a, tickInterval)
        decreases b - a + 1 - k
      {
        TickBelow(a + k, b, tickInterval);
        RoundOffIdentity(a + k, m, e, tickInterval);
        tickPositions := tickPositions + [RoundOff(i, magnitude)];
        MonotoneStep(a + k, tickInterval);
        i := i + tickInterval;
        k := k + 1;
      }
      TickBelow(a + k, b, tickInterval);
    }

    method SetScale(chart: Chart)
      requires GoodOptions(options) && HasEnds() && Low() <= High()
      modifies `min, `max, `magnitude, `tickInterval, `tickPositions, `transA, `first, `last, chart
      ensures Scaled() && |tickPositions| == last - first + 1
      ensures Covers(old(Low()), old(High())) && IntervalFor(old(Low()), old(High()))
      ensures chart.MaxTicks(options.isX) == Most(old(chart.MaxTicks(options.isX)), |tickPositions|)
      ensures chart.MaxTicks(!options.isX) == old(chart.MaxTicks(!options.isX))
    {
      PadRange();
      var interval := RawInterval();
      ghost var m;
      tickInterval, m := NormalizeTickInterval(interval, None);
      NicePositive(tickInterval, m, Exponent(interval));
      SetLinearTickPositions(m, Exponent(interval));
      SetTranslation();
      chart.Record(options.isX, |tickPositions|);
    }

    method PadRange()
      requires HasEnds()
      modifies `min, `max
      ensures min == Some(old(Low())) && max == Some(old(High()))
    {
      var isAutoMin, isAutoMax := options.min == None, options.max == None;
      var lo := if min.Some? then min.value else if isAutoMin then dataMin.value else options.min.value;
      var hi := if max.Some? then max.value else if isAutoMax then dataMax.value else options.max.value;
      if !options.categories {
        var length := if hi == lo then 1.0 else hi - lo;
        assert Times(length, 0.0) == 0.0;
        if isAutoMin && options.minPadding != 0.0 && (dataMin.value < 0.0 || !ignoreMinPadding) {
          lo := lo - Times(length, options.minPadding);
        }
        if isAutoMax && options.maxPadding != 0.0 { hi := hi + Times(length, options.maxPadding); }
      }
      min, max := Some(lo), Some(hi);
    }

    method RawInterval() returns (interval: real)
      requires GoodOptions(options) && min.Some? && max.Some? && min.value <= max.value
      ensures interval == Raw(options, min.value, max.value)
      ensures options.categories || min == max ==> interval == 1.0
      ensures !options.categories && min != max && options.tickInterval.Some? ==> interval == options.tickInterval.value
      ensures !options.categories && min != max && options.tickInterval == None ==>
                Times(interval, options.length) == Times(max.value - min.value, options.tickPixelInterval)
    {
      if options.categories || min.value == max.value { return 1.0; }
      if options.tickInterval.Some? { return options.tickInterval.value; }
      interval := Share(max.value - min.value, options.tickPixelInterval, options.length);
    }

    method SetTranslation()
      requires GoodOptions(options) && min.Some? && max.Some? && tickInterval > 0.0
      requires first <= last && |tickPositions| == last - first + 1 && Ticks(tickPositions, first, tickInterval)
      requires min == Some(Times(first as real, tickInterval) - if options.categories then 0.5 else 0.0)
      requires max == Some(Times(last as real, tickInterval) + if options.categories then 0.5 else 0.0)
      modifies `transA
      ensures Scaled()
    {
      var range := if max.value == min.value then 1.0 else max.value - min.value;
      Span(first, last, tickInterval);
      Divided(options.length, range);
      SpreadPositive(options.length, range);
      transA := options.length / range;
    }

    /** Ticks are added up to the shared number, and the translation factor shrinks
        so that they still fit. */
    method AdjustTickAmount(chart: Chart)
      requires Scaled()
      modifies `tickPositions, `transA
      ensures Scaled()
      ensures options.categories ==> tickPositions == old(tickPositions) && transA == old(transA)
      ensures !options.categories ==> |tickPositions| == Most(|old(tickPositions)|, chart.MaxTicks(options.isX))
    {
      if !options.categories {
        var tickAmount, desired := |tickPositions|, chart.MaxTicks(options.isX);
        if tickAmount < desired {
          ghost var t, d := (tickAmount - 1) as real, (desired - 1) as real;
          while |tickPositions| < desired
            invariant tickAmount <= |tickPositions| <= desired
            invariant Ticks(tickPositions, first, tickInterval) && transA == old(transA)
          {
            MonotoneStep(first + |tickPositions| - 1, tickInterval);
            tickPositions := tickPositions + [tickPositions[|tickPositions|-1] + tickInterval];
          }
          Respread(transA, t, d, tickInterval);
          transA := Times(transA, (tickAmount - 1) as real / (desired - 1) as real);
        }
      }
    }

    /** The last steps of constructing an axis. */
    method Load(series: seq<Series>, chart: Chart)
      requires dataMin == dataMax == min == max == None && !ignoreMinPadding
      requires Plottable(options, series)
      modifies this, chart
      ensures Scaled() && |tickPositions| == last - first + 1
      ensures Covers(SeriesLow(options, series), SeriesHigh(options, series))
      ensures IntervalFor(SeriesLow(options, series), SeriesHigh(options, series))
      ensures chart.MaxTicks(options.isX) == Most(old(chart.MaxTicks(options.isX)), |tickPositions|)
      ensures chart.MaxTicks(!options.isX) == old(chart.MaxTicks(!options.isX))
    {
      GetSeriesExtremes(series);
      assert Low() == SeriesLow(options, series) && High() == SeriesHigh(options, series);
      SetScale(chart);
    }

    /** Every value of the series within the explicit bounds lies in the range. */
    lemma CoversSeries(series: seq<Series>)
      requires Plottable(options, series) && Widening(options)
      requires Covers(SeriesLow(options, series), SeriesHigh(options, series))
      ensures AllInRange(this, Values(series))
    {
      forall j | 0 <= j < |Values(series)| && WithinBounds(options, Values(series)[j])
        ensures InRange(Values(series)[j])
      {
        SeriesCovered(options, series, Values(series)[j]);
      }
    }

    ghost predicate InRange(v: real)
      reads `min, `max
    {
      min.Some? && max.Some? && min.value <= v <= max.value
    }

    // ----- Translation -----

    /** Values to pixels, or with `reverse` pixels to values. */
    function Translate(val: real, reverse: bool, cvsCoord: bool): real
      reads this
      requires min.Some? && (reverse ==> transA != 0.0)
    {
      var sign := if cvsCoord then -1.0 else 1.0;
      var cvsOffset := if cvsCoord then options.length else 0.0;
      var sign' := if options.reversed then -sign else sign;
      var cvsOffset' := if options.reversed then cvsOffset - sign' * options.length else cvsOffset;
      if reverse then val / transA + min.value
      else Times(sign' * (val - min.value), transA) + cvsOffset'
    }

    /** The distance of a value from the start of the axis in pixels. */
    ghost function Offset(val: real): real
      reads this
      requires min.Some?
    {
      Times(val - min.value, transA)
    }

    /** The two flips cancel: coordinates run backwards exactly when one of them applies. */
    lemma TranslateIs(val: real, cvsCoord: bool)
      requires min.Some?
      ensures Translate(val, false, cvsCoord)
           == if options.reversed == cvsCoord then Offset(val) else options.length - Offset(val)
    {
      Negate(val - min.value, transA);
      assert 1.0 * (val - min.value) == val - min.value;
      assert -1.0 * (val - min.value) == -(val - min.value);
    }

    /** Going back from pixels to values ignores both flips, so it inverts the
        translation only when they cancel, or at the middle of the axis. */
    lemma TranslateBack(val: real, cvsCoord: bool)
      requires min.Some? && transA != 0.0
      ensures Translate(Translate(val, false, cvsCoord), true, cvsCoord) == val
              <==> options.reversed == cvsCoord || 2.0 * Offset(val) == options.length
    {
      TranslateIs(val, cvsCoord);
      var p := Translate(val, false, cvsCoord);
      Divided(p, transA);
      if p / transA == val - min.value {
        assert Times(p / transA, transA) == Offset(val);
      }
      if p == Offset(val) { CancelFactor(p / transA, val - min.value, transA); }
    }

    /** A value in the range of an axis is drawn inside the plot. */
    lemma InsidePlot(val: real, cvsCoord: bool)
      requires Scaled() && options.length > 0.0 && InRange(val)
      ensures 0.0 <= Translate(val, false, cvsCoord) <= options.length
    {
      TranslateIs(val, cvsCoord);
      NonNegativeProduct(val - min.value, transA);
      if options.categories {
        Shrink(val - min.value, max.value - min.value, transA);
      } else if first < last {
        var n := |tickPositions| - 1;
        Span(first, last, tickInterval);
        Monotone((last - first) as real, n as real, tickInterval);
        Shrink(val - min.value, Times(n as real, tickInterval), transA);
      } else {
        assert Times(0.0, transA) == 0.0;
      }
    }

    /** An axis draws everything in one place exactly if it is linear with a single
        tick of its own and has been given more. */
    lemma FlatWhen()
      requires Scaled() && options.length > 0.0
      ensures transA == 0.0 <==> !options.categories && first == last && |tickPositions| > 1
    {
      assert Times(0.0, max.value - min.value) == 0.0;
      assert Times(0.0, Times((|tickPositions| - 1) as real, tickInterval)) == 0.0;
    }

    /** Tick k of a linear axis with at least two ticks of its own lies at the k-th
        of the equal parts its ticks divide the axis into. */
    lemma SpacedEvenly()
      requires Scaled()
      ensures !options.categories && OwnTicks(this) >= 2 ==> EvenlySpaced(this)
    {
      if !options.categories && first < last {
        forall k | 0 <= k < |tickPositions|
          ensures Times(Offset(tickPositions[k]), (|tickPositions| - 1) as real) == Times(k as real, options.length)
        {
          TickOffset(k);
        }
      }
    }

    /** Category k of n is drawn in the middle of the k-th of n equal parts. */
    lemma CategoryCentred(lo: real, hi: real)
      requires Scaled() && options.categories && tickInterval == 1.0 && Covers(lo, hi)
      requires |tickPositions| == last - first + 1
      ensures Centred(this)
    {
      var n := |tickPositions| as real;
      assert max.value - min.value == n by {
        assert Times(first as real, 1.0) == first as real && Times(last as real, 1.0) == last as real;
      }
      forall k | 0 <= k < |tickPositions|
        ensures Times(Offset(tickPositions[k]), n) == Times(k as real + 0.5, options.length)
      {
        assert Times((first + k) as real, 1.0) == (first + k) as real && Times(first as real, 1.0) == first as real;
        assert tickPositions[k] - min.value == k as real + 0.5;
        ThreeFactors(k as real + 0.5, transA, n);
      }
    }

    lemma TickOffset(k: nat)
      requires Scaled() && !options.categories && first < last && k < |tickPositions|
      ensures Times(Offset(tickPositions[k]), (|tickPositions| - 1) as real) == Times(k as real, options.length)
    {
      Span(first, first + k, tickInterval);
      assert tickPositions[k] - min.value == Times(k as real, tickInterval);
      EqualParts(k as real, tickInterval, transA, (|tickPositions| - 1) as real);
    }
  }

  lemma ThreeFactors(a: real, b: real, c: real)
    ensures Times(Times(a, b), c) == Times(a, Times(b, c))
  {
  }

  /** One is a nice interval and the nearest to itself. */
  lemma UnitInterval(m: real, ti: real)
    requires Normalized(1.0, m, ti)
    ensures ti == 1.0
  {
    assert Times(1.0, Pow10(0)) == 1.0;
    Leading(1.0, 0, 1.0);
    MultipleIsNearest(1.0);
    NearestUnique(MULTIPLES, 1.0, 1.0, m);
  }

  lemma NonNegativeProduct(a: real, b: real)
    requires a >= 0.0 && b >= 0.0
    ensures Times(a, b) >= 0.0
    ensures a > 0.0 && b > 0.0 ==> Times(a, b) > 0.0
  {
  }

  lemma Shrink(a: real, b: real, d: real)
    requires a <= b && d >= 0.0
    ensures Times(a, d) <= Times(d, b)
  {
    assert (b - a) * d == d * b - a * d;
    assert (b - a) * d >= 0.0;
  }

  lemma EqualParts(k: real, ti: real, a: real, n: real)
    ensures Times(Times(Times(k, ti), a), n) == Times(k, Times(a, Times(n, ti)))
  {
  }

  function Most(a: nat, b: nat): nat { if a < b then b else a }

  /** The part of a range that takes up the given number of pixels of a length. */
  function Share(range: real, pixels: real, length: real): (r: real)
    requires range > 0.0 && pixels > 0.0 && length > 0.0
    ensures r > 0.0 && Times(r, length) == Times(range, pixels)
  {
    NonNegativeProduct(range, pixels);
    SpreadPositive(Times(range, pixels), length);
    Divided(Times(range, pixels), length);
    Times(range, pixels) / length
  }

  lemma SpreadPositive(a: real, d: real)
    requires a > 0.0 && d > 0.0
    ensures a / d > 0.0
  {
  }

  lemma NicePositive(ti: real, m: real, e: int)
    requires Nice(ti, m, e)
    ensures ti > 0.0
  {
    assert m >= 1.0;
    LeastProduct(m, Pow10(e));
  }

  lemma LeastProduct(m: real, p: real)
    requires m >= 1.0 && p > 0.0
    ensures Times(m, p) > 0.0
  {
    assert (m - 1.0) * p >= 0.0;
    assert (m - 1.0) * p == m * p - p;
  }

  lemma Span(a: int, b: int, d: real)
    requires a <= b && d > 0.0
    ensures Times((b - a) as real, d) == Times(b as real, d) - Times(a as real, d)
    ensures a < b ==> Times((b - a) as real, d) > 0.0
    ensures a == b ==> Times((b - a) as real, d) == 0.0
  {
    assert (b - a) as real == b as real - a as real;
    assert (b as real - a as real) * d == b as real * d - a as real * d;
    Monotone(a as real, b as real, d);
  }

  /** Shrinking the factor by t / d keeps the product with the number of intervals. */
  lemma Respread(a: real, t: real, d: real, ti: real)
    requires a >= 0.0 && t >= 0.0 && d > 0.0
    ensures Times(Times(a, t / d), Times(d, ti)) == Times(a, Times(t, ti))
    ensures Times(a, t / d) >= 0.0
  {
    var q := t / d;
    Divided(t, d);
    assert q >= 0.0;
    assert a * q * (d * ti) == a * (q * d * ti);
    assert Times(q, d) == t;
  }

  /** Consecutive multiples of ti from the a-th on. */
  ghost predicate Ticks(ts: seq<real>, a: int, ti: real) {
    forall k :: 0 <= k < |ts| ==> ts[k] == Times((a + k) as real, ti)
  }

  lemma TickBelow(k: int, b: int, d: real)
    requires d > 0.0
    ensures Times(k as real, d) <= Times(b as real, d) <==> k <= b
  {
    if k <= b { Monotone(k as real, b as real, d); } else { Monotone(b as real, k as real, d); }
  }

  lemma MonotoneStep(k: int, d: real)
    ensures Times((k + 1) as real, d) == Times(k as real, d) + d
  {
    assert (k + 1) as real == k as real + 1.0;
    assert (k as real + 1.0) * d == k as real * d + d;
  }

  lemma SnapOrder(x: real, y: real, d: real)
    requires d > 0.0 && x <= y
    ensures (x / d).Floor <= Ceil(y / d)
  {
    Divided(x, d);
    Divided(y, d);
    if x / d > y / d { Monotone(y / d, x / d, d); }
  }

  /** A linear axis drawn against its direction, of positive length and with two
      ticks of its own, maps its lower end to the far end and not back. */
  lemma LowerEndNotBack(axis: Axis, cvsCoord: bool)
    requires axis.Scaled() && !axis.options.categories && axis.first < axis.last
    requires axis.options.length > 0.0 && axis.options.reversed != cvsCoord
    ensures axis.transA != 0.0
    ensures axis.Translate(axis.min.value, false, cvsCoord) == axis.options.length
    ensures axis.Translate(axis.Translate(axis.min.value, false, cvsCoord), true, cvsCoord) != axis.min.value
  {
    assert Times(0.0, Times((|axis.tickPositions| - 1) as real, axis.tickInterval)) == 0.0;
    assert Times(0.0, axis.transA) == 0.0;
    axis.TranslateIs(axis.min.value, cvsCoord);
    axis.TranslateBack(axis.min.value, cvsCoord);
  }

  const VALUE_AXIS: Options := Options(false, 100.0, None, None, 0.0, 0.0, None, 50.0, false, false)
  const REVERSED_AXIS: Options := Options(true, 100.0, None, None, 0.0, 0.0, None, 50.0, false, true)
  const ONE_POINT: seq<Series> := [Series(false, [Some(0.0)])]
  const TWO_POINTS: seq<Series> := [Series(false, [Some(0.0), Some(10.0)])]

  lemma SampleRanges(o: Options)
    requires o == VALUE_AXIS || o == REVERSED_AXIS
    ensures Plottable(o, TWO_POINTS) && SeriesLow(o, TWO_POINTS) == 0.0 && SeriesHigh(o, TWO_POINTS) == 10.0
    ensures Plottable(o, ONE_POINT) && SeriesLow(o, ONE_POINT) == 0.0 && SeriesHigh(o, ONE_POINT) == 0.0
  {
    var vs: seq<real> := [0.0, 10.0];
    var v: seq<real> := [0.0];
    assert TWO_POINTS[..0] == [] && ONE_POINT[..0] == [];
    assert Values(TWO_POINTS) == Values([]) + Numbers(TWO_POINTS[0].data) == vs;
    assert Values(ONE_POINT) == Values([]) + Numbers(ONE_POINT[0].data) == v;
    assert vs[..1] == v;
    assert !ZeroBased([]);
    assert Times(10.0, 0.0) == 0.0 && Times(1.0, 0.0) == 0.0;
  }

  /** A reversed axis from 0 to 10 over 100 pixels: its lower end is drawn at pixel
      100, and pixel 100 is translated back to another value. */
  method TranslateBackFails() returns (axis: Axis)
    ensures axis.min.Some? && axis.transA != 0.0
    ensures axis.Translate(axis.min.value, false, false) == 100.0
    ensures axis.Translate(100.0, true, false) != axis.min.value
  {
    var chart := new Chart();
    axis := new Axis(REVERSED_AXIS);
    SampleRanges(REVERSED_AXIS);
    axis.Load(TWO_POINTS, chart);
    TickBelow(axis.last, axis.first, axis.tickInterval);
    LowerEndNotBack(axis, false);
  }

  // ---------- All axes of a chart ----------

  /** The number of ticks the axis had by itself. */
  ghost function OwnTicks(axis: Axis): int
    reads axis`first, axis`last
  {
    axis.last - axis.first + 1
  }

  /** A linear axis has the shared number of ticks of its dimension, and if it has
      two of its own, tick k is at k parts of its length. */
  ghost predicate InStep(axis: Axis, chart: Chart)
    reads axis, chart
  {
    && axis.Scaled() && OwnTicks(axis) <= chart.MaxTicks(axis.options.isX)
    && (axis.options.categories ==> |axis.tickPositions| == OwnTicks(axis))
    && (!axis.options.categories ==> |axis.tickPositions| == chart.MaxTicks(axis.options.isX))
    && (!axis.options.categories && OwnTicks(axis) >= 2 ==> EvenlySpaced(axis))
  }

  ghost predicate Centred(axis: Axis)
    reads axis
    requires axis.min.Some?
  {
    forall k :: 0 <= k < |axis.tickPositions| ==>
      Times(axis.Offset(axis.tickPositions[k]), |axis.tickPositions| as real) == Times(k as real + 0.5, axis.options.length)
  }

  /** An explicit bound lies less than an interval inside the end of the axis, or of its
      outer categories; categories are drawn in the middle of equal parts. */
  ghost predicate WellEnded(axis: Axis)
    reads axis
  {
    var half := if axis.options.categories then 0.5 else 0.0;
    && axis.min.Some? && axis.max.Some?
    && (axis.options.max.Some? ==>
          axis.max.value - half - axis.tickInterval < axis.options.max.value <= axis.max.value - half)
    && (axis.options.min.Some? ==>
          axis.min.value + half <= axis.options.min.value < axis.min.value + half + axis.tickInterval)
    && (axis.options.categories ==> Centred(axis))
  }

  lemma EndsWell(axis: Axis, o: Options, series: seq<Series>)
    requires Fits(axis, o, series) && axis.Scaled()
    requires o.categories ==> |axis.tickPositions| == OwnTicks(axis)
    ensures WellEnded(axis)
  {
    var lo, hi := SeriesLow(o, series), SeriesHigh(o, series);
    if Values(series) == [] { BoundsAlone(o, series); } else { SeriesEnds(o, series); }
    MonotoneStep(axis.first, axis.tickInterval);
    MonotoneStep(axis.last - 1, axis.tickInterval);
    if o.categories {
      var m :| Normalized(Raw(o, lo, hi), m, axis.tickInterval);
      UnitInterval(m, axis.tickInterval);
      axis.CategoryCentred(lo, hi);
    }
  }

  /** Tick k of N lies at k / (N - 1) of the length of the axis. */
  ghost predicate EvenlySpaced(axis: Axis)
    reads axis
    requires axis.min.Some?
  {
    forall k :: 0 <= k < |axis.tickPositions| ==>
      Times(axis.Offset(axis.tickPositions[k]), (|axis.tickPositions| - 1) as real) == Times(k as real, axis.options.length)
  }

  ghost predicate AllInRange(axis: Axis, vs: seq<real>)
    reads axis`min, axis`max
  {
    forall j :: 0 <= j < |vs| && WithinBounds(axis.options, vs[j]) ==> axis.InRange(vs[j])
  }

  /** The axis covers what its options and series ask for. */
  ghost predicate Fits(axis: Axis, o: Options, series: seq<Series>)
    reads axis`first, axis`last, axis`tickInterval, axis`min, axis`max
  {
    && axis.options == o && Plottable(o, series)
    && axis.Covers(SeriesLow(o, series), SeriesHigh(o, series))
    && axis.IntervalFor(SeriesLow(o, series), SeriesHigh(o, series))
    && (Widening(o) ==> AllInRange(axis, Values(series)))
  }

  /** The axis as constructed, with no more ticks than it needs. */
  ghost predicate Loaded(axis: Axis, o: Options, series: seq<Series>)
    reads axis
  {
    Fits(axis, o, series) && Unadjusted(axis)
  }

  ghost predicate Unadjusted(axis: Axis)
    reads axis
  {
    axis.Scaled() && |axis.tickPositions| == OwnTicks(axis)
  }

  /** The axis has at most the shared number of ticks of its dimension. */
  ghost predicate Counted(axis: Axis, chart: Chart)
    reads axis, chart
  {
    OwnTicks(axis) <= chart.MaxTicks(axis.options.isX)
  }

  /** n is the number of ticks some axis of the dimension has of its own, or zero. */
  ghost predicate Attained(axes: seq<Axis>, isX: bool, n: int)
    reads axes`first, axes`last
  {
    n == 0 || exists j :: 0 <= j < |axes| && HasOwn(axes[j], isX, n)
  }

  ghost predicate HasOwn(axis: Axis, isX: bool, n: int)
    reads axis`first, axis`last
  {
    axis.options.isX == isX && OwnTicks(axis) == n
  }

  /** Constructs the axes of a chart, category axes and explicit bounds included,
      and then brings the ticks of the linear ones in step. */
  method GetAxes(chart: Chart, options: seq<Options>, series: seq<seq<Series>>) returns (axes: seq<Axis>)
    requires |options| == |series| && chart.maxTicksX == chart.maxTicksY == 0
    requires forall i :: 0 <= i < |options| ==> Plottable(options[i], series[i])
    modifies chart
    ensures |axes| == |options|
    ensures forall i :: 0 <= i < |axes| ==> InStep(axes[i], chart)
    ensures forall i :: 0 <= i < |axes| ==> Fits(axes[i], options[i], series[i])
    ensures forall i :: 0 <= i < |axes| ==> WellEnded(axes[i])
    ensures Attained(axes, true, chart.maxTicksX) && Attained(axes, false, chart.maxTicksY)
  {
    axes := Construct(chart, options, series);
    BuiltMeans(axes, options, series, chart);
    AdjustAll(axes, chart);
    AllEndWell(axes, options, series, chart);
  }

  lemma AllEndWell(axes: seq<Axis>, options: seq<Options>, series: seq<seq<Series>>, chart: Chart)
    requires |axes| == |options| == |series|
    requires forall i :: 0 <= i < |axes| ==> InStep(axes[i], chart)
    requires forall i :: 0 <= i < |axes| ==> Fits(axes[i], options[i], series[i])
    ensures forall i :: 0 <= i < |axes| ==> WellEnded(axes[i])
  {
    forall i | 0 <= i < |axes| ensures WellEnded(axes[i]) {
      assert InStep(axes[i], chart);
      EndsWell(axes[i], options[i], series[i]);
    }
  }

  method NewAxis(chart: Chart, o: Options, series: seq<Series>) returns (axis: Axis)
    requires Plottable(o, series)
    modifies chart
    ensures fresh(axis) && Loaded(axis, o, series)
    ensures Raised(o.isX, old(chart.maxTicksX), old(chart.maxTicksY), OwnTicks(axis), chart.maxTicksX, chart.maxTicksY)
  {
    axis := new Axis(o);
    axis.Load(series, chart);
    if Widening(o) { axis.CoversSeries(series); }
  }

  method Construct(chart: Chart, options: seq<Options>, series: seq<seq<Series>>) returns (axes: seq<Axis>)
    requires |options| == |series| && chart.maxTicksX == chart.maxTicksY == 0
    requires forall i :: 0 <= i < |options| ==> Plottable(options[i], series[i])
    modifies chart
    ensures |axes| == |options| && Built(axes, options, series, chart.maxTicksX, chart.maxTicksY)
    ensures forall i :: 0 <= i < |axes| ==> fresh(axes[i])
  {
    axes := [];
    for i := 0 to |options|
      invariant |axes| == i && Built(axes, options, series, chart.maxTicksX, chart.maxTicksY)
      invariant forall axis :: axis in axes ==> fresh(axis)
    {
      var axis := AddAxis(chart, options, series, axes, i);
      InAppend(axes, axis);
      axes := axes + [axis];
    }
    forall i | 0 <= i < |axes| ensures fresh(axes[i]) {
      assert axes[i] in axes;
    }
  }

  lemma InAppend(axes: seq<Axis>, axis: Axis)
    ensures forall a :: a in axes + [axis] ==> a in axes || a == axis
  {
  }

  /** The body of the loop over the options. */
  method AddAxis(chart: Chart, options: seq<Options>, series: seq<seq<Series>>, ghost axes: seq<Axis>, i: nat) returns (axis: Axis)
    requires i == |axes| < |options| && Built(axes, options, series, chart.maxTicksX, chart.maxTicksY)
    requires Plottable(options[i], series[i])
    modifies chart
    ensures fresh(axis) && Built(axes + [axis], options, series, chart.maxTicksX, chart.maxTicksY)
  {
    ghost var nX, nY := chart.maxTicksX, chart.maxTicksY;
    axis := NewAxis(chart, options[i], series[i]);
    BuiltAppend(axes, options, series, nX, nY, axis, chart.maxTicksX, chart.maxTicksY);
  }

  /** The axes so far are different and loaded, and nX and nY are the greatest
      numbers of ticks in each dimension. */
  ghost predicate Built(axes: seq<Axis>, options: seq<Options>, series: seq<seq<Series>>, nX: nat, nY: nat)
    reads axes
  {
    && Different(axes) && AllLoaded(axes, options, series) && AllCounted(axes, nX, nY)
    && Attained(axes, true, nX) && Attained(axes, false, nY)
  }

  ghost predicate Different(axes: seq<Axis>) {
    forall i, j :: 0 <= i < j < |axes| ==> axes[i] != axes[j]
  }

  ghost predicate AllLoaded(axes: seq<Axis>, options: seq<Options>, series: seq<seq<Series>>)
    reads axes
  {
    |axes| <= |options| == |series| && forall i :: 0 <= i < |axes| ==> Loaded(axes[i], options[i], series[i])
  }

  ghost predicate AllCounted(axes: seq<Axis>, nX: nat, nY: nat)
    reads axes`first, axes`last
  {
    forall i :: 0 <= i < |axes| ==> OwnTicks(axes[i]) <= if axes[i].options.isX then nX else nY
  }

  lemma BuiltMeans(axes: seq<Axis>, options: seq<Options>, series: seq<seq<Series>>, chart: Chart)
    requires Built(axes, options, series, chart.maxTicksX, chart.maxTicksY)
    ensures forall i :: 0 <= i < |axes| ==> Unadjusted(axes[i]) && Counted(axes[i], chart)
    ensures forall i :: 0 <= i < |axes| ==> Fits(axes[i], options[i], series[i])
  {
  }

  lemma DifferentAppend(axes: seq<Axis>, axis: Axis)
    requires Different(axes) && axis !in axes
    ensures Different(axes + [axis])
  {
  }

  lemma LoadedAppend(axes: seq<Axis>, options: seq<Options>, series: seq<seq<Series>>, axis: Axis)
    requires AllLoaded(axes, options, series) && |axes| < |options| && Loaded(axis, options[|axes|], series[|axes|])
    ensures AllLoaded(axes + [axis], options, series)
  {
  }

  lemma CountedAppend(axes: seq<Axis>, nX: nat, nY: nat, axis: Axis, mX: nat, mY: nat)
    requires AllCounted(axes, nX, nY) && nX <= mX && nY <= mY
    requires OwnTicks(axis) <= if axis.options.isX then mX else mY
    ensures AllCounted(axes + [axis], mX, mY)
  {
  }

  /** One shared number of ticks goes from nX or nY up to n, if that is more. */
  ghost predicate Raised(isX: bool, nX: nat, nY: nat, n: int, mX: nat, mY: nat) {
    n >= 0 && if isX then mX == Most(nX, n) && mY == nY else mX == nX && mY == Most(nY, n)
  }

  lemma BuiltAppend(axes: seq<Axis>, options: seq<Options>, series: seq<seq<Series>>, nX: nat, nY: nat,
                    axis: Axis, mX: nat, mY: nat)
    requires Built(axes, options, series, nX, nY) && |axes| < |options| && axis !in axes
    requires Loaded(axis, options[|axes|], series[|axes|])
    requires Raised(axis.options.isX, nX, nY, OwnTicks(axis), mX, mY)
    ensures Built(axes + [axis], options, series, mX, mY)
  {
    DifferentAppend(axes, axis);
    LoadedAppend(axes, options, series, axis);
    CountedAppend(axes, nX, nY, axis, mX, mY);
    AttainedAppend(axes, axis, true, nX);
    AttainedAppend(axes, axis, false, nY);
  }

  lemma AttainedAppend(axes: seq<Axis>, axis: Axis, isX: bool, n: nat)
    requires Attained(axes, isX, n)
    ensures Attained(axes + [axis], isX, n)
    ensures axis.options.isX == isX && OwnTicks(axis) >= 0 ==> Attained(axes + [axis], isX, Most(n, OwnTicks(axis)))
  {
    var longer := axes + [axis];
    assert longer[|axes|] == axis;
    if n != 0 {
      var j :| 0 <= j < |axes| && HasOwn(axes[j], isX, n);
      assert longer[j] == axes[j];
    }
  }

  method AdjustAll(axes: seq<Axis>, chart: Chart)
    requires Different(axes) && forall i :: 0 <= i < |axes| ==> Unadjusted(axes[i]) && Counted(axes[i], chart)
    modifies axes`tickPositions, axes`transA
    ensures forall i :: 0 <= i < |axes| ==> InStep(axes[i], chart)
  {
    for i := 0 to |axes|
      invariant forall j :: 0 <= j < i ==> InStep(axes[j], chart)
      invariant forall j :: i <= j < |axes| ==> Unadjusted(axes[j]) && Counted(axes[j], chart)
    {
      AdjustOne(axes[i], chart);
      forall j | 0 <= j < |axes| && j != i ensures axes[j] != axes[i] {
      }
    }
  }

  method AdjustOne(axis: Axis, chart: Chart)
    requires Unadjusted(axis) && Counted(axis, chart)
    modifies axis`tickPositions, axis`transA
    ensures InStep(axis, chart)
  {
    axis.AdjustTickAmount(chart);
    axis.SpacedEvenly();
  }

  /** Two value axes, one from 0 to 10 and one for the single value 0: bringing them
      in step leaves the second with a factor of 0, everything drawn in one place. */
  method FlatAxis() returns (axes: seq<Axis>)
    ensures |axes| == 2 && axes[1].options == VALUE_AXIS && axes[1].transA == 0.0
  {
    var chart := new Chart();
    SampleRanges(VALUE_AXIS);
    axes := GetAxes(chart, [VALUE_AXIS, VALUE_AXIS], [TWO_POINTS, ONE_POINT]);
    assert InStep(axes[0], chart) && Fits(axes[0], VALUE_AXIS, TWO_POINTS);
    assert InStep(axes[1], chart) && Fits(axes[1], VALUE_AXIS, ONE_POINT);
    FlatBeside(axes[0], axes[1], chart);
  }

  lemma FlatBeside(a: Axis, b: Axis, chart: Chart)
    requires InStep(a, chart) && Fits(a, VALUE_AXIS, TWO_POINTS)
    requires InStep(b, chart) && Fits(b, VALUE_AXIS, ONE_POINT)
    ensures b.transA == 0.0
  {
    SampleRanges(VALUE_AXIS);
    TickBelow(a.last, a.first, a.tickInterval);
    ZeroTick(b.first, b.last, b.tickInterval);
    b.FlatWhen();
  }

  lemma ZeroTick(a: int, b: int, d: real)
    requires d > 0.0
    requires Times(a as real, d) <= 0.0 < Times((a + 1) as real, d)
    requires Times((b - 1) as real, d) < 0.0 <= Times(b as real, d)
    ensures a == b == 0
  {
    assert Times(0 as real, d) == 0.0;
    TickBelow(a, 0, d);
    TickBelow(a + 1, 0, d);
    TickBelow(b - 1, 0, d);
    TickBelow(0, b - 1, d);
    TickBelow(0, b, d);
  }
}
