/** A line series: cutting its data at null values, and the table that maps every
    pixel along the axis to the nearest point. */
module Tooltip {
  import opened Wrappers
  import opened Reals

  datatype Point = Point(x: real, y: Option<real>, plotX: real)

  // ---------- Segments ----------

  function NonNull(data: seq<Point>): seq<Point> {
    if data == [] then []
    else NonNull(data[..|data|-1]) + if data[|data|-1].y.Some? then [data[|data|-1]] else []
  }

  function Concat(segments: seq<seq<Point>>): seq<Point> {
    if segments == [] then [] else Concat(segments[..|segments|-1]) + segments[|segments|-1]
  }

  lemma ConcatStep(segments: seq<seq<Point>>, s: seq<Point>)
    ensures Concat(segments + [s]) == Concat(segments) + s
  {
    assert (segments + [s])[..|segments|] == segments;
  }

  lemma NonNullStep(data: seq<Point>, i: nat)
    requires i < |data|
    ensures NonNull(data[..i+1]) == NonNull(data[..i]) + if data[i].y.Some? then [data[i]] else []
  {
    assert data[..i+1][..i] == data[..i];
  }

  datatype Span = Span(from: nat, to: nat)

  /** data[a..b] is a longest stretch without nulls. */
  ghost predicate Stretch(data: seq<Point>, a: nat, b: nat) {
    && a < b <= |data|
    && (forall i :: a <= i < b ==> data[i].y.Some?)
    && (a > 0 ==> data[a-1].y == None)
    && (b < |data| ==> data[b].y == None)
  }

  ghost predicate InSome(cuts: seq<Span>, i: nat) {
    exists k :: 0 <= k < |cuts| && cuts[k].from <= i < cuts[k].to
  }

  /** Every point before n that is not null is in a segment. */
  ghost predicate Covered(data: seq<Point>, cuts: seq<Span>, n: int)
    requires n <= |data|
  {
    forall i :: 0 <= i < n && data[i].y.Some? ==> InSome(cuts, i)
  }

  lemma CoveredMore(data: seq<Point>, cuts: seq<Span>, a: nat, b: nat)
    requires a <= b <= |data| && Covered(data, cuts, a)
    ensures Covered(data, cuts + [Span(a, b)], b)
  {
    var more := cuts + [Span(a, b)];
    forall i | 0 <= i < b && data[i].y.Some? ensures InSome(more, i) {
      if i < a {
        var k :| 0 <= k < |cuts| && cuts[k].from <= i < cuts[k].to;
        assert more[k] == cuts[k];
      } else {
        assert more[|cuts|] == Span(a, b);
      }
    }
  }

  /** The segments are the longest stretches without nulls, in order. */
  ghost predicate Segmented(data: seq<Point>, segments: seq<seq<Point>>, cuts: seq<Span>) {
    && |cuts| == |segments|
    && (forall k :: 0 <= k < |cuts| ==> Stretch(data, cuts[k].from, cuts[k].to) && segments[k] == data[cuts[k].from..cuts[k].to])
    && (forall j, k :: 0 <= j < k < |cuts| ==> cuts[j].to < cuts[k].from)
  }

  /** Before i the stretches up to the last null are cut, and no null has come since. */
  ghost predicate CutStretches(data: seq<Point>, segments: seq<seq<Point>>, cuts: seq<Span>, lastNull: int, i: nat) {
    && -1 <= lastNull < i <= |data|
    && (lastNull >= 0 ==> data[lastNull].y == None)
    && (forall j :: lastNull < j < i ==> data[j].y.Some?)
    && Segmented(data, segments, cuts)
    && (forall k :: 0 <= k < |cuts| ==> cuts[k].to <= lastNull)
    && Covered(data, cuts, lastNull + 1)
  }

  /** The segments and the points since the last null are all but the nulls before i. */
  ghost predicate CutContent(data: seq<Point>, segments: seq<seq<Point>>, lastNull: int, i: nat) {
    -1 <= lastNull < i <= |data| && Concat(segments) + data[lastNull+1..i] == NonNull(data[..i])
  }

  ghost predicate CutSoFar(data: seq<Point>, segments: seq<seq<Point>>, cuts: seq<Span>, lastNull: int, i: nat) {
    CutStretches(data, segments, cuts, lastNull, i) && CutContent(data, segments, lastNull, i)
  }

  ghost predicate CutAll(data: seq<Point>, segments: seq<seq<Point>>, cuts: seq<Span>) {
    Segmented(data, segments, cuts) && Covered(data, cuts, |data|) && Concat(segments) == NonNull(data)
  }

  lemma AddSegment(data: seq<Point>, segments: seq<seq<Point>>, cuts: seq<Span>, a: nat, b: nat)
    requires Segmented(data, segments, cuts) && Stretch(data, a, b)
    requires forall k :: 0 <= k < |cuts| ==> cuts[k].to < a
    ensures Segmented(data, segments + [data[a..b]], cuts + [Span(a, b)])
  {
  }

  /** A null closes the open stretch. */
  lemma CloseStretch(data: seq<Point>, segments: seq<seq<Point>>, cuts: seq<Span>, lastNull: int, i: nat)
    requires CutStretches(data, segments, cuts, lastNull, i) && lastNull + 1 < i < |data| && data[i].y == None
    ensures CutStretches(data, segments + [data[lastNull+1..i]], cuts + [Span(lastNull + 1, i)], i, i + 1)
  {
    AddSegment(data, segments, cuts, lastNull + 1, i);
    CoveredMore(data, cuts, lastNull + 1, i);
  }

  /** A null right behind another one, or at the start, only moves on. */
  lemma NothingOpen(data: seq<Point>, segments: seq<seq<Point>>, cuts: seq<Span>, lastNull: int, i: nat)
    requires CutStretches(data, segments, cuts, lastNull, i) && lastNull + 1 == i < |data| && data[i].y == None
    ensures CutStretches(data, segments, cuts, i, i + 1)
  {
  }

  /** A null leaves the content as it is, closed or with nothing open. */
  lemma NullContent(data: seq<Point>, segments: seq<seq<Point>>, lastNull: int, i: nat)
    requires CutContent(data, segments, lastNull, i) && i < |data| && data[i].y == None
    ensures CutContent(data, segments + [data[lastNull+1..i]], i, i + 1)
    ensures lastNull + 1 == i ==> CutContent(data, segments, i, i + 1)
  {
    NonNullStep(data, i);
    ConcatStep(segments, data[lastNull+1..i]);
    assert data[i+1..i+1] == [];
  }

  lemma PointContent(data: seq<Point>, segments: seq<seq<Point>>, lastNull: int, i: nat)
    requires CutContent(data, segments, lastNull, i) && i < |data| && data[i].y.Some?
    ensures CutContent(data, segments, lastNull, i + 1)
  {
    NonNullStep(data, i);
    OneMore(Concat(segments), data, lastNull + 1, i);
  }

  lemma OneMore(s: seq<Point>, data: seq<Point>, a: nat, i: nat)
    requires a <= i < |data|
    ensures (s + data[a..i]) + [data[i]] == s + data[a..i+1]
  {
    assert data[a..i] + [data[i]] == data[a..i+1];
  }

  /** The end of the data closes the open stretch. */
  lemma EndStretch(data: seq<Point>, segments: seq<seq<Point>>, cuts: seq<Span>, lastNull: int)
    requires CutStretches(data, segments, cuts, lastNull, |data|) && lastNull + 1 < |data|
    ensures Segmented(data, segments + [data[lastNull+1..|data|]], cuts + [Span(lastNull + 1, |data|)])
    ensures Covered(data, cuts + [Span(lastNull + 1, |data|)], |data|)
  {
    AddSegment(data, segments, cuts, lastNull + 1, |data|);
    CoveredMore(data, cuts, lastNull + 1, |data|);
  }

  lemma EndContent(data: seq<Point>, segments: seq<seq<Point>>, lastNull: int)
    requires CutContent(data, segments, lastNull, |data|)
    ensures Concat(segments + [data[lastNull+1..|data|]]) == NonNull(data)
    ensures lastNull + 1 == |data| ==> Concat(segments) == NonNull(data)
  {
    assert data[..|data|] == data;
    ConcatStep(segments, data[lastNull+1..|data|]);
  }

  lemma NullEnds(data: seq<Point>, segments: seq<seq<Point>>, cuts: seq<Span>)
    requires CutSoFar(data, segments, cuts, |data| - 1, |data|)
    ensures CutAll(data, segments, cuts)
  {
    EndContent(data, segments, |data| - 1);
  }

  lemma NullCloses(data: seq<Point>, segments: seq<seq<Point>>, cuts: seq<Span>, lastNull: int, i: nat)
    requires CutSoFar(data, segments, cuts, lastNull, i) && lastNull + 1 < i < |data| && data[i].y == None
    ensures CutState(data, segments + [data[lastNull+1..i]], cuts + [Span(lastNull + 1, i)], i, i + 1)
  {
    CloseStretch(data, segments, cuts, lastNull, i);
    NullContent(data, segments, lastNull, i);
    if i + 1 == |data| { NullEnds(data, segments + [data[lastNull+1..i]], cuts + [Span(lastNull + 1, i)]); }
  }

  lemma NullPasses(data: seq<Point>, segments: seq<seq<Point>>, cuts: seq<Span>, lastNull: int, i: nat)
    requires CutSoFar(data, segments, cuts, lastNull, i) && lastNull + 1 == i < |data| && data[i].y == None
    ensures CutState(data, segments, cuts, i, i + 1)
  {
    NothingOpen(data, segments, cuts, lastNull, i);
    NullContent(data, segments, lastNull, i);
    if i + 1 == |data| { NullEnds(data, segments, cuts); }
  }

  lemma CutStart(data: seq<Point>)
    ensures CutState(data, [], [], -1, 0)
  {
    assert data[0..0] == [] && data[..0] == [];
    assert Concat([]) + data[0..0] == NonNull(data[..0]);
  }

  /** What holds before point i, and after the last point. */
  ghost predicate CutState(data: seq<Point>, segments: seq<seq<Point>>, cuts: seq<Span>, lastNull: int, i: nat) {
    if i < |data| then CutSoFar(data, segments, cuts, lastNull, i) else CutAll(data, segments, cuts)
  }

  method Segment(data: seq<Point>) returns (segments: seq<seq<Point>>, ghost cuts: seq<Span>)
    ensures Concat(segments) == NonNull(data)
    ensures Segmented(data, segments, cuts) && Covered(data, cuts, |data|)
  {
    var lastNull := -1;
    segments, cuts := [], [];
    CutStart(data);
    for i := 0 to |data|
      invariant CutState(data, segments, cuts, lastNull, i)
    {
      if data[i].y == None {
        segments, cuts := CutAtNull(data, segments, cuts, lastNull, i);
        lastNull := i;
      } else {
        segments, cuts := CutAtPoint(data, segments, cuts, lastNull, i);
      }
    }
  }

  method CutAtNull(data: seq<Point>, segments: seq<seq<Point>>, ghost cuts: seq<Span>, lastNull: int, i: nat)
    returns (segments': seq<seq<Point>>, ghost cuts': seq<Span>)
    requires CutSoFar(data, segments, cuts, lastNull, i) && i < |data| && data[i].y == None
    ensures CutState(data, segments', cuts', i, i + 1)
  {
    segments', cuts' := segments, cuts;
    if i > lastNull + 1 {
      NullCloses(data, segments, cuts, lastNull, i);
      segments', cuts' := segments + [data[lastNull+1..i]], cuts + [Span(lastNull + 1, i)];
    } else {
      NullPasses(data, segments, cuts, lastNull, i);
    }
  }

  method CutAtPoint(data: seq<Point>, segments: seq<seq<Point>>, ghost cuts: seq<Span>, lastNull: int, i: nat)
    returns (segments': seq<seq<Point>>, ghost cuts': seq<Span>)
    requires CutSoFar(data, segments, cuts, lastNull, i) && i < |data| && data[i].y.Some?
    ensures CutState(data, segments', cuts', lastNull, i + 1)
  {
    PointContent(data, segments, lastNull, i);
    segments', cuts' := segments, cuts;
    if i == |data| - 1 {
      EndStretch(data, segments, cuts, lastNull);
      EndContent(data, segments, lastNull);
      segments', cuts' := segments + [data[lastNull+1..i+1]], cuts + [Span(lastNull + 1, i + 1)];
    }
  }

  // ---------- The nearest-point table ----------

  function Reverse<T>(s: seq<T>): (r: seq<T>)
    ensures |r| == |s| && forall i :: 0 <= i < |s| ==> r[i] == s[|s|-1-i]
  {
    if s == [] then [] else Reverse(s[1..]) + [s[0]]
  }

  ghost predicate LeftToRight(data: seq<Point>) {
    forall i, j :: 0 <= i < j < |data| ==> data[i].plotX <= data[j].plotX
  }

  ghost predicate Nearest(data: seq<Point>, p: Point, pixel: int) {
    p in data && forall i :: 0 <= i < |data| ==> Abs(p.plotX - pixel as real) <= Abs(data[i].plotX - pixel as real)
  }

  /** Where the stretch of pixels of point i ends. */
  function High(data: seq<Point>, i: nat, plotSize: nat): int
    requires i < |data|
  {
    if i + 1 < |data| then ((data[i].plotX + data[i+1].plotX) / 2.0).Floor else plotSize
  }

  function LowEnd(data: seq<Point>, i: nat, plotSize: nat): int
    requires i < |data|
  {
    if i > 0 then High(data, i - 1, plotSize) + 1 else 0
  }

  /** The pixel lies between the middles to the points before and after i, and on the
      middle to the point after i still belongs to i. */
  ghost predicate Owns(data: seq<Point>, i: nat, pixel: int)
    requires i < |data|
  {
    && (i > 0 ==> pixel as real - data[i-1].plotX > data[i].plotX - pixel as real)
    && (i + 1 < |data| ==> pixel as real - data[i].plotX <= data[i+1].plotX - pixel as real)
  }

  ghost predicate Owned(data: seq<Point>, p: Point, pixel: int) {
    Nearest(data, p, pixel) && exists i :: 0 <= i < |data| && Owns(data, i, pixel) && p == data[i]
  }

  /** A pixel in the stretch of point i belongs to it, and none is nearer. */
  lemma StretchIsNearest(data: seq<Point>, i: nat, pixel: int, plotSize: nat)
    requires LeftToRight(data) && i < |data|
    requires LowEnd(data, i, plotSize) <= pixel <= High(data, i, plotSize)
    ensures Owns(data, i, pixel) && Owned(data, data[i], pixel)
  {
    forall j | 0 <= j < |data| ensures Abs(data[i].plotX - pixel as real) <= Abs(data[j].plotX - pixel as real) {
      if j > i {
        assert data[i+1].plotX <= data[j].plotX;
      } else if j < i {
        assert data[j].plotX <= data[i-1].plotX <= data[i].plotX;
      }
    }
  }

  /** The array index of a pixel: an inverted chart counts from the other end. */
  function Slot(pixel: int, inverted: bool, plotSize: nat): int {
    if inverted then plotSize - pixel else pixel
  }

  class LineSeries {
    const reversed: bool
    const inverted: bool
    /** The plot height of an inverted chart and the plot width of others. */
    const plotSize: nat
    var segments: seq<seq<Point>>
    var tooltipPoints: map<int, Point>

    constructor (reversed: bool, inverted: bool, plotSize: nat)
      ensures this.reversed == reversed && this.inverted == inverted && this.plotSize == plotSize
    {
      this.reversed, this.inverted, this.plotSize := reversed, inverted, plotSize;
      segments, tooltipPoints := [], map[];
    }

    ghost function Data(): seq<Point>
      reads this
    {
      if reversed then Reverse(Concat(segments)) else Concat(segments)
    }

    /** The points of the segments in order, from the other end on a reversed axis. */
    lemma DataIs()
      ensures |Data()| == |Concat(segments)|
      ensures forall i :: 0 <= i < |Data()| ==>
                Data()[i] == if reversed then Concat(segments)[|Data()|-1-i] else Concat(segments)[i]
    {
    }

    /** The table over the pixels before `low`: each has the nearest point. */
    ghost predicate TableBelow(data: seq<Point>, table: map<int, Point>, low: int)
    {
      && (forall pixel :: 0 <= pixel < low && pixel <= plotSize ==>
          Slot(pixel, inverted, plotSize) in table && Owned(data, table[Slot(pixel, inverted, plotSize)], pixel))
      && forall slot :: slot in table ==> Slot(slot, inverted, plotSize) < low
    }

    method Concatenate() returns (data: seq<Point>)
      ensures data == Concat(segments)
    {
      data := [];
      for i := 0 to |segments|
        invariant data == Concat(segments[..i])
      {
        assert segments[..i+1] == segments[..i] + [segments[i]];
        ConcatStep(segments[..i], segments[i]);
        data := data + segments[i];
      }
      assert segments[..|segments|] == segments;
    }

    /** Every pixel of the plot is given exactly one point, and no other is nearer. */
    method SetTooltipPoints()
      requires Data() != [] && LeftToRight(Data())
      modifies `tooltipPoints
      ensures !inverted ==> forall pixel :: 0 <= pixel <= plotSize ==>
        pixel in tooltipPoints && Owned(Data(), tooltipPoints[pixel], pixel)
      ensures inverted ==> forall slot :: 0 <= slot <= plotSize ==>
        slot in tooltipPoints && Owned(Data(), tooltipPoints[slot], plotSize - slot)
    {
      var data := Concatenate();
      if reversed { data := Reverse(data); }
      var table := FillTable(data);
      TableSlots(data, table);
      tooltipPoints := table;
    }

    lemma TableSlots(data: seq<Point>, table: map<int, Point>)
      requires exists low :: low > plotSize && TableBelow(data, table, low)
      ensures forall slot :: 0 <= slot <= plotSize ==>
        slot in table && Owned(data, table[slot], Slot(slot, inverted, plotSize))
    {
      var low :| low > plotSize && TableBelow(data, table, low);
      forall slot | 0 <= slot <= plotSize
        ensures slot in table && Owned(data, table[slot], Slot(slot, inverted, plotSize))
      {
        assert Slot(Slot(slot, inverted, plotSize), inverted, plotSize) == slot;
      }
    }

    /** The loop over the points. */
    method FillTable(data: seq<Point>) returns (table: map<int, Point>)
      requires data != [] && LeftToRight(data)
      ensures exists low :: low > plotSize && TableBelow(data, table, low)
    {
      table := map[];
      var highs: seq<int> := [];
      ghost var bound := 0;
      for i := 0 to |data|
        invariant |highs| == i && (i > 0 ==> highs[i-1] == High(data, i - 1, plotSize))
        invariant if i < |data| then bound == LowEnd(data, i, plotSize) else bound > plotSize
        invariant TableBelow(data, table, bound)
        invariant i == 0 ==> table == map[]
      {
        var low := if i > 0 then highs[i-1] + 1 else 0;
        var high := if i + 1 < |data| then ((data[i].plotX + data[i+1].plotX) / 2.0).Floor else plotSize;
        highs := highs + [high];
        HighsGrow(data, i, plotSize);
        table := FillStretch(data, table, i, low, high);
        bound := if i + 1 < |data| then high + 1 else if low <= high then high + 1 else low;
      }
    }

    lemma TableStep(data: seq<Point>, table: map<int, Point>, i: nat, low: int)
      requires LeftToRight(data) && i < |data| && TableBelow(data, table, low)
      requires LowEnd(data, i, plotSize) <= low <= High(data, i, plotSize)
      ensures Slot(low, inverted, plotSize) !in table
      ensures TableBelow(data, table[Slot(low, inverted, plotSize) := data[i]], low + 1)
    {
      StretchIsNearest(data, i, low, plotSize);
      TableAdd(data, table, data[i], low);
    }

    lemma TableAdd(data: seq<Point>, table: map<int, Point>, p: Point, low: int)
      requires TableBelow(data, table, low) && Owned(data, p, low)
      ensures Slot(low, inverted, plotSize) !in table
      ensures TableBelow(data, table[Slot(low, inverted, plotSize) := p], low + 1)
    {
      var at := Slot(low, inverted, plotSize);
      var more := table[at := p];
      assert Slot(at, inverted, plotSize) == low;
      forall pixel | 0 <= pixel < low + 1 && pixel <= plotSize
        ensures Slot(pixel, inverted, plotSize) in more && Owned(data, more[Slot(pixel, inverted, plotSize)], pixel)
      {
        if pixel < low { assert more[Slot(pixel, inverted, plotSize)] == table[Slot(pixel, inverted, plotSize)]; }
      }
    }

    /** The loop over the pixels of point i: none of them has been written before. */
    method FillStretch(data: seq<Point>, was: map<int, Point>, i: nat, start: int, high: int)
      returns (table: map<int, Point>)
      requires LeftToRight(data) && i < |data|
      requires start == LowEnd(data, i, plotSize) && high == High(data, i, plotSize) && TableBelow(data, was, start)
      ensures start <= high ==> TableBelow(data, table, high + 1)
      ensures start > high ==> table == was
    {
      table := was;
      var low := start;
      while low <= high
        invariant start <= low && (low <= high + 1 || low == start)
        invariant TableBelow(data, table, low)
        invariant low == start ==> table == was
      {
        TableStep(data, table, i, low);
        table := table[Slot(low, inverted, plotSize) := data[i]];
        low := low + 1;
      }
    }
  }

  /** The stretches end further and further right. */
  lemma HighsGrow(data: seq<Point>, i: nat, plotSize: nat)
    requires LeftToRight(data) && i < |data|
    ensures i > 0 && i + 1 < |data| ==> High(data, i - 1, plotSize) <= High(data, i, plotSize)
  {
    if i > 0 && i + 1 < |data| {
      assert data[i-1].plotX <= data[i].plotX <= data[i+1].plotX;
    }
  }
}
