/** Fitting an expanded image to the viewport: keeping its aspect ratio, making
    room for overlay panels, and placing it within the margins. */
module Fit {
  import opened Wrappers
  import opened Reals

  datatype Justify = Auto | Center | Max | Unjustified

  lemma Commute(a: real, b: real)
    ensures Times(a, b) == Times(b, a)
  {
  }

  /** Scaling by a positive factor keeps the order and the sign. */
  lemma Ordered(a: real, b: real, r: real)
    requires r > 0.0
    ensures Times(a, r) < Times(b, r) <==> a < b
    ensures Times(a, r) > 0.0 <==> a > 0.0
  {
    assert (b - a) * r == b * r - a * r;
    assert a < b ==> (b - a) * r > 0.0;
    assert b <= a ==> (a - b) * r >= 0.0;
    assert (a - b) * r == a * r - b * r;
    assert a > 0.0 ==> a * r > 0.0;
    assert a <= 0.0 ==> (-a) * r >= 0.0;
    assert (-a) * r == -(a * r);
  }

  // ---------- One dimension ----------

  class Dimension {
    const isX: bool
    const full: real
    const cb: real
    const clientSize: real
    const marginMin: real
    const marginMax: real
    const scroll: real
    const t: real
    const tpos: real
    const tb: real
    const justify: Justify
    /** The position of the explicit target element, if there is one. */
    const target: Option<real>
    const allowSizeReduction: bool
    var pos: real
    var size: real
    var minSize: real
    var p1: real
    var p2: real

    constructor (isX: bool, full: real, cb: real, clientSize: real, marginMin: real, marginMax: real, scroll: real,
                 t: real, tpos: real, tb: real, justify: Justify, target: Option<real>, allowSizeReduction: bool,
                 size: real, minSize: real)
      ensures this.isX == isX && this.full == full && this.cb == cb && this.clientSize == clientSize
      ensures this.marginMin == marginMin && this.marginMax == marginMax && this.scroll == scroll
      ensures this.t == t && this.tpos == tpos && this.tb == tb && this.justify == justify && this.target == target
      ensures this.allowSizeReduction == allowSizeReduction && this.size == size && this.minSize == minSize
      ensures pos == tpos - cb + tb && p1 == p2 == 0.0
    {
      this.isX, this.full, this.cb, this.clientSize := isX, full, cb, clientSize;
      this.marginMin, this.marginMax, this.scroll := marginMin, marginMax, scroll;
      this.t, this.tpos, this.tb, this.justify, this.target := t, tpos, tb, justify, target;
      this.allowSizeReduction, this.size, this.minSize := allowSizeReduction, size, minSize;
      pos, p1, p2 := tpos - cb + tb, 0.0, 0.0;
    }

    /** The outer size with borders and panels. */
    function WSize(): real
      reads this
    {
      size + 2.0 * cb + p1 + p2
    }

    function FitSize(): real { clientSize - marginMin - marginMax }

    function MaxSize(): real
      reads this
    {
      FitSize() - 2.0 * cb - p1 - p2
    }

    /** The size limit justify reduces to. */
    function Limit(): real
      reads this
    {
      if isX then MaxSize() else FitSize()
    }

    /** Where the dimension would go without margins. */
    function Ideal(): real
      reads this
    {
      IdealFrom(pos)
    }

    function IdealFrom(from: real): real
      reads this
    {
      if justify == Center then Round(scroll + (clientSize + marginMin - marginMax - WSize()) / 2.0) as real
      else Round(from - (WSize() - t) / 2.0) as real
    }

    ghost function First(): real { scroll + marginMin }

    ghost function Last(): real { scroll + clientSize - marginMax }

    /** The outer size with a content of size s. */
    ghost function Outer(s: real): real
      reads this
    {
      s + 2.0 * cb + p1 + p2
    }

    /** The ideal place moved into the margins, or the first margin if there is too
        little room. */
    ghost function Placed(): real
      reads this
    {
      PlacedFrom(pos)
    }

    ghost function PlacedFrom(from: real): real
      reads this
    {
      if WSize() < FitSize() then Least(Greatest(IdealFrom(from), First()), Last() - WSize()) else First()
    }

    ghost predicate InViewport()
      reads this
    {
      FitsWith(size)
    }

    /** Standing where it does, the dimension would be within the margins with size s. */
    ghost predicate FitsWith(s: real)
      reads this
    {
      First() <= pos && pos + Outer(s) <= Last()
    }

    // ----- Resizing: what justify makes of an automatic or centered dimension -----

    /** At least the minimum size. */
    ghost function Raised(): real
      reads this
    {
      Greatest(size, minSize)
    }

    ghost predicate MayShrink()
      reads this
    {
      allowSizeReduction && minSize <= size
    }

    ghost predicate Overflows()
      reads this
    {
      Greatest(Ideal(), First()) + Outer(Raised()) > Last()
    }

    /** Pulled back from the last margin without resizing. */
    ghost predicate PulledBack()
      reads this
    {
      Overflows() && Outer(Raised()) < FitSize() && (Ideal() >= First() || !MayShrink())
    }

    /** Cut down to the limit, and for an ideal place within the margins even if
        that is more than the size was. */
    ghost function Cut(): real
      reads this
    {
      if !Overflows() || PulledBack() || !MayShrink() then Raised()
      else if Ideal() < First() then Least(Raised(), Limit())
      else Limit()
    }

    ghost function ResizedPlace(): real
      reads this
    {
      if !Overflows() then Greatest(Ideal(), First())
      else if PulledBack() then Last() - Outer(Raised())
      else First()
    }

    /** With the minimum enforced, and what sticks out before the margin cut off;
        the latter happens only for a negative scroll offset. */
    ghost function ResizedSize(): real
      reads this
    {
      Greatest(Cut(), minSize)
      - (if MayShrink() && Cut() >= minSize then Greatest(marginMin - ResizedPlace(), 0.0) else 0.0)
    }

    ghost predicate SticksOut()
      reads this
    {
      ResizedPlace() + Outer(ResizedSize()) > Last()
    }

    /** Where resizing ends. A width sticks out of the viewport only if its least
        admissible size has no room; a height is cut down without regard for borders
        and panels, so where there are any, it sticks out whenever it was too large. */
    lemma ResizedSettles()
      requires scroll >= 0.0
      ensures minSize <= ResizedSize() && First() <= ResizedPlace()
      ensures SticksOut() ==> ResizedPlace() == First()
      ensures isX || Outer(0.0) == 0.0 ==>
                (SticksOut() <==> Outer(if MayShrink() then minSize else Raised()) > FitSize())
      ensures !isX && Outer(0.0) > 0.0 ==>
                (SticksOut() <==> Outer(Raised()) > FitSize()
                                  || (MayShrink() && Outer(Raised()) == FitSize() && Ideal() > First()))
      ensures !MayShrink() ==> ResizedSize() == Raised()
    {
    }

    /** Resizing enlarges a dimension beyond its minimum exactly if it is a height
        smaller than the room, but too large with its borders and panels, that
        overflows at the far end only. */
    lemma EnlargesWhen()
      requires scroll >= 0.0
      ensures ResizedSize() > Raised() <==>
              !isX && allowSizeReduction && minSize <= size < FitSize() <= WSize()
              && Ideal() >= First() && Ideal() + WSize() > Last()
    {
    }

    /** The source's justify: moves the dimension into the viewport and, unless only
        moving, grows it to its minimum or cuts it down to the room there is. */
    method Justify(moveOnly: bool)
      modifies `pos, `size
      ensures target.Some? ==> pos == Greatest(target.value, marginMin) && size == old(Raised())
      ensures target == None && (justify == Auto || justify == Center) ==>
                if moveOnly then pos == Greatest(old(Placed()), marginMin) && size == old(size)
                else pos == Greatest(old(ResizedPlace()), marginMin) && size == old(ResizedSize())
      ensures target == None && justify == Max ==>
                pos == Greatest(old((pos - size + t).Floor as real), marginMin) && size == old(size)
      ensures target == None && justify == Unjustified ==> pos == Greatest(old(pos), marginMin) && size == old(size)
    {
      var allowReduce := false;
      if target.Some? {
        pos := target.value;
        if size < minSize { size := minSize; }
      } else if justify == Auto || justify == Center {
        allowReduce := Fitted(moveOnly);
      } else if justify == Max {
        pos := (pos - size + t).Floor as real;
      }
      if pos < marginMin {
        var tmpMin := pos;
        pos := marginMin;
        if allowReduce && !moveOnly { size := size - (pos - tmpMin); }
      }
    }

    /** The branch for automatic and centered alignment; says whether a last
        reduction is still allowed. */
    method Fitted(moveOnly: bool) returns (allowReduce: bool)
      modifies `pos, `size
      ensures moveOnly ==> pos == old(Placed()) && size == old(size)
      ensures !moveOnly ==> pos == old(ResizedPlace()) && size == old(Greatest(Cut(), minSize))
      ensures !moveOnly ==> (allowReduce <==> old(MayShrink() && Cut() >= minSize))
    {
      var hasMovedMin := false;
      allowReduce := allowSizeReduction;
      pos := Ideal();
      if pos < scroll + marginMin {
        pos := scroll + marginMin;
        hasMovedMin := true;
      }
      if !moveOnly && size < minSize {
        size := minSize;
        allowReduce := false;
      }
      if pos + WSize() > scroll + clientSize - marginMax {
        if !moveOnly && hasMovedMin && allowReduce {
          size := Least(size, Limit());
        } else if WSize() < FitSize() {
          pos := scroll + clientSize - marginMax - WSize();
        } else {
          pos := scroll + marginMin;
          if !moveOnly && allowReduce { size := Limit(); }
        }
      }
      if !moveOnly && size < minSize {
        size := minSize;
        allowReduce := false;
      }
    }

    /** Placed again from where the thumbnail is, with the size it has. */
    method PlaceAgain()
      modifies `pos, `size, `minSize
      ensures size == minSize == old(size)
      ensures Aligned(this) ==> pos == Greatest(PlacedFrom(tpos - cb + tb), marginMin)
      ensures target.Some? ==> pos == Greatest(target.value, marginMin)
      ensures target == None && justify == Max ==> pos == Greatest((tpos - cb + tb - size + t).Floor as real, marginMin)
      ensures target == None && justify == Unjustified ==> pos == Greatest(tpos - cb + tb, marginMin)
      ensures Free(this) ==> InViewport()
    {
      pos := tpos - cb + tb;
      minSize := size;
      Justify(true);
    }

    /** The ideal place is the whole pixel that puts the middle of the dimension
        nearest to the middle of the room, or of the thumbnail. */
    lemma IdealCentres(from: real)
      ensures IdealFrom(from) == IdealFrom(from).Floor as real
      ensures justify == Center ==>
                -0.5 <= IdealFrom(from) + WSize() / 2.0 - (First() + FitSize() / 2.0) <= 0.5
      ensures justify != Center ==> -0.5 <= IdealFrom(from) + WSize() / 2.0 - (from + t / 2.0) <= 0.5
    {
    }

    /** A dimension smaller than its room is moved to the place within the margins that
        is nearest to the ideal one; a larger one to the first margin. */
    lemma PlacedFits(from: real, q: real)
      ensures WSize() < FitSize() ==> First() <= PlacedFrom(from) && PlacedFrom(from) + WSize() <= Last()
      ensures WSize() < FitSize() && First() <= q && q + WSize() <= Last() ==>
                Abs(PlacedFrom(from) - IdealFrom(from)) <= Abs(q - IdealFrom(from))
      ensures WSize() >= FitSize() ==> PlacedFrom(from) == First()
    {
    }

    /** Resizing leaves a dimension with room as it is, at least at its minimum, and
        puts it at the place within the margins nearest to the ideal one; one that is
        too large stands at the first margin and is cut to fill the room, a height
        without borders and panels, but not below its minimum. */
    lemma ResizedFills(q: real)
      requires scroll >= 0.0
      ensures Outer(Raised()) < FitSize() ==>
                && ResizedSize() == Raised()
                && First() <= ResizedPlace() && ResizedPlace() + Outer(Raised()) <= Last()
                && (First() <= q && q + Outer(Raised()) <= Last() ==> Abs(ResizedPlace() - Ideal()) <= Abs(q - Ideal()))
      ensures Outer(Raised()) > FitSize() ==> ResizedPlace() == First()
      ensures Outer(Raised()) > FitSize() && MayShrink() && isX ==>
                Outer(ResizedSize()) == Greatest(FitSize(), Outer(minSize))
      ensures Outer(Raised()) > FitSize() && MayShrink() && !isX ==>
                ResizedSize() == Greatest(if Ideal() < First() then Least(size, FitSize()) else FitSize(), minSize)
    {
    }
  }

  // ---------- The image ----------

  /** What correctRatio leaves: the aspect ratio of the image, at most its full size. */
  ghost predicate Proportional(x: Dimension, y: Dimension, ratio: real)
    reads x, y
  {
    && x.size == Times(y.size, ratio)
    && 0.0 < x.size <= x.full && 0.0 < y.size <= y.full
  }

  class Expander {
    const x: Dimension
    const y: Dimension
    const minWidth: real
    const minHeight: real
    const hasOverlayBox: bool
    /** The heights of the panels above and below for a width and height. */
    const panels: (real, real) -> (real, real)

    constructor (x: Dimension, y: Dimension, minWidth: real, minHeight: real, hasOverlayBox: bool,
                 panels: (real, real) -> (real, real))
      ensures this.x == x && this.y == y && this.minWidth == minWidth && this.minHeight == minHeight
      ensures this.hasOverlayBox == hasOverlayBox && this.panels == panels
    {
      this.x, this.y, this.minWidth, this.minHeight := x, y, minWidth, minHeight;
      this.hasOverlayBox, this.panels := hasOverlayBox, panels;
    }

    /** An image that is neither boxed nor padded: its ratio is that of its full
        size, and the minimum width is within it. */
    ghost predicate Image(ratio: real)
      reads x, y
    {
      && x != y && x.full > 0.0 && y.full > 0.0 && x.full == Times(y.full, ratio) && ratio > 0.0
      && x.size > 0.0 && y.size > 0.0 && 0.0 < x.minSize <= x.full
      && minHeight >= 10.0
    }

    // ----- Making room for the panels -----

    /** The guard of the loop, for a size of the image and panels of height p. */
    ghost predicate CrowdedBy(xSize: real, ySize: real, p: (real, real)) {
      hasOverlayBox && ySize > minHeight && xSize > minWidth && ySize + 2.0 * y.cb + p.0 + p.1 > y.FitSize()
    }

    ghost predicate Crowded(xSize: real, ySize: real)
      reads y
    {
      CrowdedBy(xSize, ySize, (y.p1, y.p2))
    }

    /** No round was due after the k-th, and the k-th was: there is room for the height
        with its borders and panels, or the image is down to a minimum that it was above
        ten pixels earlier. */
    ghost predicate RoomMade(ratio: real, k: nat)
      reads x, y
    {
      && (hasOverlayBox ==>
            || y.size <= minHeight || x.size <= minWidth
            || y.size + 2.0 * y.cb + y.p1 + y.p2 <= y.clientSize - y.marginMin - y.marginMax)
      && (k > 0 ==>
            && hasOverlayBox && y.size + 10.0 > minHeight && Times(y.size + 10.0, ratio) > minWidth
            && (y.p1, y.p2) == panels(x.size, y.size))
    }

    /** The height after k rounds. */
    ghost function Lowered(h: real, k: nat): real { h - 10.0 * k as real }

    /** The panels after k rounds, measured with the size of that round. */
    ghost function Measured(ratio: real, h: real, p: (real, real), k: nat): (real, real) {
      if k == 0 then p else panels(Times(Lowered(h, k), ratio), Lowered(h, k))
    }

    /** At height h there is too little room, and so there is in each of the k rounds
        before the last. */
    ghost predicate CrowdedFor(ratio: real, h: real, p: (real, real), k: nat) {
      forall j: nat :: j < k ==> CrowdedBy(Times(Lowered(h, j), ratio), Lowered(h, j), Measured(ratio, h, p, j))
    }

    /** The loop that makes room for the panels, ten pixels at a time; k counts its rounds. */
    method FitOverlayBox(ratio: real, was: bool) returns (changed: bool, ghost k: nat)
      requires x != y && ratio > 0.0 && minHeight >= 10.0 && Proportional(x, y, ratio)
      modifies x`size, y`size, y`p1, y`p2
      ensures Proportional(x, y, ratio)
      ensures y.size == Lowered(old(y.size), k) && (y.p1, y.p2) == Measured(ratio, old(y.size), old((y.p1, y.p2)), k)
      ensures CrowdedFor(ratio, old(y.size), old((y.p1, y.p2)), k) && !Crowded(x.size, y.size)
      ensures y.size == old(y.size) - 10.0 * k as real && RoomMade(ratio, k)
      ensures k > 0 <==> old(Crowded(x.size, y.size))
      ensures changed <==> was || k > 0
    {
      changed, k := was, 0;
      ghost var h, p0 := y.size, (y.p1, y.p2);
      if hasOverlayBox {
        while y.size > minHeight && x.size > minWidth && y.WSize() > y.FitSize()
          invariant Proportional(x, y, ratio)
          invariant y.size == Lowered(h, k) && (y.p1, y.p2) == Measured(ratio, h, p0, k)
          invariant CrowdedFor(ratio, h, p0, k)
          invariant k > 0 ==> old(Crowded(x.size, y.size))
          invariant changed <==> was || k > 0
          invariant k > 0 ==> y.size + 10.0 > minHeight && Times(y.size + 10.0, ratio) > minWidth
          decreases y.size.Floor
        {
          Ordered(y.size - 10.0, y.size, ratio);
          assert CrowdedBy(x.size, y.size, (y.p1, y.p2));
          assert x.size == Times(y.size, ratio);
          y.size := y.size - 10.0;
          assert y.size + 10.0 > minHeight && Times(y.size + 10.0, ratio) > minWidth;
          x.size := Times(y.size, ratio);
          var p := panels(x.size, y.size);
          y.p1, y.p2 := p.0, p.1;
          changed := true;
          k := k + 1;
        }
      }
    }

    // ----- Restoring the ratio -----

    /** h is the height of the image with its ratio restored: the side that is too
        long gives way, the height to a width that would fall below its minimum. */
    ghost predicate Restored(ratio: real, h: real)
      reads x, y
    {
      var xSize, ySize := Least(x.full, x.size), Least(y.full, y.size);
      if xSize < Times(ySize, ratio) then Times(h, ratio) == xSize
      else if xSize > Times(ySize, ratio) && Times(ySize, ratio) < x.minSize then Times(h, ratio) == x.minSize
      else h == ySize
    }

    method RestoreRatio(ratio: real) returns (xSize: real, ySize: real, changed: bool)
      requires Image(ratio)
      ensures xSize == Times(ySize, ratio) && 0.0 < xSize <= x.full && 0.0 < ySize <= y.full
      ensures Restored(ratio, ySize)
      ensures changed <==> Least(x.full, x.size) != Times(Least(y.full, y.size), ratio)
      ensures !changed ==> xSize == Least(x.full, x.size) && ySize == Least(y.full, y.size)
    {
      xSize, ySize, changed := Least(x.full, x.size), Least(y.full, y.size), false;
      QuotientAgainst(xSize, ySize, ratio);
      ghost var y0 := ySize;
      if xSize / ySize > ratio {
        Ordered(ySize, ySize, ratio);
        xSize := Times(ySize, ratio);
        if xSize < x.minSize {
          xSize := x.minSize;
          ySize := xSize / ratio;
          Divided(xSize, ratio);
          Ordered(ySize, y.full, ratio);
          Ordered(y.full, ySize, ratio);
        }
        changed := true;
      } else if xSize / ySize < ratio {
        ySize := xSize / ratio;
        Divided(xSize, ratio);
        Ordered(ySize, y0, ratio);
        changed := true;
      }
    }

    /** The height with the ratio restored is determined by that. */
    lemma RestoredUnique(ratio: real, h: real, h': real)
      requires ratio > 0.0 && Restored(ratio, h) && Restored(ratio, h')
      ensures h == h'
    {
      CancelFactor(h, h', ratio);
    }

    /** Something is to be corrected: the sizes, cut to the full ones, are out of
        ratio, or the panels leave the height too little room. */
    ghost predicate NeedsCorrection(ratio: real)
      reads x, y
    {
      || Least(x.full, x.size) != Times(Least(y.full, y.size), ratio)
      || Crowded(Least(x.full, x.size), Least(y.full, y.size))
    }

    /** The sizes: in ratio, with room for the panels or at a minimum, and changed
        only as far as that takes. */
    method CorrectSizes(ratio: real) returns (changed: bool, ghost h: real, ghost k: nat)
      requires Image(ratio)
      modifies x`size, y`size, y`p1, y`p2
      ensures Proportional(x, y, ratio)
      ensures old(Restored(ratio, h)) && y.size == h - 10.0 * k as real && RoomMade(ratio, k)
      ensures (y.p1, y.p2) == Measured(ratio, h, old((y.p1, y.p2)), k)
      ensures CrowdedFor(ratio, h, old((y.p1, y.p2)), k) && !Crowded(x.size, y.size)
      ensures changed <==> old(NeedsCorrection(ratio))
      ensures !changed ==> k == 0 && x.size == old(Least(x.full, x.size)) && y.size == old(Least(y.full, y.size))
    {
      var xSize, ySize;
      xSize, ySize, changed := RestoreRatio(ratio);
      h := ySize;
      x.size := xSize;
      y.size := ySize;
      changed, k := FitOverlayBox(ratio, changed);
    }

    /** The image keeps its ratio. It is placed again only if something was to be
        corrected, so a dimension with room ends in the viewport exactly then, or if
        it was there before. */
    method CorrectRatio(ratio: real) returns (changed: bool, ghost h: real, ghost k: nat)
      requires Image(ratio)
      modifies x`pos, x`size, x`minSize, y`pos, y`size, y`minSize, y`p1, y`p2
      ensures Proportional(x, y, ratio)
      ensures old(Restored(ratio, h)) && y.size == h - 10.0 * k as real && RoomMade(ratio, k)
      ensures (y.p1, y.p2) == Measured(ratio, h, old((y.p1, y.p2)), k)
      ensures CrowdedFor(ratio, h, old((y.p1, y.p2)), k) && !Crowded(x.size, y.size)
      ensures changed <==> old(NeedsCorrection(ratio))
      ensures changed ==> PlacedNow(x)
      ensures changed ==> PlacedNow(y)
      ensures !changed ==> x.size == old(Least(x.full, x.size)) && y.size == old(Least(y.full, y.size))
      ensures !changed ==> x.pos == old(x.pos) && y.pos == old(y.pos) && y.p1 == old(y.p1) && y.p2 == old(y.p2)
      ensures Free(x) ==> (x.InViewport() <==>
                old(NeedsCorrection(ratio)) || old(x.FitsWith(Least(x.full, x.size))))
      ensures Free(y) ==> (y.InViewport() <==>
                old(NeedsCorrection(ratio)) || old(y.FitsWith(Least(y.full, y.size))))
    {
      changed, h, k := CorrectSizes(ratio);
      if changed {
        x.PlaceAgain();
        y.PlaceAgain();
      }
    }
  }

  /** A panel measured after the image was placed pushes it over the margin, and
      as the sizes need no correction, nothing moves it back: 50 pixels at place
      150 of 200, and 20 more below. */
  method PanelPushesOut() returns (e: Expander)
    ensures Free(e.y) && !e.y.InViewport()
  {
    var x := PlacedSquare(true, 100.0);
    var y := PlacedSquare(false, 150.0);
    e := new Expander(x, y, 50.0, 50.0, true, (w, h) => (0.0, 20.0));
    y.p1, y.p2 := e.panels(x.size, y.size).0, e.panels(x.size, y.size).1;
    assert Times(50.0, 1.0) == 50.0;
    assert !e.NeedsCorrection(1.0) && !y.FitsWith(50.0);
    ghost var h, k;
    var changed;
    changed, h, k := e.CorrectRatio(1.0);
  }

  /** One dimension of an image of 50 by 50 on a page of 200 by 200, as justified. */
  method PlacedSquare(isX: bool, place: real) returns (d: Dimension)
    requires 0.0 <= place <= 150.0 && place == place.Floor as real
    ensures fresh(d) && d.pos == place && d.size == 50.0 && d.minSize == 50.0 && d.full == 50.0 && d.p1 == d.p2 == 0.0
    ensures d.cb == d.marginMin == d.marginMax == d.scroll == 0.0 && d.clientSize == 200.0
    ensures d.target == None && d.justify == Auto
  {
    d := new Dimension(isX, 50.0, 0.0, 200.0, 0.0, 0.0, 0.0, 50.0, place, 0.0, Auto, None, true, 50.0, 50.0);
    assert Round(place) as real == place && d.Ideal() == place;
    assert !d.Overflows() && d.ResizedPlace() == place && d.ResizedSize() == 50.0;
    d.Justify(false);
  }

  /** A height of 90 within borders of 10 fills 110 of 100 pixels; resizing cuts it
      down to 100, which makes it larger. */
  method ResizingEnlarges() returns (y: Dimension)
    ensures y.size == 100.0
  {
    y := new Dimension(false, 200.0, 10.0, 100.0, 0.0, 0.0, 0.0, 90.0, 30.0, 0.0, Auto, None, true, 90.0, 20.0);
    assert y.Ideal() == 10.0;
    y.Justify(false);
  }

  /** The dimension stands where its alignment wants it, reckoned from its thumbnail:
      at the target, against the far end, moved into the viewport, or where it was. */
  ghost predicate PlacedNow(d: Dimension)
    reads d
  {
    && d.minSize == d.size
    && (Aligned(d) ==> d.pos == Greatest(d.PlacedFrom(d.tpos - d.cb + d.tb), d.marginMin))
    && (d.target.Some? ==> d.pos == Greatest(d.target.value, d.marginMin))
    && (d.target == None && d.justify == Max ==>
          d.pos == Greatest((d.tpos - d.cb + d.tb - d.size + d.t).Floor as real, d.marginMin))
    && (d.target == None && d.justify == Unjustified ==> d.pos == Greatest(d.tpos - d.cb + d.tb, d.marginMin))
  }

  /** The place depends on the viewport and the thumbnail only. */
  ghost predicate Aligned(d: Dimension) {
    d.target == None && (d.justify == Auto || d.justify == Center)
  }

  /** Nothing but the viewport decides where the dimension goes, and there is room. */
  ghost predicate Free(d: Dimension)
    reads d
  {
    d.WSize() < d.FitSize() && Aligned(d) && d.scroll >= 0.0
  }

  lemma QuotientAgainst(x: real, y: real, r: real)
    requires y > 0.0 && r > 0.0
    ensures x / y > r <==> x > Times(y, r)
    ensures x / y < r <==> x < Times(y, r)
  {
    Divided(x, y);
    Commute(y, r);
    Ordered(r, x / y, y);
    Ordered(x / y, r, y);
  }
}
