/** The graphics state of the canvas emulation: an affine matrix, a save and
    restore stack, and a line scale cached beside the matrix. */
module Canvas {
  import opened Reals

  // ---------- Matrices ----------

  type Matrix = seq<seq<real>>

  predicate IsMatrix(m: Matrix) {
    |m| == 3 && |m[0]| == 3 && |m[1]| == 3 && |m[2]| == 3
  }

  const IDENTITY: Matrix := [[1.0, 0.0, 0.0], [0.0, 1.0, 0.0], [0.0, 0.0, 1.0]]

  /** Row d of b times column f of a, as far as index g. */
  function Dot(b: Matrix, a: Matrix, d: nat, f: nat, g: nat): real
    requires IsMatrix(a) && IsMatrix(b) && d < 3 && f < 3 && g <= 3
  {
    if g == 0 then 0.0 else Dot(b, a, d, f, g - 1) + Times(b[d][g-1], a[g-1][f])
  }

  function Row(b: Matrix, a: Matrix, d: nat, f: nat): (r: seq<real>)
    requires IsMatrix(a) && IsMatrix(b) && d < 3 && f <= 3
    ensures |r| == f
  {
    if f == 0 then [] else Row(b, a, d, f - 1) + [Dot(b, a, d, f - 1, 3)]
  }

  function Product(b: Matrix, a: Matrix): (c: Matrix)
    requires IsMatrix(a) && IsMatrix(b)
    ensures IsMatrix(c)
  {
    [Row(b, a, 0, 3), Row(b, a, 1, 3), Row(b, a, 2, 3)]
  }

  lemma ProductEntry(b: Matrix, a: Matrix, d: nat, f: nat)
    requires IsMatrix(a) && IsMatrix(b) && d < 3 && f < 3
    ensures Product(b, a)[d][f] == Times(b[d][0], a[0][f]) + Times(b[d][1], a[1][f]) + Times(b[d][2], a[2][f])
  {
    assert Row(b, a, d, 3) == Row(b, a, d, 2) + [Dot(b, a, d, 2, 3)];
    assert Row(b, a, d, 2) == Row(b, a, d, 1) + [Dot(b, a, d, 1, 3)];
    assert Row(b, a, d, 1) == Row(b, a, d, 0) + [Dot(b, a, d, 0, 3)];
    assert Dot(b, a, d, f, 3) == Dot(b, a, d, f, 2) + Times(b[d][2], a[2][f]);
    assert Dot(b, a, d, f, 2) == Dot(b, a, d, f, 1) + Times(b[d][1], a[1][f]);
    assert Dot(b, a, d, f, 1) == Dot(b, a, d, f, 0) + Times(b[d][0], a[0][f]);
  }

  /** The nested loops that multiply two matrices. */
  method Multiply(b: Matrix, a: Matrix) returns (c: Matrix)
    requires IsMatrix(a) && IsMatrix(b)
    ensures c == Product(b, a)
  {
    c := IDENTITY;
    for d := 0 to 3
      invariant IsMatrix(c)
      invariant forall i :: 0 <= i < d ==> c[i] == Row(b, a, i, 3)
    {
      for f := 0 to 3
        invariant IsMatrix(c)
        invariant forall i :: 0 <= i < d ==> c[i] == Row(b, a, i, 3)
        invariant c[d][..f] == Row(b, a, d, f)
      {
        var h := 0.0;
        for g := 0 to 3
          invariant h == Dot(b, a, d, f, g)
        {
          h := h + Times(b[d][g], a[g][f]);
        }
        ghost var before := c[d];
        c := c[d := c[d][f := h]];
        assert c[d][..f+1] == before[..f] + [h];
      }
      assert c[d] == c[d][..3];
    }
  }

  /** The third column is (0, 0, 1). */
  ghost predicate Affine(m: Matrix) {
    IsMatrix(m) && m[0][2] == 0.0 && m[1][2] == 0.0 && m[2][2] == 1.0
  }

  lemma TimesFacts(x: real)
    ensures Times(0.0, x) == 0.0 && Times(x, 0.0) == 0.0 && Times(1.0, x) == x && Times(x, 1.0) == x
  {
  }

  lemma ProductAffine(b: Matrix, a: Matrix)
    requires Affine(b) && Affine(a)
    ensures Affine(Product(b, a))
  {
    ProductEntry(b, a, 0, 2); ProductEntry(b, a, 1, 2); ProductEntry(b, a, 2, 2);
    TimesFacts(b[0][0]); TimesFacts(b[0][1]); TimesFacts(b[1][0]); TimesFacts(b[1][1]);
    TimesFacts(b[2][0]); TimesFacts(b[2][1]); TimesFacts(b[2][2]); TimesFacts(1.0);
  }

  lemma MatrixEqual(a: Matrix, b: Matrix)
    requires IsMatrix(a) && IsMatrix(b)
    requires forall d, f :: 0 <= d < 3 && 0 <= f < 3 ==> a[d][f] == b[d][f]
    ensures a == b
  {
    assert a[0] == b[0] && a[1] == b[1] && a[2] == b[2];
  }

  lemma IdentityLeft(a: Matrix)
    requires IsMatrix(a)
    ensures Product(IDENTITY, a) == a
  {
    forall d, f | 0 <= d < 3 && 0 <= f < 3 ensures Product(IDENTITY, a)[d][f] == a[d][f] {
      ProductEntry(IDENTITY, a, d, f);
      TimesFacts(a[0][f]); TimesFacts(a[1][f]); TimesFacts(a[2][f]);
    }
    MatrixEqual(Product(IDENTITY, a), a);
  }

  // ---------- Determinants ----------

  function Cross(a: real, b: real, c: real, d: real): real { a * d - b * c }

  /** The determinant of the 2x2 part. */
  function Det(m: Matrix): real
    requires IsMatrix(m)
  {
    Cross(m[0][0], m[0][1], m[1][0], m[1][1])
  }

  function Lin(s: real, t: real, x: real, y: real): real { s * x + t * y }

  lemma CrossOfLin(s0: real, t0: real, s1: real, t1: real, x0: real, x1: real, y0: real, y1: real)
    ensures Cross(Lin(s0, t0, x0, y0), Lin(s0, t0, x1, y1), Lin(s1, t1, x0, y0), Lin(s1, t1, x1, y1))
         == Times(Cross(s0, t0, s1, t1), Cross(x0, x1, y0, y1))
  {
  }

  lemma LinEntry(b: Matrix, a: Matrix, d: nat, f: nat)
    requires Affine(b) && IsMatrix(a) && d < 2 && f < 3
    ensures Product(b, a)[d][f] == Lin(b[d][0], b[d][1], a[0][f], a[1][f])
  {
    ProductEntry(b, a, d, f);
    TimesFacts(a[2][f]);
  }

  lemma DetProduct(b: Matrix, a: Matrix)
    requires Affine(b) && IsMatrix(a)
    ensures Det(Product(b, a)) == Times(Det(b), Det(a))
  {
    LinEntry(b, a, 0, 0); LinEntry(b, a, 0, 1); LinEntry(b, a, 1, 0); LinEntry(b, a, 1, 1);
    CrossOfLin(b[0][0], b[0][1], b[1][0], b[1][1], a[0][0], a[0][1], a[1][0], a[1][1]);
  }

  /** A root of the scaling a matrix applies to areas, as Math.sqrt returns it. */
  ghost predicate IsLineScale(m: Matrix, root: real) {
    IsMatrix(m) && root >= 0.0 && root * root == Abs(Det(m))
  }

  // ---------- Points ----------

  /** Where getCoords_ puts a point: ten subpixels a pixel, shifted by half of one. */
  function Coords(m: Matrix, x: real, y: real): (real, real)
    requires IsMatrix(m)
  {
    (10.0 * (Times(x, m[0][0]) + Times(y, m[1][0]) + m[2][0]) - 5.0,
     10.0 * (Times(x, m[0][1]) + Times(y, m[1][1]) + m[2][1]) - 5.0)
  }

  function Applied(t: Matrix, x: real, y: real): (real, real)
    requires IsMatrix(t)
  {
    (Times(x, t[0][0]) + Times(y, t[1][0]) + t[2][0], Times(x, t[0][1]) + Times(y, t[1][1]) + t[2][1])
  }

  /** A transformation put before the matrix moves the point before the matrix does. */
  lemma CoordsCompose(t: Matrix, m: Matrix, x: real, y: real)
    requires Affine(t) && IsMatrix(m)
    ensures Coords(Product(t, m), x, y) == Coords(m, Applied(t, x, y).0, Applied(t, x, y).1)
  {
    CoordCompose(t, m, x, y, 0);
    CoordCompose(t, m, x, y, 1);
  }

  lemma CoordCompose(t: Matrix, m: Matrix, x: real, y: real, f: nat)
    requires Affine(t) && IsMatrix(m) && f < 2
    ensures Times(x, Product(t, m)[0][f]) + Times(y, Product(t, m)[1][f]) + Product(t, m)[2][f]
         == Times(Applied(t, x, y).0, m[0][f]) + Times(Applied(t, x, y).1, m[1][f]) + m[2][f]
  {
    LinEntry(t, m, 0, f); LinEntry(t, m, 1, f);
    ProductEntry(t, m, 2, f);
    TimesFacts(m[2][f]);
    Distribute(x, y, t[0][0], t[0][1], t[1][0], t[1][1], t[2][0], t[2][1], m[0][f], m[1][f]);
  }

  lemma Distribute(x: real, y: real, a: real, b: real, c: real, d: real, e: real, g: real, p: real, q: real)
    ensures Times(x, Lin(a, b, p, q)) + Times(y, Lin(c, d, p, q)) + Times(e, p) + Times(g, q)
         == Times(Times(x, a) + Times(y, c) + e, p) + Times(Times(x, b) + Times(y, d) + g, q)
  {
  }

  // ---------- The graphics state ----------

  datatype Style = Style(fillStyle: string, strokeStyle: string, lineCap: string, lineJoin: string,
                         lineWidth: real, miterLimit: real, globalAlpha: real, shadowBlur: real,
                         shadowColor: string, shadowOffsetX: real, shadowOffsetY: real)

  /** What save copies beside the matrix. */
  datatype Attributes = Attributes(style: Style, arcScaleX: real, arcScaleY: real, lineScale: real)

  datatype State = State(m: Matrix, attributes: Attributes, mStack: seq<Matrix>, aStack: seq<Attributes>)

  /** The calls that change the state; `root` is what Math.sqrt returned, c and s
      are the cosine and the sine of the angle. */
  datatype Op =
    | Save
    | Restore
    | Translate(x: real, y: real)
    | Rotate(c: real, s: real)
    | Scale(x: real, y: real, root: real)
    | Transform(t: Matrix, root: real)
    | SetTransform(t: Matrix, root: real)
    | SetStyle(style: Style)

  function Translation(x: real, y: real): Matrix { [[1.0, 0.0, 0.0], [0.0, 1.0, 0.0], [x, y, 1.0]] }

  function Rotation(c: real, s: real): Matrix { [[c, s, 0.0], [-s, c, 0.0], [0.0, 0.0, 1.0]] }

  function Scaling(x: real, y: real): Matrix { [[x, 0.0, 0.0], [0.0, y, 0.0], [0.0, 0.0, 1.0]] }

  /** The cached scale goes with the matrix, now and on the stack. */
  ghost predicate Good(s: State) {
    && Affine(s.m) && IsLineScale(s.m, s.attributes.lineScale)
    && |s.mStack| == |s.aStack|
    && forall i :: 0 <= i < |s.mStack| ==> Affine(s.mStack[i]) && IsLineScale(s.mStack[i], s.aStack[i].lineScale)
  }

  /** What the foreign functions are known to return. */
  ghost predicate Legal(s: State, op: Op)
    requires IsMatrix(s.m)
  {
    match op
    case Rotate(c, s) => c * c + s * s == 1.0
    case Scale(x, y, root) => IsLineScale(Product(Scaling(x, y), s.m), root)
    case Transform(t, root) => Affine(t) && IsLineScale(Product(t, s.m), root)
    case SetTransform(t, root) => Affine(t) && IsLineScale(t, root)
    case _ => true
  }

  ghost function Step(s: State, op: Op): (r: State)
    requires Good(s) && Legal(s, op)
    ensures Good(r)
  {
    match op
    case Save =>
      IdentityLeft(s.m);
      State(Product(IDENTITY, s.m), s.attributes, s.mStack + [s.m], s.aStack + [s.attributes])
    case Restore =>
      if s.mStack == [] then s
      else
        var n := |s.mStack| - 1;
        State(s.mStack[n], s.aStack[n], s.mStack[..n], s.aStack[..n])
    case Translate(x, y) =>
      TranslationKeepsScale(s.m, x, y);
      s.(m := Product(Translation(x, y), s.m))
    case Rotate(c, t) =>
      RotationKeepsScale(s.m, c, t);
      s.(m := Product(Rotation(c, t), s.m))
    case Scale(x, y, root) =>
      ProductAffine(Scaling(x, y), s.m);
      State(Product(Scaling(x, y), s.m),
            Attributes(s.attributes.style, Times(s.attributes.arcScaleX, x), Times(s.attributes.arcScaleY, y), root),
            s.mStack, s.aStack)
    case Transform(t, root) =>
      ProductAffine(t, s.m);
      s.(m := Product(t, s.m), attributes := s.attributes.(lineScale := root))
    case SetTransform(t, root) => s.(m := t, attributes := s.attributes.(lineScale := root))
    case SetStyle(style) => s.(attributes := s.attributes.(style := style))
  }

  /** Moving keeps the scale of areas, so the cached line scale stays right. */
  lemma TranslationKeepsScale(m: Matrix, x: real, y: real)
    requires Affine(m)
    ensures Affine(Product(Translation(x, y), m)) && Det(Product(Translation(x, y), m)) == Det(m)
  {
    ProductAffine(Translation(x, y), m);
    DetProduct(Translation(x, y), m);
    assert Cross(1.0, 0.0, 0.0, 1.0) == 1.0;
    TimesFacts(Det(m));
  }

  /** So does turning, because the squares of cosine and sine add up to one. */
  lemma RotationKeepsScale(m: Matrix, c: real, s: real)
    requires Affine(m) && c * c + s * s == 1.0
    ensures Affine(Product(Rotation(c, s), m)) && Det(Product(Rotation(c, s), m)) == Det(m)
  {
    ProductAffine(Rotation(c, s), m);
    DetProduct(Rotation(c, s), m);
    UnitCross(c, s);
    TimesFacts(Det(m));
  }

  lemma UnitCross(c: real, s: real)
    requires c * c + s * s == 1.0
    ensures Cross(c, s, -s, c) == 1.0
  {
  }

  // ---------- What the operations do to points ----------

  /** Without transformation a pixel is ten subpixels wide, and its middle is meant. */
  lemma IdentityPoint(p: real, q: real)
    ensures Coords(IDENTITY, p, q) == (10.0 * p - 5.0, 10.0 * q - 5.0)
  {
    TimesFacts(p);
    TimesFacts(q);
  }

  /** Drawing after a translation is drawing at the moved point before it. */
  lemma TranslatedPoint(s: State, x: real, y: real, p: real, q: real)
    requires Good(s)
    ensures Coords(Step(s, Translate(x, y)).m, p, q) == Coords(s.m, p + x, q + y)
  {
    CoordsCompose(Translation(x, y), s.m, p, q);
    TimesFacts(p);
    TimesFacts(q);
  }

  /** Turning takes the x axis towards the y axis. */
  lemma RotatedPoint(s: State, c: real, t: real, p: real, q: real)
    requires Good(s) && c * c + t * t == 1.0
    ensures Coords(Step(s, Rotate(c, t)).m, p, q) == Coords(s.m, p * c - q * t, p * t + q * c)
  {
    CoordsCompose(Rotation(c, t), s.m, p, q);
    RotatedBy(c, t, p, q);
  }

  lemma RotatedBy(c: real, t: real, p: real, q: real)
    ensures Applied(Rotation(c, t), p, q).0 == p * c - q * t
    ensures Applied(Rotation(c, t), p, q).1 == p * t + q * c
  {
    assert q * -t == -(q * t);
  }

  lemma ScaledPoint(s: State, x: real, y: real, root: real, p: real, q: real)
    requires Good(s) && Legal(s, Scale(x, y, root))
    ensures Coords(Step(s, Scale(x, y, root)).m, p, q) == Coords(s.m, p * x, q * y)
  {
    ProductAffine(Scaling(x, y), s.m);
    CoordsCompose(Scaling(x, y), s.m, p, q);
    ScaledBy(x, y, p, q);
  }

  lemma ScaledBy(x: real, y: real, p: real, q: real)
    ensures Applied(Scaling(x, y), p, q).0 == p * x
    ensures Applied(Scaling(x, y), p, q).1 == q * y
  {
    TimesFacts(p);
    TimesFacts(q);
  }

  /** A general transformation is put before the present one; setting replaces it. */
  lemma TransformedPoint(s: State, t: Matrix, root: real, p: real, q: real)
    requires Good(s) && Affine(t)
    ensures Legal(s, Transform(t, root)) ==>
              Coords(Step(s, Transform(t, root)).m, p, q)
              == Coords(s.m, p * t[0][0] + q * t[1][0] + t[2][0], p * t[0][1] + q * t[1][1] + t[2][1])
    ensures Legal(s, SetTransform(t, root)) ==>
              Coords(Step(s, SetTransform(t, root)).m, p, q)
              == (10.0 * (p * t[0][0] + q * t[1][0] + t[2][0]) - 5.0, 10.0 * (p * t[0][1] + q * t[1][1] + t[2][1]) - 5.0)
  {
    CoordsCompose(t, s.m, p, q);
  }

  /** Beside the matrix, transformations change the cached line scale only, and scaling
      the factors for arcs; the stacks and the style stay. */
  lemma AttributesKept(s: State, op: Op)
    requires Good(s) && Legal(s, op) && !op.Save? && !op.Restore? && !op.SetStyle?
    ensures var r := Step(s, op);
            && r.mStack == s.mStack && r.aStack == s.aStack && r.attributes.style == s.attributes.style
            && r.attributes.arcScaleX == (if op.Scale? then s.attributes.arcScaleX * op.x else s.attributes.arcScaleX)
            && r.attributes.arcScaleY == (if op.Scale? then s.attributes.arcScaleY * op.y else s.attributes.arcScaleY)
            && (op.Translate? || op.Rotate? ==> r.attributes.lineScale == s.attributes.lineScale)
  {
  }

  /** Only saving and restoring touch the stacks, at their ends. */
  lemma StacksStep(s: State, op: Op)
    requires Good(s) && Legal(s, op)
    ensures var r := Step(s, op);
            && (op.Save? ==> r.mStack == s.mStack + [s.m] && r.aStack == s.aStack + [s.attributes]
                             && r.m == s.m && r.attributes == s.attributes)
            && (op.Restore? && s.mStack != [] ==> r.mStack + [r.m] == s.mStack && r.aStack + [r.attributes] == s.aStack)
            && (op.SetStyle? ==> r == s.(attributes := s.attributes.(style := op.style)))
  {
    IdentityLeft(s.m);
  }

  // ---------- Whole runs ----------

  ghost predicate LegalRun(s: State, ops: seq<Op>)
    requires Good(s)
    decreases |ops|
  {
    ops == [] || (Legal(s, ops[0]) && LegalRun(Step(s, ops[0]), ops[1..]))
  }

  ghost function Run(s: State, ops: seq<Op>): (r: State)
    requires Good(s) && LegalRun(s, ops)
    ensures Good(r)
    decreases |ops|
  {
    if ops == [] then s else Run(Step(s, ops[0]), ops[1..])
  }

  /** Starting with d saves still open, each restore has a save to undo, and all
      are undone at the end. */
  predicate Balanced(ops: seq<Op>, d: nat) {
    if ops == [] then d == 0
    else if ops[0].Save? then Balanced(ops[1..], d + 1)
    else if ops[0].Restore? then d > 0 && Balanced(ops[1..], d - 1)
    else Balanced(ops[1..], d)
  }

  /** A balanced run leaves alone what was on the stacks before it. */
  lemma {:induction false} BalancedKeepsStacks(s: State, ops: seq<Op>, d: nat)
    requires Good(s) && LegalRun(s, ops) && Balanced(ops, d) && d <= |s.mStack|
    ensures Run(s, ops).mStack == s.mStack[..|s.mStack|-d]
    ensures Run(s, ops).aStack == s.aStack[..|s.aStack|-d]
    decreases |ops|
  {
    if ops != [] {
      var next := Step(s, ops[0]);
      var d' := if ops[0].Save? then d + 1 else if ops[0].Restore? then d - 1 else d;
      BalancedKeepsStacks(next, ops[1..], d');
      var n := |s.mStack| - d;
      assert next.mStack[..n] == s.mStack[..n] && next.aStack[..n] == s.aStack[..n];
    } else {
      assert s.mStack[..|s.mStack|] == s.mStack && s.aStack[..|s.aStack|] == s.aStack;
    }
  }

  /** Save, any balanced run, restore: the whole state is as before. */
  lemma SaveRestoreInverse(s: State, ops: seq<Op>)
    requires Good(s) && LegalRun(Step(s, Save), ops) && Balanced(ops, 0)
    ensures Step(Run(Step(s, Save), ops), Restore) == s
  {
    IdentityLeft(s.m);
    var saved := Step(s, Save);
    BalancedKeepsStacks(saved, ops, 0);
    var n := |s.mStack|;
    assert saved.mStack[..n+1] == saved.mStack && saved.aStack[..n+1] == saved.aStack;
    assert saved.mStack[..n] == s.mStack && saved.aStack[..n] == s.aStack;
  }

  /** Moving or turning back undoes the move or the turn. */
  lemma OppositesUndo(s: State, x: real, y: real, c: real, t: real)
    requires Good(s) && c * c + t * t == 1.0
    ensures Step(Step(s, Translate(x, y)), Translate(-x, -y)) == s
    ensures c * c + (-t) * (-t) == 1.0
    ensures Step(Step(s, Rotate(c, t)), Rotate(c, -t)) == s
  {
    var moved, turned := Product(Translation(x, y), s.m), Product(Rotation(c, t), s.m);
    assert c * c + (-t) * (-t) == 1.0;
    forall d, f | 0 <= d < 3 && 0 <= f < 3
      ensures Product(Translation(-x, -y), moved)[d][f] == s.m[d][f]
      ensures Product(Rotation(c, -t), turned)[d][f] == s.m[d][f]
    {
      MoveBack(s.m, x, y, f);
      TurnBack(s.m, c, t, f);
    }
    MatrixEqual(Product(Translation(-x, -y), moved), s.m);
    MatrixEqual(Product(Rotation(c, -t), turned), s.m);
  }

  lemma MoveBack(m: Matrix, x: real, y: real, f: nat)
    requires IsMatrix(m) && f < 3
    ensures forall d :: 0 <= d < 3 ==> Product(Translation(-x, -y), Product(Translation(x, y), m))[d][f] == m[d][f]
  {
    var t := Product(Translation(x, y), m);
    ProductEntry(Translation(x, y), m, 0, f); ProductEntry(Translation(x, y), m, 1, f);
    ProductEntry(Translation(x, y), m, 2, f);
    ProductEntry(Translation(-x, -y), t, 0, f); ProductEntry(Translation(-x, -y), t, 1, f);
    ProductEntry(Translation(-x, -y), t, 2, f);
    TimesFacts(m[0][f]); TimesFacts(m[1][f]); TimesFacts(m[2][f]);
    TimesFacts(t[0][f]); TimesFacts(t[1][f]); TimesFacts(t[2][f]);
    Negate(x, m[0][f]); Negate(y, m[1][f]);
  }

  lemma TurnBack(m: Matrix, c: real, s: real, f: nat)
    requires IsMatrix(m) && f < 3 && c * c + s * s == 1.0
    ensures forall d :: 0 <= d < 3 ==> Product(Rotation(c, -s), Product(Rotation(c, s), m))[d][f] == m[d][f]
  {
    var r, b := Product(Rotation(c, s), m), Rotation(c, -s);
    LinEntry(Rotation(c, s), m, 0, f); LinEntry(Rotation(c, s), m, 1, f); ProductEntry(Rotation(c, s), m, 2, f);
    LinEntry(b, r, 0, f); LinEntry(b, r, 1, f); ProductEntry(b, r, 2, f);
    TimesFacts(m[0][f]); TimesFacts(m[1][f]); TimesFacts(m[2][f]);
    TimesFacts(r[0][f]); TimesFacts(r[1][f]); TimesFacts(r[2][f]);
    TurnTwice(c, s, m[0][f], m[1][f]);
    assert -(-s) == s;
  }

  lemma TurnTwice(c: real, s: real, p: real, q: real)
    requires c * c + s * s == 1.0
    ensures Lin(c, -s, Lin(c, s, p, q), Lin(-s, c, p, q)) == p
    ensures Lin(s, c, Lin(c, s, p, q), Lin(-s, c, p, q)) == q
  {
    var u := c * c + s * s;
    assert Lin(c, -s, Lin(c, s, p, q), Lin(-s, c, p, q)) == u * p;
    assert Lin(s, c, Lin(c, s, p, q), Lin(-s, c, p, q)) == u * q;
  }

  // ---------- The context object ----------

  class Context {
    var m: Matrix
    var mStack: seq<Matrix>
    var aStack: seq<Attributes>
    var style: Style
    var arcScaleX: real
    var arcScaleY: real
    var lineScale: real

    ghost function Now(): State
      reads this
    {
      State(m, Attributes(style, arcScaleX, arcScaleY, lineScale), mStack, aStack)
    }

    constructor ()
      ensures Good(Now()) && m == IDENTITY && mStack == [] && aStack == []
      ensures arcScaleX == arcScaleY == lineScale == 1.0
    {
      m, mStack, aStack := IDENTITY, [], [];
      style := Style("#000", "#000", "butt", "miter", 1.0, 10.0, 1.0, 0.0, "", 0.0, 0.0);
      arcScaleX, arcScaleY, lineScale := 1.0, 1.0, 1.0;
      assert Cross(1.0, 0.0, 0.0, 1.0) == 1.0;
    }

    method DoSave()
      requires Good(Now())
      modifies this
      ensures Now() == Step(old(Now()), Save)
    {
      aStack := aStack + [Attributes(style, arcScaleX, arcScaleY, lineScale)];
      mStack := mStack + [m];
      m := Multiply(IDENTITY, m);
    }

    /** On an empty stack the call fails before anything is changed. */
    method DoRestore() returns (ok: bool)
      requires Good(Now())
      modifies this
      ensures ok <==> old(mStack) != []
      ensures Now() == Step(old(Now()), Restore)
    {
      if aStack == [] { return false; }
      var n := |aStack| - 1;
      var saved := aStack[n];
      aStack := aStack[..n];
      style, arcScaleX, arcScaleY, lineScale := saved.style, saved.arcScaleX, saved.arcScaleY, saved.lineScale;
      m := mStack[n];
      mStack := mStack[..n];
      return true;
    }

    method DoTranslate(x: real, y: real)
      requires Good(Now())
      modifies this
      ensures Now() == Step(old(Now()), Translate(x, y))
    {
      m := Multiply(Translation(x, y), m);
    }

    method DoRotate(c: real, s: real)
      requires Good(Now()) && c * c + s * s == 1.0
      modifies this
      ensures Now() == Step(old(Now()), Rotate(c, s))
    {
      m := Multiply(Rotation(c, s), m);
    }

    method DoScale(x: real, y: real, root: real)
      requires Good(Now()) && Legal(Now(), Scale(x, y, root))
      modifies this
      ensures Now() == Step(old(Now()), Scale(x, y, root))
    {
      arcScaleX, arcScaleY := Times(arcScaleX, x), Times(arcScaleY, y);
      m := Multiply(Scaling(x, y), m);
      lineScale := root;
    }

    method DoTransform(t: Matrix, root: real)
      requires Good(Now()) && Legal(Now(), Transform(t, root))
      modifies this
      ensures Now() == Step(old(Now()), Transform(t, root))
    {
      m := Multiply(t, m);
      lineScale := root;
    }

    method DoSetTransform(t: Matrix, root: real)
      requires Good(Now()) && Legal(Now(), SetTransform(t, root))
      modifies this
      ensures Now() == Step(old(Now()), SetTransform(t, root))
    {
      m := t;
      lineScale := root;
    }
  }
}
