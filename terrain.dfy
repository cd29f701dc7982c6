/// Terrain of a world (src/world.cpp, World::generate and World::addHole):
/// one Column per HLINE-wide strip, with heights laid down by an
/// anchor-and-interpolate sweep driven by the random number generator.
///
/// World::generate works in two loops. The first gives every
/// GROUND_HILLINESS-th column (an anchor) the previous anchor's height plus
/// a random step in -4..3; every other column keeps height 0. The second
/// loop visits the columns left to right: a column with a non-zero height
/// sets the slope towards the next anchor, a zero column takes the previous
/// (already clamped) column plus that slope, and every column then gets a
/// random colour and grass heights and is clamped into
/// [GROUND_HEIGHT_MINIMUM, GROUND_HEIGHT_MAXIMUM].
///
/// The random generator is the stream `rand`: rand(k) is the value of the
/// k-th call to rand() made by the operation.

module Terrain {
  import opened Common

  type PosReal = r: real | 0.0 < r witness 1.0

  /** GROUND_HILLINESS: columns between two anchors. */
  const GroundHilliness: PosInt
  /** GROUND_HEIGHT_INITIAL: height of the first anchor. */
  const GroundHeightInitial: PosReal
  /** GROUND_HEIGHT_MINIMUM and GROUND_HEIGHT_MAXIMUM: the clamping range. */
  const GroundHeightMinimum: PosReal
  type AtLeastMinimum = r: real | GroundHeightMinimum <= r witness GroundHeightMinimum
  const GroundHeightMaximum: AtLeastMinimum

  /** One WorldData entry. */
  datatype Column = Column(
    grassUnpressed: bool,
    grassHeight0: real,
    grassHeight1: real,
    groundHeight: real,
    groundColor: int)

  /** The value every column holds right after allocation. */
  const Blank := Column(false, 0.0, 0.0, 0.0, 0)

  /** A column as the generation sweep leaves it. */
  predicate Finished(c: Column) {
    && c.grassUnpressed
    && GroundHeightMinimum <= c.groundHeight <= GroundHeightMaximum
    && 0 <= c.groundColor <= 3
    && 2.0 <= c.grassHeight0 <= 7.0
    && 2.0 <= c.grassHeight1 <= 7.0
  }

  // ---------------------------------------------------------------------
  // Division by GROUND_HILLINESS, by repeated subtraction, the way the
  // first loop of generate steps through the columns

  /** How far column j lies past the last anchor at or before it. */
  function Offset(j: nat): (r: nat)
    ensures r < GroundHilliness
  {
    if j < GroundHilliness then j else Offset(j - GroundHilliness)
  }

  /** Index of the last anchor at or before column j. */
  function AnchorIndex(j: nat): nat
  {
    if j < GroundHilliness then 0 else 1 + AnchorIndex(j - GroundHilliness)
  }

  /** Column of the m-th anchor: GROUND_HILLINESS added m times, as the
      first loop steps. */
  function AnchorColumn(m: nat): nat
  {
    if m == 0 then 0 else AnchorColumn(m - 1) + GroundHilliness
  }

  lemma {:induction false} Decompose(j: nat)
    ensures j == AnchorColumn(AnchorIndex(j)) + Offset(j)
  {
    if j >= GroundHilliness {
      Decompose(j - GroundHilliness);
    }
  }

  lemma {:induction false} OffsetFromAnchor(m: nat, t: nat)
    requires t < GroundHilliness
    ensures Offset(AnchorColumn(m) + t) == t
    ensures AnchorIndex(AnchorColumn(m) + t) == m
  {
    if m > 0 {
      OffsetFromAnchor(m - 1, t);
    }
  }

  /** The m-th anchor is column m * GROUND_HILLINESS. */
  lemma {:induction false} AnchorColumnIsProduct(m: nat)
    ensures AnchorColumn(m) == m * GroundHilliness
  {
    if m > 0 {
      AnchorColumnIsProduct(m - 1);
      assert m * GroundHilliness == (m - 1) * GroundHilliness + GroundHilliness;
    }
  }

  /** t columns past an anchor, short of the next, a column is not one. */
  lemma {:induction false} OffsetPastAnchor(a: nat, t: nat)
    requires Offset(a) == 0 && t < GroundHilliness
    ensures Offset(a + t) == t
  {
    if a >= GroundHilliness {
      OffsetPastAnchor(a - GroundHilliness, t);
    }
  }

  lemma MulBound(k: int)
    ensures k >= 1 ==> k * GroundHilliness >= GroundHilliness
    ensures k <= -1 ==> k * GroundHilliness + GroundHilliness <= 0
  {
  }

  /** Offset and AnchorIndex are the remainder and the quotient by
      GROUND_HILLINESS. */
  lemma OffsetIsRemainder(j: nat)
    ensures Offset(j) == j % GroundHilliness
    ensures AnchorIndex(j) == j / GroundHilliness
  {
    Decompose(j);
    AnchorColumnIsProduct(AnchorIndex(j));
    var q, r := AnchorIndex(j), Offset(j);
    var q', r' := j / GroundHilliness, j % GroundHilliness;
    assert j == q' * GroundHilliness + r';
    assert (q - q') * GroundHilliness == r' - r;
    MulBound(q - q');
  }

  // ---------------------------------------------------------------------
  // First loop: the anchors

  /** randGet() % 8 - 4: the step from one anchor to the next. */
  function Step(v: nat): (d: int)
    ensures -4 <= d <= 3
  {
    v % 8 - 4
  }

  /** Height of the m-th anchor (column m * GROUND_HILLINESS); anchor m > 0
      uses the (m-1)-th random value. */
  function AnchorHeight(m: nat, rand: nat -> nat): real
  {
    if m == 0 then GroundHeightInitial else AnchorHeight(m - 1, rand) + Step(rand(m - 1)) as real
  }

  /** The height column j holds after the first loop. */
  function Raw(j: nat, rand: nat -> nat): real
  {
    if Offset(j) == 0 then AnchorHeight(AnchorIndex(j), rand) else 0.0
  }

  /** Number of anchors the first loop writes (and random values it draws)
      in a world of `size` columns: those at GROUND_HILLINESS, twice that,
      and so on, below size. */
  function AnchorCount(size: nat): nat
  {
    if size == 0 then 0 else AnchorIndex(size - 1)
  }

  // ---------------------------------------------------------------------
  // Second loop: slopes, decoration and clamping

  /** geninc as an anchor column sets it: the rise per column towards the
      next anchor. Where the next anchor lies past the last column (the
      source reads past the end of the vector there) the slope is 0. */
  function Slope(j: nat, size: nat, rand: nat -> nat): real
  {
    if j + GroundHilliness < size
    then (Raw(j + GroundHilliness, rand) - Raw(j, rand)) / (GroundHilliness as real)
    else 0.0
  }

  /** The three bound checks at the end of each iteration. */
  function Clamp(h: real): (r: real)
    ensures GroundHeightMinimum <= r <= GroundHeightMaximum
    ensures GroundHeightMinimum <= h <= GroundHeightMaximum ==> r == h
    ensures h < GroundHeightMinimum ==> r == GroundHeightMinimum
    ensures h > GroundHeightMaximum ==> r == GroundHeightMaximum
  {
    var c := if h < GroundHeightMinimum then GroundHeightMinimum
             else if h > GroundHeightMaximum then GroundHeightMaximum
             else h;
    if c <= 0.0 then GroundHeightMinimum else c
  }

  /** Colour index rand() % 32 / 8 and grass heights (rand() % 16) / 3 + 2. */
  function Decorated(h: real, colour: nat, grass0: nat, grass1: nat): (c: Column)
    ensures GroundHeightMinimum <= h <= GroundHeightMaximum ==> Finished(c)
    ensures c.groundHeight == h
  {
    Column(true, (grass0 % 16 / 3 + 2) as real, (grass1 % 16 / 3 + 2) as real, h, colour % 32 / 8)
  }

  /** State of the second loop: the columns done and the slope geninc. */
  datatype Sweep = Sweep(cols: seq<Column>, geninc: real)

  /** Index of the first random value column j draws. */
  function DrawIndex(size: nat, j: nat): nat
  {
    AnchorCount(size) + 3 * j
  }

  /** The second loop of generate after its first n iterations. */
  function SweepTo(n: nat, size: nat, rand: nat -> nat): (s: Sweep)
    requires n <= size
    ensures |s.cols| == n
    ensures forall i :: 0 <= i < n ==> Finished(s.cols[i])
  {
    if n == 0 then Sweep([], 0.0)
    else
      var prev := SweepTo(n - 1, size, rand);
      var j := n - 1;
      var h := if Raw(j, rand) != 0.0 || j == 0 then Raw(j, rand)
               else prev.cols[j - 1].groundHeight + prev.geninc;
      var g := if Raw(j, rand) != 0.0 || j == 0 then Slope(j, size, rand) else prev.geninc;
      var k := DrawIndex(size, j);
      Sweep(prev.cols + [Decorated(Clamp(h), rand(k), rand(k + 1), rand(k + 2))], g)
  }

  /** The columns World::generate produces for a world of `size` columns. */
  function Generated(size: nat, rand: nat -> nat): seq<Column>
  {
    SweepTo(size, size, rand).cols
  }

  lemma RawZero(rand: nat -> nat)
    ensures Raw(0, rand) == GroundHeightInitial
  {
  }

  /** Every generated column is finished: height within the clamping range,
      colour 0..3, grass heights 2..7, grass unpressed. */
  lemma GeneratedFinished(size: nat, rand: nat -> nat)
    ensures |Generated(size, rand)| == size
    ensures forall i :: 0 <= i < size ==> Finished(Generated(size, rand)[i])
  {
  }

  /** Later iterations of the sweep never rewrite earlier columns. */
  lemma {:induction false} SweepPrefix(n: nat, m: nat, size: nat, rand: nat -> nat)
    requires n <= m <= size
    ensures SweepTo(n, size, rand).cols == SweepTo(m, size, rand).cols[..n]
    decreases m - n
  {
    if n < m {
      SweepPrefix(n, m - 1, size, rand);
      SweepExtends(m, size, rand);
      var full := SweepTo(m, size, rand).cols;
      assert full[..m - 1][..n] == full[..n];
    }
  }

  /** One more iteration of the sweep only appends a column. */
  lemma SweepExtends(m: nat, size: nat, rand: nat -> nat)
    requires 0 < m <= size
    ensures SweepTo(m - 1, size, rand).cols == SweepTo(m, size, rand).cols[..m - 1]
  {
    var prev := SweepTo(m - 1, size, rand);
    var s := SweepTo(m, size, rand);
    assert s.cols == prev.cols + [s.cols[m - 1]];
  }

  /** Iteration j of the sweep, unfolded: h is the height the column
      takes before clamping and g the slope carried on. */
  lemma SweepNext(j: nat, size: nat, rand: nat -> nat, h: real, g: real)
    requires j < size
    requires h == if Raw(j, rand) != 0.0 || j == 0 then Raw(j, rand)
                  else SweepTo(j, size, rand).cols[j - 1].groundHeight + SweepTo(j, size, rand).geninc
    requires g == if Raw(j, rand) != 0.0 || j == 0 then Slope(j, size, rand) else SweepTo(j, size, rand).geninc
    ensures var k := DrawIndex(size, j);
            SweepTo(j + 1, size, rand)
            == Sweep(SweepTo(j, size, rand).cols + [Decorated(Clamp(h), rand(k), rand(k + 1), rand(k + 2))], g)
  {
  }

  /** Column j of the generated terrain is the one iteration j wrote. */
  lemma SweptColumn(size: nat, rand: nat -> nat, j: nat)
    requires j < size
    ensures Generated(size, rand)[j] == SweepTo(j + 1, size, rand).cols[j]
  {
    SweepPrefix(j + 1, size, size, rand);
    var full := SweepTo(size, size, rand).cols;
    assert full[..j + 1][j] == full[j];
  }

  /** An anchor whose height is already within range is kept as it is. */
  lemma AnchorKept(size: nat, rand: nat -> nat, m: nat)
    requires AnchorColumn(m) < size
    requires GroundHeightMinimum <= AnchorHeight(m, rand) <= GroundHeightMaximum
    ensures Generated(size, rand)[AnchorColumn(m)].groundHeight == AnchorHeight(m, rand)
  {
    var j := AnchorColumn(m);
    AnchorSwept(size, rand, m, j);
    SweptColumn(size, rand, j);
  }

  lemma AnchorSwept(size: nat, rand: nat -> nat, m: nat, j: nat)
    requires j == AnchorColumn(m) && j < size
    requires GroundHeightMinimum <= AnchorHeight(m, rand) <= GroundHeightMaximum
    ensures SweepTo(j + 1, size, rand).cols[j].groundHeight == AnchorHeight(m, rand)
  {
    RawAt(m, 0, rand);
    assert Raw(j, rand) == AnchorHeight(m, rand);
    SweepLast(j + 1, size, rand);
  }

  /** The last column and the slope after n iterations of the sweep. */
  lemma SweepLast(n: nat, size: nat, rand: nat -> nat)
    requires 0 < n <= size
    ensures var j := n - 1;
            var prev := SweepTo(j, size, rand);
            var s := SweepTo(n, size, rand);
            if Raw(j, rand) != 0.0 || j == 0 then
              s.cols[j].groundHeight == Clamp(Raw(j, rand)) && s.geninc == Slope(j, size, rand)
            else
              s.cols[j].groundHeight == Clamp(prev.cols[j - 1].groundHeight + prev.geninc)
              && s.geninc == prev.geninc
  {
  }

  /** Column m * GROUND_HILLINESS + t, for t below GROUND_HILLINESS, is the
      m-th anchor when t is 0 and holds 0 after the first loop otherwise. */
  lemma RawAt(m: nat, t: nat, rand: nat -> nat)
    requires t < GroundHilliness
    ensures Raw(AnchorColumn(m) + t, rand) == if t == 0 then AnchorHeight(m, rand) else 0.0
  {
    OffsetFromAnchor(m, t);
  }

  /** The height t columns along a straight line that starts at h and rises
      by inc per column. */
  function Line(h: real, inc: real, t: nat): real
  {
    if t == 0 then h else Line(h, inc, t - 1) + inc
  }

  /** The closed form of a line. */
  lemma {:induction false} LineClosed(h: real, inc: real, t: nat)
    ensures Line(h, inc, t) == h + (t as real) * inc
  {
    if t > 0 {
      LineClosed(h, inc, t - 1);
      assert (t as real) * inc == ((t - 1) as real) * inc + inc;
    }
  }

  /** The line from h1 to h2 over GROUND_HILLINESS columns stays between
      them, so within the clamping range when both ends are. */
  lemma LineWithinRange(h1: real, h2: real, t: nat)
    requires t <= GroundHilliness
    requires GroundHeightMinimum <= h1 <= GroundHeightMaximum
    requires GroundHeightMinimum <= h2 <= GroundHeightMaximum
    ensures GroundHeightMinimum <= Line(h1, (h2 - h1) / (GroundHilliness as real), t) <= GroundHeightMaximum
  {
    var g, tt := GroundHilliness as real, t as real;
    var inc := (h2 - h1) / g;
    assert g * inc == h2 - h1;
    var v := Line(h1, inc, t);
    LineClosed(h1, inc, t);
    assert v - h1 == tt * inc;
    assert h2 - v == (g - tt) * inc;
    ProductSign(tt, inc);
    ProductSign(g - tt, inc);
  }

  lemma ProductSign(x: real, y: real)
    requires 0.0 <= x
    ensures 0.0 <= y ==> 0.0 <= x * y
    ensures y <= 0.0 ==> x * y <= 0.0
  {
  }

  lemma EndOfLine(h1: real, h2: real)
    ensures Line(h1, (h2 - h1) / (GroundHilliness as real), GroundHilliness) == h2
  {
    var g := GroundHilliness as real;
    LineClosed(h1, (h2 - h1) / g, GroundHilliness);
    assert g * ((h2 - h1) / g) == h2 - h1;
  }

  /** Every point of the line from h over GROUND_HILLINESS columns lies
      within the clamping range. */
  predicate LineInRange(h: real, inc: real) {
    forall t: nat {:trigger Line(h, inc, t)} :: t <= GroundHilliness ==>
      GroundHeightMinimum <= Line(h, inc, t) <= GroundHeightMaximum
  }

  /** The line joining two in-range heights stays in range. */
  lemma JoiningLineInRange(h1: real, h2: real)
    requires GroundHeightMinimum <= h1 <= GroundHeightMaximum
    requires GroundHeightMinimum <= h2 <= GroundHeightMaximum
    ensures LineInRange(h1, (h2 - h1) / (GroundHilliness as real))
  {
    var inc := (h2 - h1) / (GroundHilliness as real);
    forall t: nat {:trigger Line(h1, inc, t)} | t <= GroundHilliness
      ensures GroundHeightMinimum <= Line(h1, inc, t) <= GroundHeightMaximum
    {
      LineWithinRange(h1, h2, t);
    }
  }

  /** Column a starts a segment of the sweep: it is an anchor, the next
      anchor lies within the world, the sweep left it at height h with slope
      inc, and the line it starts stays within range. */
  predicate SegmentFrom(size: nat, rand: nat -> nat, a: nat, h: real, inc: real) {
    && a + GroundHilliness < size
    && LineInRange(h, inc)
    && Offset(a) == 0
    && SweepTo(a + 1, size, rand).cols[a].groundHeight == h
    && SweepTo(a + 1, size, rand).geninc == inc
  }

  /** After the sweep has passed column a + t, that column lies on the line
      from h with slope inc, and the slope carried on is inc. */
  predicate OnLine(size: nat, rand: nat -> nat, a: nat, t: nat, h: real, inc: real)
    requires a + t < size
  {
    && SweepTo(a + t + 1, size, rand).cols[a + t].groundHeight == Line(h, inc, t)
    && SweepTo(a + t + 1, size, rand).geninc == inc
  }

  /** From the start of a segment, the sweep follows the segment's line: t
      columns later the height is on the line and the slope is carried on. */
  lemma {:induction false} InterpolatesFrom(size: nat, rand: nat -> nat, a: nat, t: nat, h: real, inc: real)
    requires SegmentFrom(size, rand, a, h, inc) && t < GroundHilliness
    ensures OnLine(size, rand, a, t, h, inc)
    decreases t, 1
  {
    if t == 0 {
      assert Line(h, inc, 0) == h;
    } else {
      InterpolatesOn(size, rand, a, t, h, inc);
    }
  }

  /** The inductive step of InterpolatesFrom, for a column past the anchor. */
  lemma {:induction false} InterpolatesOn(size: nat, rand: nat -> nat, a: nat, t: nat, h: real, inc: real)
    requires SegmentFrom(size, rand, a, h, inc) && 0 < t < GroundHilliness
    ensures OnLine(size, rand, a, t, h, inc)
    decreases t, 0
  {
    InterpolatesFrom(size, rand, a, t - 1, h, inc);
    assert GroundHeightMinimum <= Line(h, inc, t) <= GroundHeightMaximum;
    InterpolationStep(size, rand, a, t, h, inc);
  }

  /** The anchor column itself keeps its in-range height and sets the slope. */
  lemma SegmentStart(size: nat, rand: nat -> nat, a: nat, h: real, inc: real)
    requires a < size && Raw(a, rand) == h && Slope(a, size, rand) == inc
    requires GroundHeightMinimum <= h <= GroundHeightMaximum
    ensures SweepTo(a + 1, size, rand).cols[a].groundHeight == h
    ensures SweepTo(a + 1, size, rand).geninc == inc
  {
    SweepLast(a + 1, size, rand);
  }

  /** One step inside a segment: a column that is not an anchor continues
      the line from the column before it, with the same slope. */
  lemma InterpolationStep(size: nat, rand: nat -> nat, a: nat, t: nat, h: real, inc: real)
    requires 0 < t < GroundHilliness && a + t < size && Offset(a) == 0
    requires GroundHeightMinimum <= Line(h, inc, t) <= GroundHeightMaximum
    requires OnLine(size, rand, a, t - 1, h, inc)
    ensures OnLine(size, rand, a, t, h, inc)
  {
    assert a + (t - 1) + 1 == a + t;
    SweepLast(a + t + 1, size, rand);
    OffsetPastAnchor(a, t);
  }

  /** The rise per column from anchor m to anchor m + 1. */
  function SegmentSlope(m: nat, rand: nat -> nat): real
  {
    (AnchorHeight(m + 1, rand) - AnchorHeight(m, rand)) / (GroundHilliness as real)
  }

  /** What the sweep sees at anchor m (column a): its height, the slope
      towards anchor m + 1, and that it is an anchor. */
  lemma AtAnchor(size: nat, rand: nat -> nat, m: nat, a: nat)
    requires a == AnchorColumn(m) && a + GroundHilliness < size
    ensures Offset(a) == 0
    ensures Raw(a, rand) == AnchorHeight(m, rand)
    ensures Slope(a, size, rand) == SegmentSlope(m, rand)
  {
    AnchorRaw(rand, m, a);
    AnchorSlope(size, rand, m, a);
  }

  lemma AnchorRaw(rand: nat -> nat, m: nat, a: nat)
    requires a == AnchorColumn(m)
    ensures Offset(a) == 0 && Raw(a, rand) == AnchorHeight(m, rand)
  {
    OffsetFromAnchor(m, 0);
    assert a + 0 == a;
  }

  lemma AnchorSlope(size: nat, rand: nat -> nat, m: nat, a: nat)
    requires a == AnchorColumn(m) && a + GroundHilliness < size
    ensures Slope(a, size, rand) == SegmentSlope(m, rand)
  {
    AnchorRaw(rand, m, a);
    AnchorRaw(rand, m + 1, a + GroundHilliness);
  }

  lemma InsideSegment(size: nat, rand: nat -> nat, m: nat, a: nat, t: nat)
    requires a == AnchorColumn(m) && a + GroundHilliness < size
    requires t < GroundHilliness
    requires GroundHeightMinimum <= AnchorHeight(m, rand) <= GroundHeightMaximum
    requires GroundHeightMinimum <= AnchorHeight(m + 1, rand) <= GroundHeightMaximum
    ensures SweepTo(a + t + 1, size, rand).cols[a + t].groundHeight
            == Line(AnchorHeight(m, rand), SegmentSlope(m, rand), t)
  {
    AtAnchor(size, rand, m, a);
    SegmentStart(size, rand, a, AnchorHeight(m, rand), SegmentSlope(m, rand));
    JoiningLineInRange(AnchorHeight(m, rand), AnchorHeight(m + 1, rand));
    InterpolatesFrom(size, rand, a, t, AnchorHeight(m, rand), SegmentSlope(m, rand));
  }

  /** Between two anchors whose heights are both within range, every column
      from the first up to the second lies on the straight line joining
      them. */
  lemma Interpolated(size: nat, rand: nat -> nat, m: nat, t: nat)
    requires AnchorColumn(m) + GroundHilliness < size
    requires t <= GroundHilliness
    requires GroundHeightMinimum <= AnchorHeight(m, rand) <= GroundHeightMaximum
    requires GroundHeightMinimum <= AnchorHeight(m + 1, rand) <= GroundHeightMaximum
    ensures Generated(size, rand)[AnchorColumn(m) + t].groundHeight
            == Line(AnchorHeight(m, rand), SegmentSlope(m, rand), t)
  {
    if t < GroundHilliness {
      InsideSegment(size, rand, m, AnchorColumn(m), t);
      SweptColumn(size, rand, AnchorColumn(m) + t);
    } else {
      SegmentEnd(size, rand, m);
    }
  }

  /** The segment ends exactly on the next anchor. */
  lemma SegmentEnd(size: nat, rand: nat -> nat, m: nat)
    requires AnchorColumn(m) + GroundHilliness < size
    requires GroundHeightMinimum <= AnchorHeight(m + 1, rand) <= GroundHeightMaximum
    ensures Generated(size, rand)[AnchorColumn(m) + GroundHilliness].groundHeight
            == Line(AnchorHeight(m, rand), SegmentSlope(m, rand), GroundHilliness)
  {
    assert AnchorColumn(m) + GroundHilliness == AnchorColumn(m + 1);
    AnchorKept(size, rand, m + 1);
    EndOfLine(AnchorHeight(m, rand), AnchorHeight(m + 1, rand));
  }

  // ---------------------------------------------------------------------
  // worldStart and the world's width

  const Two32: int := 0x1_0000_0000

  /** Reduction to unsigned int. */
  function U32(n: int): (u: int)
    ensures 0 <= u < Two32
  {
    n % Two32
  }

  /** Conversion of an unsigned int to a signed int (two's complement). */
  function I32(u: int): int
    requires 0 <= u < Two32
  {
    if u < 0x8000_0000 then u else u - Two32
  }

  /** (width - GROUND_HILLINESS) * HLINE / 2, computed in unsigned int. */
  function HalfSpan(width: nat): (h: int)
    ensures 0 <= h < 0x8000_0000
  {
    U32(U32(width - GroundHilliness) * Hline) / 2
  }

  /** worldStart = (width - GROUND_HILLINESS) * HLINE / 2 * -1: the product
      with -1 is again unsigned, and the result is stored in a signed int. */
  function WorldStartFor(width: nat): (ws: int)
    ensures ws == -HalfSpan(width)
  {
    var h := HalfSpan(width);
    var u := U32(h * (Two32 - 1));
    NegatedInU32(h);
    I32(u)
  }

  /** Multiplying by -1 as an unsigned int (by 2^32 - 1) gives 2^32 - h. */
  lemma NegatedInU32(h: int)
    requires 0 <= h < 0x8000_0000
    ensures U32(h * (Two32 - 1)) == if h == 0 then 0 else Two32 - h
  {
    if h > 0 {
      assert h * (Two32 - 1) == (h - 1) * Two32 + (Two32 - h);
    }
  }

  /** When width is at least GROUND_HILLINESS and the span fits in an
      unsigned int, worldStart is minus half the span: the world runs from
      worldStart to -worldStart. */
  lemma WorldStartCentres(width: nat)
    requires GroundHilliness <= width
    requires (width - GroundHilliness) * Hline < Two32
    ensures WorldStartFor(width) == -(((width - GroundHilliness) * Hline) / 2)
  {
    var x := width - GroundHilliness;
    SpanAtLeast(x);
    assert U32(x) == x;
    assert U32(x * Hline) == x * Hline;
  }

  lemma SpanAtLeast(x: nat)
    ensures x <= x * Hline
  {
    assert x * Hline == x + x * (Hline - 1);
  }

  /** getTheWidth: worldStart * -2. */
  function TheWidth(worldStart: int): (w: int)
    ensures worldStart <= 0 ==> w >= 0
    ensures w % 2 == 0
  {
    worldStart * -2
  }

  /** The width a generated world reports is its span rounded down to an
      even number. */
  lemma TheWidthOfGenerated(width: nat)
    requires GroundHilliness <= width
    requires (width - GroundHilliness) * Hline < Two32
    ensures var span := (width - GroundHilliness) * Hline;
            span - 1 <= TheWidth(WorldStartFor(width)) <= span
  {
    WorldStartCentres(width);
  }

  // ---------------------------------------------------------------------
  // Holes

  /** The columns after addHole(start, end): heights in [start, end) are 0,
      every other column is kept. */
  function Dug(cols: seq<Column>, start: nat, end: nat): (r: seq<Column>)
    requires end <= |cols|
    ensures |r| == |cols|
  {
    seq(|cols|, i requires 0 <= i < |cols| =>
      if start <= i < end then cols[i].(groundHeight := 0.0) else cols[i])
  }

  /** In finished terrain, a hole's columns are exactly those at height 0,
      and nothing but the height changes. */
  lemma DugExactly(cols: seq<Column>, start: nat, end: nat)
    requires end <= |cols|
    requires forall i :: 0 <= i < |cols| ==> Finished(cols[i])
    ensures forall i :: 0 <= i < |cols| ==>
      (Dug(cols, start, end)[i].groundHeight == 0.0 <==> start <= i < end)
    ensures forall i :: 0 <= i < |cols| ==>
      Dug(cols, start, end)[i].(groundHeight := cols[i].groundHeight) == cols[i]
  {
  }
}
