/** Windowed scalar multiplication on the twisted Edwards curve, over any group law on its points. */
module ScalarMul {
  import opened Modular
  import opened FieldBits

  datatype Point = Point(x: nat, y: nat)

  const IDENTITY := Point(0, 1)

  /** A field modulus, the points of the curve and their addition. */
  datatype Curve = Curve(modulus: nat, on: Point -> bool, add: (Point, Point) -> Point)

  ghost predicate Associates(c: Curve, p: Point, q: Point, s: Point)
  {
    c.add(c.add(p, q), s) == c.add(p, c.add(q, s))
  }

  /** Addition is a group law on the curve points, whose coordinates are canonical residues; inverses are not needed. */
  ghost predicate IsGroupLaw(c: Curve)
  {
    && c.on(IDENTITY)
    && (forall p {:trigger c.on(p)} :: c.on(p) ==> p.x < c.modulus && p.y < c.modulus)
    && (forall p, q {:trigger c.on(c.add(p, q))} :: c.on(p) && c.on(q) ==> c.on(c.add(p, q)))
    && (forall p {:trigger c.add(p, IDENTITY)} :: c.on(p) ==> c.add(p, IDENTITY) == p)
    && (forall p {:trigger c.add(IDENTITY, p)} :: c.on(p) ==> c.add(IDENTITY, p) == p)
    && (forall p, q, s {:trigger Associates(c, p, q, s)} :: c.on(p) && c.on(q) && c.on(s) ==> Associates(c, p, q, s))
  }

  /** The n-fold sum of a point. */
  function Times(c: Curve, n: nat, p: Point): Point
  {
    if n == 0 then IDENTITY else c.add(Times(c, n - 1, p), p)
  }

  lemma {:induction false} TimesOn(c: Curve, n: nat, p: Point)
    requires IsGroupLaw(c) && c.on(p)
    ensures c.on(Times(c, n, p))
  {
    if n > 0 {
      TimesOn(c, n - 1, p);
    }
  }

  lemma {:induction false} TimesAdd(c: Curve, m: nat, n: nat, p: Point)
    requires IsGroupLaw(c) && c.on(p)
    ensures c.add(Times(c, m, p), Times(c, n, p)) == Times(c, m + n, p)
  {
    TimesOn(c, m, p);
    if n > 0 {
      TimesOn(c, n - 1, p);
      TimesAdd(c, m, n - 1, p);
      assert Associates(c, Times(c, m, p), Times(c, n - 1, p), p);
    }
  }

  // ----- Windows -----

  /** Coordinate-wise four-way selection. */
  function SelectPoint(r: nat, s0: nat, s1: nat, w: seq<Point>): Point
    requires r > 0 && |w| == 4
  {
    Point(Mux2(r, s0, s1, w[0].x, w[1].x, w[2].x, w[3].x), Mux2(r, s0, s1, w[0].y, w[1].y, w[2].y, w[3].y))
  }

  /** The table holds the first four multiples. */
  ghost predicate IsWindow(c: Curve, p: Point, w: seq<Point>)
  {
    |w| == 4 && forall i :: 0 <= i < 4 ==> w[i] == Times(c, i, p)
  }

  lemma SelectsMultiple(c: Curve, p: Point, w: seq<Point>, s0: nat, s1: nat)
    requires IsGroupLaw(c) && c.on(p) && IsWindow(c, p, w) && s0 <= 1 && s1 <= 1
    ensures c.modulus > 0 && SelectPoint(c.modulus, s0, s1, w) == Times(c, s0 + 2 * s1, p)
  {
    forall i | 0 <= i < 4
      ensures w[i].x < c.modulus && w[i].y < c.modulus
    {
      TimesOn(c, i, p);
    }
    Mux2Selects(c.modulus, s0, s1, [w[0].x, w[1].x, w[2].x, w[3].x]);
    Mux2Selects(c.modulus, s0, s1, [w[0].y, w[1].y, w[2].y, w[3].y]);
  }

  method Window(c: Curve, p: Point) returns (w: seq<Point>)
    requires IsGroupLaw(c) && c.on(p)
    ensures IsWindow(c, p, w)
  {
    var w2 := c.add(p, p);
    var w3 := c.add(p, w2);
    w := [IDENTITY, p, w2, w3];
    TimesOne(c, p);
    TimesAdd(c, 1, 1, p);
    TimesAdd(c, 1, 2, p);
  }

  lemma TimesOne(c: Curve, p: Point)
    requires IsGroupLaw(c) && c.on(p)
    ensures Times(c, 1, p) == p
  {
    assert Times(c, 1, p) == c.add(Times(c, 0, p), p);
  }

  /** Two doublings and one addition append a two-bit digit to the multiple. */
  method AppendDigit(c: Curve, p: Point, w: seq<Point>, acc: Point, ghost n: nat, s0: nat, s1: nat) returns (r: Point)
    requires IsGroupLaw(c) && c.on(p) && IsWindow(c, p, w) && s0 <= 1 && s1 <= 1 && acc == Times(c, n, p)
    ensures r == Times(c, 4 * n + s0 + 2 * s1, p)
  {
    SelectsMultiple(c, p, w, s0, s1);
    TimesAdd(c, n, n, p);
    TimesAdd(c, 2 * n, 2 * n, p);
    TimesAdd(c, 4 * n, s0 + 2 * s1, p);
    var twice := c.add(acc, acc);
    var fourTimes := c.add(twice, twice);
    var digit := SelectPoint(c.modulus, s0, s1, w);
    r := c.add(fourTimes, digit);
  }

  /** Shifting out two bits. */
  lemma TwoBits(x: nat, i: nat)
    ensures Shr(x, i) == 4 * Shr(x, i + 2) + BitAt(x, i) + 2 * BitAt(x, i + 1)
  {
    assert Shr(x, i + 1) == Shr(x, i) / 2 && Shr(x, i + 2) == Shr(x, i + 1) / 2;
  }

  lemma ShlTwo(m: nat, i: nat)
    ensures Shl(m, i + 2) == 4 * Shl(m, i)
  {
    assert Shl(m, i + 2) == 2 * Shl(m, i + 1);
  }

  /** The window loop: append the low `top` bits of x, two at a time from the top, to a multiple. */
  method AppendBits(c: Curve, p: Point, w: seq<Point>, start: Point, ghost m: nat, ghost x: nat, bits: seq<nat>,
                    top: nat)
    returns (acc: Point)
    requires IsGroupLaw(c) && c.on(p) && IsWindow(c, p, w) && top % 2 == 0
    requires |bits| >= top && forall i :: 0 <= i < top ==> bits[i] == BitAt(x, i)
    requires start == Times(c, m + Shr(x, top), p)
    ensures acc == Times(c, Shl(m, top) + x, p)
  {
    acc := start;
    var i := top;
    while i > 0
      invariant 0 <= i <= top && i % 2 == 0
      invariant acc == Times(c, Shl(m, top - i) + Shr(x, i), p)
    {
      i := i - 2;
      TwoBits(x, i);
      ShlTwo(m, top - i - 2);
      acc := AppendDigit(c, p, w, acc, Shl(m, top - i - 2) + Shr(x, i + 2), bits[i], bits[i + 1]);
    }
  }

  /** The table entry of the top two bits is the multiple by what they spell. */
  lemma TopDigit(c: Curve, p: Point, w: seq<Point>, x: nat, top: nat)
    requires IsGroupLaw(c) && c.on(p) && IsWindow(c, p, w) && Shr(x, top + 2) == 0
    ensures c.modulus > 0
    ensures SelectPoint(c.modulus, BitAt(x, top), BitAt(x, top + 1), w) == Times(c, Shr(x, top), p)
  {
    SelectsMultiple(c, p, w, BitAt(x, top), BitAt(x, top + 1));
    TwoBits(x, top);
  }

  lemma {:induction false} ShlZero(i: nat)
    ensures Shl(0, i) == 0
  {
    if i > 0 {
      ShlZero(i - 1);
    }
  }

  /** The top digit comes straight from the table, the rest from the window loop. */
  method MultiplyByBits(c: Curve, p: Point, w: seq<Point>, ghost x: nat, bits: seq<nat>, top: nat) returns (acc: Point)
    requires IsGroupLaw(c) && c.on(p) && IsWindow(c, p, w) && |bits| == top + 2 && top % 2 == 0
    requires forall i :: 0 <= i < |bits| ==> bits[i] == BitAt(x, i)
    requires Shr(x, top + 2) == 0
    ensures acc == Times(c, x, p)
  {
    TopDigit(c, p, w, x, top);
    ShlZero(top);
    var digit := SelectPoint(c.modulus, bits[top], bits[top + 1], w);
    acc := AppendBits(c, p, w, digit, 0, x, bits, top);
  }

  /** The multiple by a scalar below 2^width; the scalar field's width is 254. */
  method ScalarMultiply(c: Curve, p: Point, x: nat, width: nat) returns (acc: Point)
    requires IsGroupLaw(c) && c.on(p) && width >= 2 && width % 2 == 0 && x < Exp2(width)
    ensures acc == Times(c, x, p)
  {
    var w := Window(c, p);
    ShrAll(x, width);
    acc := MultiplyByBits(c, p, w, x, Bits(x, width), width - 2);
  }

  /** The multiple by the number whose high half is x2 and low half is x1. */
  method ScalarMultiplyExtend(c: Curve, p: Point, x1: nat, x2: nat, width: nat) returns (acc: Point)
    requires IsGroupLaw(c) && c.on(p) && width >= 2 && width % 2 == 0 && x1 < Exp2(width) && x2 < Exp2(width)
    ensures acc == Times(c, x2 * Exp2(width) + x1, p)
  {
    var w := Window(c, p);
    ShrAll(x2, width);
    var high := MultiplyByBits(c, p, w, x2, Bits(x2, width), width - 2);
    ShrAll(x1, width);
    acc := AppendBits(c, p, w, high, x2, x1, Bits(x1, width), width);
    ShlIsTimes(x2, width);
  }
}
