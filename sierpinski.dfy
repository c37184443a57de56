/**
 * `make_image` of the Sierpinski-triangle plotter: three fixed corners
 * derived from the canvas size, a black canvas, the corners painted white,
 * then a chaos-game walk that paints its cursor and moves it to the floor
 * midpoint between itself and a randomly chosen corner.
 *
 * The random choices are an input sequence, so the walk is a function of
 * `(width, height, choices)`. `Writes` lists every pixel write in order;
 * `MakeImage` is proved to produce exactly the canvas those writes give.
 */
module Sierpinski {
  import opened Image

  /** Below this side length a corner lands on column `width` or row `height`. */
  const MinSide: u32 := 10

  /** Up to this side length the u32 sum in the cursor update cannot overflow. */
  const MaxSide: u32 := 0x8000_0000

  datatype Point = Point(x: u32, y: u32)

  /** An index into the three corners, as drawn by `gen_range(0..=2)`. */
  type Choice = n: nat | n < 3

  predicate InCanvas(p: Point, width: u32, height: u32)
  {
    p.x < width && p.y < height
  }

  /** An axis-aligned box; all four bounds are inclusive. */
  datatype Box = Box(left: u32, top: u32, right: u32, bottom: u32)

  predicate InBox(p: Point, b: Box)
  {
    b.left <= p.x <= b.right && b.top <= p.y <= b.bottom
  }

  // ---------------------------------------------------------------------
  // Geometry of one run
  // ---------------------------------------------------------------------

  /**
   * The `positions` array: bottom-left, bottom-right and top corner,
   * computed with u32 division.
   */
  function Corners(width: u32, height: u32): (r: seq<Point>)
    ensures |r| == 3
    // the two bottom corners share a row, and the top corner is not below it
    ensures r[0].y == r[1].y && r[2].y <= r[0].y
    // the bottom corners mirror each other about the line x = width/2; the top corner is at column floor(width/2)
    ensures r[0].x as int + r[1].x as int == width as int && r[2].x == width / 2
    ensures r[0].x <= r[2].x <= r[1].x
  {
    [Point(width / 10, height - height / 10),
     Point(width - width / 10, height - height / 10),
     Point(width / 2, height / 10)]
  }

  /** The smallest box that holds the three corners. */
  function CornerBox(width: u32, height: u32): (b: Box)
    ensures forall k :: 0 <= k < 3 ==> InBox(Corners(width, height)[k], b)
    ensures b.left == Corners(width, height)[0].x && b.right == Corners(width, height)[1].x
    ensures b.top == Corners(width, height)[2].y && b.bottom == Corners(width, height)[0].y
  {
    Box(width / 10, height / 10, width - width / 10, height - height / 10)
  }

  /**
   * The initial cursor `(width / 2, height / 2 - 1)`; the subtraction is a
   * u32 one, so the height must be at least 2.
   */
  function Start(width: u32, height: u32): (p: Point)
    requires 2 <= height
    ensures 1 <= width ==> InCanvas(p, width, height)
    // the box spanned by the start and the corners is the corners' own box
    ensures InBox(p, CornerBox(width, height))
  {
    Point(width / 2, height / 2 - 1)
  }

  /** The u32 floor midpoint of two points, as in the cursor update. */
  function Midpoint(p: Point, q: Point): (m: Point)
    requires p.x as int + q.x as int < 0x1_0000_0000
    requires p.y as int + q.y as int < 0x1_0000_0000
    ensures forall b :: InBox(p, b) && InBox(q, b) ==> InBox(m, b)
  {
    Point((p.x + q.x) / 2, (p.y + q.y) / 2)
  }

  /**
   * The cursor after `n` steps of the walk driven by `choices`. It never
   * leaves the corners' box, which also keeps every u32 sum in range.
   */
  function Cursor(width: u32, height: u32, choices: seq<Choice>, n: nat): (c: Point)
    requires 2 <= height && width <= MaxSide && height <= MaxSide
    requires n <= |choices|
    ensures InBox(c, CornerBox(width, height))
    decreases n
  {
    if n == 0 then
      Start(width, height)
    else
      Midpoint(Cursor(width, height, choices, n - 1), Corners(width, height)[choices[n - 1]])
  }

  /** The pixels written by the first `n` passes of the dot loop, in order. */
  function Dots(width: u32, height: u32, choices: seq<Choice>, n: nat): (r: seq<Point>)
    requires 2 <= height && width <= MaxSide && height <= MaxSide
    requires n <= |choices|
    ensures |r| == n
    decreases n
  {
    if n == 0 then [] else Dots(width, height, choices, n - 1) + [Cursor(width, height, choices, n - 1)]
  }

  /** Every `put_pixel` of one run, in order: the corners, then one per dot. */
  function Writes(width: u32, height: u32, choices: seq<Choice>): (r: seq<Point>)
    requires 2 <= height && width <= MaxSide && height <= MaxSide
    ensures |r| == 3 + |choices|
    ensures r[..3] == Corners(width, height)
  {
    Corners(width, height) + Dots(width, height, choices, |choices|)
  }

  // ---------------------------------------------------------------------
  // Properties
  // ---------------------------------------------------------------------

  /** The corner writes are in bounds exactly when both sides are at least 10. */
  lemma CornersInCanvasIff(width: u32, height: u32)
    ensures (forall k :: 0 <= k < 3 ==> InCanvas(Corners(width, height)[k], width, height))
        <==> (MinSide <= width && MinSide <= height)
  {
    var r := Corners(width, height);
    if MinSide <= width && MinSide <= height {
      forall k | 0 <= k < 3 ensures InCanvas(r[k], width, height) {
      }
    } else if width < MinSide {
      assert !InCanvas(r[1], width, height);
    } else {
      assert !InCanvas(r[0], width, height);
    }
  }

  /** With both sides at least 10 the corners' box lies inside the canvas. */
  lemma CornerBoxInCanvas(width: u32, height: u32, p: Point)
    requires MinSide <= width && MinSide <= height
    requires InBox(p, CornerBox(width, height))
    ensures InCanvas(p, width, height)
  {
  }

  /** The midpoint of two canvas points is a canvas point. */
  lemma MidpointInCanvas(width: u32, height: u32, p: Point, q: Point)
    requires width <= MaxSide && height <= MaxSide
    requires InCanvas(p, width, height) && InCanvas(q, width, height)
    ensures InCanvas(Midpoint(p, q), width, height)
  {
    assert InBox(p, Box(0, 0, width - 1, height - 1));
    assert InBox(q, Box(0, 0, width - 1, height - 1));
  }

  /** Each step moves the cursor from a canvas point to a canvas point. */
  lemma StepInCanvas(width: u32, height: u32, choices: seq<Choice>, n: nat)
    requires MinSide <= width <= MaxSide && MinSide <= height <= MaxSide
    requires n < |choices|
    requires InCanvas(Cursor(width, height, choices, n), width, height)
    ensures InCanvas(Cursor(width, height, choices, n + 1), width, height)
  {
    var corner := Corners(width, height)[choices[n]];
    CornersInCanvasIff(width, height);
    assert InCanvas(corner, width, height);
    MidpointInCanvas(width, height, Cursor(width, height, choices, n), corner);
  }

  /** The cursor is inside the canvas after any number of steps. */
  lemma {:induction false} CursorInCanvas(width: u32, height: u32, choices: seq<Choice>, n: nat)
    requires MinSide <= width <= MaxSide && MinSide <= height <= MaxSide
    requires n <= |choices|
    ensures InCanvas(Cursor(width, height, choices, n), width, height)
    decreases n
  {
    if n > 0 {
      CursorInCanvas(width, height, choices, n - 1);
      StepInCanvas(width, height, choices, n - 1);
    }
  }

  /** Pass `i` of the dot loop writes at the cursor as it was before that pass's update. */
  lemma {:induction false} DotsAt(width: u32, height: u32, choices: seq<Choice>, n: nat, i: nat)
    requires 2 <= height && width <= MaxSide && height <= MaxSide
    requires i < n <= |choices|
    ensures Dots(width, height, choices, n)[i] == Cursor(width, height, choices, i)
    decreases n
  {
    if i < n - 1 {
      DotsAt(width, height, choices, n - 1, i);
    }
  }

  /**
   * The write order: after the three corners, the `i`-th loop write is at the
   * cursor after `i` steps, so the first is at the start and no write is made
   * for the cursor after the last update (it may still equal an earlier one).
   */
  lemma WriteOrder(width: u32, height: u32, choices: seq<Choice>)
    requires 2 <= height && width <= MaxSide && height <= MaxSide
    ensures forall i :: 0 <= i < |choices| ==>
      Writes(width, height, choices)[3 + i] == Cursor(width, height, choices, i)
    ensures |choices| > 0 ==> Writes(width, height, choices)[3] == Start(width, height)
  {
    forall i | 0 <= i < |choices|
      ensures Writes(width, height, choices)[3 + i] == Cursor(width, height, choices, i)
    {
      DotsAt(width, height, choices, |choices|, i);
    }
    if |choices| > 0 {
      DotsAt(width, height, choices, |choices|, 0);
    }
  }

  /** No pixel is written outside the box spanned by the three corners. */
  lemma WritesInCornerBox(width: u32, height: u32, choices: seq<Choice>)
    requires 2 <= height && width <= MaxSide && height <= MaxSide
    ensures forall i :: 0 <= i < |Writes(width, height, choices)| ==>
      InBox(Writes(width, height, choices)[i], CornerBox(width, height))
  {
    var w := Writes(width, height, choices);
    forall i | 0 <= i < |w| ensures InBox(w[i], CornerBox(width, height)) {
      if i < 3 {
        assert w[i] == Corners(width, height)[i];
      } else {
        WriteOrder(width, height, choices);
        assert w[i] == Cursor(width, height, choices, i - 3);
      }
    }
  }

  /** Every write of a run is in bounds, for every dot count and choice sequence. */
  lemma WritesInCanvas(width: u32, height: u32, choices: seq<Choice>)
    requires MinSide <= width <= MaxSide && MinSide <= height <= MaxSide
    ensures forall i :: 0 <= i < |Writes(width, height, choices)| ==>
      InCanvas(Writes(width, height, choices)[i], width, height)
  {
    WritesInCornerBox(width, height, choices);
    var w := Writes(width, height, choices);
    forall i | 0 <= i < |w| ensures InCanvas(w[i], width, height) {
      CornerBoxInCanvas(width, height, w[i]);
    }
  }

  /** With no dots only the corners are written, and they are three distinct pixels. */
  lemma ZeroDots(width: u32, height: u32)
    requires MinSide <= width <= MaxSide && MinSide <= height <= MaxSide
    ensures Writes(width, height, []) == Corners(width, height)
    ensures forall j, k :: 0 <= j < k < 3 ==> Corners(width, height)[j] != Corners(width, height)[k]
  {
    var r := Corners(width, height);
    assert r[0].x < r[1].x;
    assert r[2].y < r[0].y;
  }

  /** The cursor after `n` steps depends only on the first `n` choices. */
  lemma {:induction false} CursorPrefix(width: u32, height: u32, choices: seq<Choice>, more: seq<Choice>, n: nat)
    requires 2 <= height && width <= MaxSide && height <= MaxSide
    requires n <= |choices|
    ensures Cursor(width, height, choices + more, n) == Cursor(width, height, choices, n)
    decreases n
  {
    if n > 0 {
      CursorPrefix(width, height, choices, more, n - 1);
      assert (choices + more)[n - 1] == choices[n - 1];
    }
  }

  /**
   * A run with more dots repeats every write of a shorter run with the same
   * leading choices, in the same order, so extra dots only add white pixels.
   */
  lemma MoreDots(width: u32, height: u32, choices: seq<Choice>, more: seq<Choice>)
    requires 2 <= height && width <= MaxSide && height <= MaxSide
    ensures Writes(width, height, choices + more)[..3 + |choices|] == Writes(width, height, choices)
  {
    var short := Writes(width, height, choices);
    var long := Writes(width, height, choices + more);
    WriteOrder(width, height, choices);
    WriteOrder(width, height, choices + more);
    forall i | 0 <= i < 3 + |choices| ensures long[i] == short[i] {
      if 3 <= i {
        CursorPrefix(width, height, choices, more, i - 3);
      } else {
        assert long[i] == long[..3][i];
        assert short[i] == short[..3][i];
      }
    }
  }

  // ---------------------------------------------------------------------
  // The plotter
  // ---------------------------------------------------------------------

  /**
   * The canvas is `width` by `height`, and a pixel is white exactly when it
   * is one of the points in `written`.
   */
  ghost predicate Shows(img: array2<Rgb>, width: u32, height: u32, written: seq<Point>)
    reads img
  {
    img.Length0 == width as int && img.Length1 == height as int &&
    forall x, y :: 0 <= x < width as int && 0 <= y < height as int ==>
      img[x, y] == if Point(x as u32, y as u32) in written then White else Black
  }

  /** One `put_pixel(p.x, p.y, white)` of the plotter, as seen through `Shows`. */
  method Paint(img: array2<Rgb>, width: u32, height: u32, p: Point, ghost written: seq<Point>)
    requires Shows(img, width, height, written)
    requires InCanvas(p, width, height)
    modifies img
    ensures Shows(img, width, height, written + [p])
  {
    PutPixel(img, p.x, p.y, White);
  }

  /**
   * `make_image(width, height, dots)` with `dots == |choices|`: the result
   * is a `width` by `height` canvas in which a pixel is white exactly when
   * some write of the run hit it, and black otherwise.
   */
  method MakeImage(width: u32, height: u32, choices: seq<Choice>) returns (img: array2<Rgb>)
    requires MinSide <= width <= MaxSide && MinSide <= height <= MaxSide
    ensures fresh(img)
    ensures Shows(img, width, height, Writes(width, height, choices))
  {
    var positions := Corners(width, height);
    img := NewImage(width, height);
    var last := Start(width, height);
    ghost var written: seq<Point> := [];

    CornersInCanvasIff(width, height);
    for k := 0 to 3
      invariant written == positions[..k]
      invariant Shows(img, width, height, written)
    {
      assert InCanvas(positions[k], width, height);
      Paint(img, width, height, positions[k], written);
      written := written + [positions[k]];
    }

    var i := 0;
    while i < |choices|
      invariant i <= |choices|
      invariant last == Cursor(width, height, choices, i)
      invariant written == positions + Dots(width, height, choices, i)
      invariant Shows(img, width, height, written)
    {
      var n := choices[i];
      CursorInCanvas(width, height, choices, i);
      Paint(img, width, height, last, written);
      written := written + [last];
      last := Point((last.x + positions[n].x) / 2, (last.y + positions[n].y) / 2);
      i := i + 1;
    }
  }
}
