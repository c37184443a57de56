# Sierpinski-triangle plotter in Dafny

A model of `make_image` from `src/main.rs`, the function that draws a
Sierpinski triangle by the chaos game. It takes a width, a height and a
dot count, and it:

1. computes three fixed corners with u32 division: bottom-left
   `(W/10, H - H/10)`, bottom-right `(W - W/10, H - H/10)` and top
   `(W/2, H/10)`;
2. creates a black `W x H` RGB canvas;
3. paints the three corners white;
4. starts a cursor at `(W/2, H/2 - 1)`. Each of the `N` dots paints the
   cursor pixel white. It then moves the cursor to the floor midpoint of
   itself and a randomly chosen corner.

The project has two modules:

- `Image` (`image.dfy`) stands in for the `image` crate. It defines `u32`
  and `u8` as newtypes, so every u32 addition or subtraction in the model
  is checked for overflow and underflow. It also defines RGB pixels,
  `NewImage` (`RgbImage::new`, a zeroed canvas) and `PutPixel`
  (`put_pixel`). `PutPixel` has an in-bounds precondition because the
  crate panics outside the canvas.
- `Sierpinski` (`sierpinski.dfy`) models `make_image`:
  - `Corners`, `Start` and `Midpoint` give the geometry.
  - `Cursor` gives the walk: the cursor after `n` steps.
  - `Dots` and `Writes` list every pixel write of a run, in order.
  - Lemmas prove the properties of these functions.
  - `MakeImage` is the imperative plotter. It has the source's two loops
    and its in-place writes into an `array2<Rgb>`. Its contract says it
    produces exactly the canvas that `Writes` describes.

The random number generator is replaced by an input `choices: seq<Choice>`.
Each element is a corner index in `{0, 1, 2}`, and the dot count is
`|choices|`.

Preconditions. `make_image` has no guard on its arguments. `MakeImage`
requires `10 <= W, H <= 2^31`:

- Lower bound: for a side below 10, `W - W/10 == W` or `H - H/10 == H`, and
  the corner `put_pixel` at src/main.rs:84 panics. `CornersInCanvasIff`
  proves that the corner writes are in bounds exactly when both sides are
  at least 10.
- Upper bound: up to `2^31` the u32 sum `last + positions[n]` at
  src/main.rs:94-95 cannot overflow. This bound is sufficient, not exact
  (see "## Left out").
- `Start` itself requires only `H >= 2`. Below that, `height / 2 - 1`
  underflows.

A run makes `N + 3` writes (`Writes`). Writes can coincide, so fewer than
`N + 3` pixels may be white.

## Model

| member | source | states |
|---|---|---|
| `Image.NewImage` | src/main.rs:79 | the new canvas is fresh, `width x height`, and every pixel is black |
| `Image.PutPixel` | src/main.rs:84 | the write needs an in-bounds coordinate; it sets exactly that pixel and leaves every other pixel unchanged |
| `Sierpinski.Corners` | src/main.rs:72-76 | three corners: the two bottom ones share a row and the top one is not below it; the bottom x-coordinates sum to `W`, mirroring each other about the line `x = W/2`; the top corner is at column `⌊W/2⌋`; the top corner's x lies between them. It is a pure function of `(W, H)`, so computing it twice gives the same corners |
| `Sierpinski.CornerBox` | src/main.rs:72-76 | the box holds all three corners, and each of its four sides passes through a corner (it is the tightest such box) |
| `Sierpinski.Start` | src/main.rs:80 | the start cursor needs `H >= 2` (u32 subtraction); it lies in the canvas whenever `W >= 1`; it lies in the corners' box, so the box spanned by the start and the corners is the corners' box |
| `Sierpinski.Midpoint` | src/main.rs:93-96 | the u32 floor midpoint needs both coordinate sums below `2^32`; every box holding both endpoints also holds the midpoint |
| `Sierpinski.Cursor` | src/main.rs:90-96 | after any number of steps and for any choice sequence, the cursor stays in the corners' box (the bounding-box invariant) |
| `Sierpinski.Dots` | src/main.rs:90-92 | the dot loop makes exactly one write per dot |
| `Sierpinski.Writes` | src/main.rs:83-96 | a run makes `3 + N` writes, and the first three are the corners in order |
| `Sierpinski.CornersInCanvasIff` | src/main.rs:72-85 | all three corner writes are in bounds if and only if `W >= 10` and `H >= 10` |
| `Sierpinski.CornerBoxInCanvas` | src/main.rs:72-76 | for `W, H >= 10`, every point of the corners' box is inside the canvas |
| `Sierpinski.MidpointInCanvas` | src/main.rs:93-96 | the midpoint of two canvas points is a canvas point |
| `Sierpinski.StepInCanvas` | src/main.rs:90-96 | one loop step maps an in-canvas cursor to an in-canvas cursor (the loop invariant) |
| `Sierpinski.CursorInCanvas` | src/main.rs:80-96 | for `10 <= W, H <= 2^31`, the cursor is in the canvas after every number of steps, so every loop `put_pixel` is in bounds |
| `Sierpinski.DotsAt` | src/main.rs:90-96 | pass `i` of the dot loop writes at the cursor after `i` steps, i.e. before that pass's update |
| `Sierpinski.WriteOrder` | src/main.rs:90-96 | write `3 + i` is the cursor after `i` steps; the first loop write is at `(W/2, H/2 - 1)`; no write is made for the cursor after the final update (it can still coincide with an earlier write) |
| `Sierpinski.WritesInCornerBox` | src/main.rs:80-96 | no write of any run falls outside the corners' bounding box |
| `Sierpinski.WritesInCanvas` | src/main.rs:83-96 | for `10 <= W, H <= 2^31`, every write of every run, for every dot count and every choice sequence, is inside the canvas |
| `Sierpinski.ZeroDots` | src/main.rs:83-90 | with no dots, the only writes are the corners, and the three corners are distinct pixels |
| `Sierpinski.CursorPrefix` | src/main.rs:90-96 | the cursor after `n` steps depends only on the first `n` choices |
| `Sierpinski.MoreDots` | src/main.rs:90-96 | a longer run, on the same leading choices, repeats every write of a shorter run in the same order, so extra dots only add white pixels |
| `Sierpinski.Paint` | src/main.rs:92 | painting an in-canvas point white makes the canvas show the written points plus that point |
| `Sierpinski.MakeImage` | src/main.rs:70-104 | for `10 <= W, H <= 2^31`, the result is a fresh `W x H` canvas; a pixel is white exactly when some write of the run hit it and black otherwise; every u32 operation and every pixel write along the way is checked in range |

## Left out

- Command-line parsing (`Cli`, `main`, src/main.rs:11-36): argument plumbing, outside `make_image`.
- Logger setup and the `info!` calls: observational output only.
- Saving the image and setting it as wallpaper (src/main.rs:54-67): file-system and desktop I/O through foreign crates.
- The progress bar (`ProgressBar::new`, `bar.inc(1000)` each time the 1-based pass counter is a multiple of 1000, `bar.finish()`): presentation only. It does not affect the canvas.
- `thread_rng` / `gen_range(0..=2)`: replaced by the input `choices`, each in `{0, 1, 2}`. The model makes no claim about the distribution.
- The `dots: u64` bound: the model takes the dot count as `|choices|` and does not bound it by `2^64`.
- MakeImage: excludes sides in `(2^31, 2386092942]`. The source runs these sizes without overflow, because the sum stays in range while `W - W/10 <= 2^31`. The bound `2^31` is a simpler sufficient one.
- Release-build wrap-around: u32 arithmetic is checked, as in a debug build. The preconditions rule out every overflow, so the two build modes agree on every input the model accepts.
- The `image` crate's internals: the canvas is an `array2<Rgb>` indexed `[x, y]`, not the crate's row-major byte vector.
- Hex-colour parsing and image-seeded grayscale blending: `src/main.rs` has neither, so neither is modelled.
