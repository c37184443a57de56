/**
 * The part of the `image` crate that the plotter relies on: unsigned
 * 32-bit coordinates, 8-bit RGB pixels, a zero-filled RGB buffer and an
 * in-bounds pixel write.
 */
module Image {

  /** Rust's `u32`: arithmetic on it is checked for overflow and underflow. */
  newtype u32 = n: int | 0 <= n < 0x1_0000_0000

  /** Rust's `u8`, one colour channel. */
  newtype u8 = n: int | 0 <= n < 0x100

  datatype Rgb = Rgb(r: u8, g: u8, b: u8)

  /** The colour of a freshly created buffer (all channels zero). */
  const Black: Rgb := Rgb(0, 0, 0)

  /** The colour the plotter paints with. */
  const White: Rgb := Rgb(255, 255, 255)

  /**
   * `RgbImage::new(width, height)`: a `width` by `height` buffer, indexed
   * `[x, y]`, in which every pixel is zero.
   */
  method NewImage(width: u32, height: u32) returns (img: array2<Rgb>)
    ensures fresh(img)
    ensures img.Length0 == width as int && img.Length1 == height as int
    ensures forall x, y :: 0 <= x < img.Length0 && 0 <= y < img.Length1 ==> img[x, y] == Black
  {
    img := new Rgb[width, height]((x, y) => Black);
  }

  /**
   * `put_pixel(x, y, colour)`: panics when `(x, y)` lies outside the buffer,
   * so callers must stay in bounds; otherwise it overwrites exactly one pixel.
   */
  method PutPixel(img: array2<Rgb>, x: u32, y: u32, colour: Rgb)
    requires (x as int) < img.Length0 && (y as int) < img.Length1
    modifies img
    ensures img[x, y] == colour
    ensures forall i, j ::
      0 <= i < img.Length0 && 0 <= j < img.Length1 && (i != x as int || j != y as int) ==>
        img[i, j] == old(img[i, j])
  {
    img[x, y] := colour;
  }
}
