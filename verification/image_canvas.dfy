/** The size and offset computation of `redraw` in `src/ImageCanvas.tsx`:
    the canvas becomes a square as large as the image's longer side, and
    the image is drawn centred on it. */
module ImageCanvas {

  import opened Wrappers

  /** An image's intrinsic size; `width` and `height` are unsigned integers
      on an image element. */
  datatype Image = Image(width: nat, height: nat)

  /** What `redraw` produces: the side length given to both canvas
      dimensions and the offset at which the image is drawn. */
  datatype Letterbox = Letterbox(size: nat, x: real, y: real)

  /** A square of side `l.size` on which the image sits centred. */
  predicate Centres(l: Letterbox, image: Image) {
    && 2.0 * l.x + image.width as real == l.size as real
    && 2.0 * l.y + image.height as real == l.size as real
  }

  /** `redraw()`: nothing happens without a canvas or an image; otherwise the
      longer side is the square's side and the shorter side is centred. */
  function Redraw(canvasAttached: bool, image: Option<Image>): (r: Option<Letterbox>)
    ensures r.None? <==> !canvasAttached || image.None?
    ensures r.Some? ==>
      && r.value.size >= image.value.width && r.value.size >= image.value.height
      && (r.value.size == image.value.width || r.value.size == image.value.height)
      && Centres(r.value, image.value)
      && 0.0 <= r.value.x && 0.0 <= r.value.y
      && (image.value.width > image.value.height ==> r.value.x == 0.0)
      && (image.value.width <= image.value.height ==> r.value.y == 0.0)
  {
    if !canvasAttached || image.None? then None
    else
      var width := image.value.width;
      var height := image.value.height;
      if width > height then Some(Letterbox(width, 0.0, (width - height) as real / 2.0))
      else Some(Letterbox(height, (height - width) as real / 2.0, 0.0))
  }

  /** The letterbox is the only square that holds the image and centres it
      with one offset 0: any such layout equals what `redraw` computes. */
  lemma RedrawIsTheOnlyCentredSquare(image: Image, l: Letterbox)
    requires l.size >= image.width && l.size >= image.height
    requires l.size == image.width || l.size == image.height
    requires Centres(l, image)
    ensures Redraw(true, Some(image)) == Some(l)
  {
  }

  /** The drawn image lies inside the canvas. */
  lemma RedrawFitsImage(image: Image)
    ensures var l := Redraw(true, Some(image)).value;
      && l.x + image.width as real <= l.size as real
      && l.y + image.height as real <= l.size as real
  {
  }
}
