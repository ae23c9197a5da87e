/** The two image rules of the plugin: the outcome of an image request sent to
    the UI (processImage), and the aspect-preserving size clamp of resizeImage. */
module Image {
  import opened Base

  /** A message from the UI, as far as the image handshake reads it. */
  datatype UiMessage =
    | ImageProcessed(data: seq<bv8>)
    | ImageError(error: Option<string>)
    | OtherMessage(messageType: string)

  /** What happens first after the request is posted: the one-shot listener
      receives a message, or the 10-second timer fires. */
  datatype FirstEvent = Received(msg: UiMessage) | TimerFired

  datatype ImageResult = ImageResult(success: bool, data: Option<seq<bv8>>, error: Option<string>)

  const TimeoutError := "Image loading timed out"

  /** processImage: the race between the one-shot listener and the timer. A
      first message of another type is consumed by the listener without
      resolving it, so the timer then decides. */
  function ProcessImage(first: FirstEvent): (r: ImageResult)
    ensures r.success <==> first.Received? && first.msg.ImageProcessed?
    ensures r.success ==> r.data == Some(first.msg.data) && r.error == None
    ensures first.Received? && first.msg.ImageError? ==> !r.success && r.error == first.msg.error && r.data == None
    ensures (first.TimerFired? || first.msg.OtherMessage?) ==> r == ImageResult(false, None, Some(TimeoutError))
  {
    match first
    case Received(ImageProcessed(data)) => ImageResult(true, Some(data), None)
    case Received(ImageError(error)) => ImageResult(false, None, error)
    case _ => ImageResult(false, None, Some(TimeoutError))
  }

  /** The default longest side of resizeImage. */
  const DefaultMaxSize := 2048

  /** Math.round(p / q) for non-negative p and positive q: halves round up. */
  function RoundDiv(p: nat, q: nat): (r: nat)
    requires q > 0
    ensures 2 * r * q <= 2 * p + q < 2 * r * q + 2 * q
  {
    (2 * p + q) / (2 * q)
  }

  /** Rounding is monotone in the numerator. */
  lemma RoundDivAtMost(p: nat, q: nat, bound: nat)
    requires q > 0 && p <= bound * q
    ensures RoundDiv(p, q) <= bound
  {
    var r := RoundDiv(p, q);
    assert 2 * r * q < 2 * (bound + 1) * q;
  }

  /** The new width and height: a landscape image wider than maxSize gets
      width maxSize; otherwise an image taller than maxSize gets height maxSize;
      the other side is scaled by the same factor and rounded. */
  function ResizeDimensions(width: nat, height: nat, maxSize: nat): (nat, nat) {
    if width > height && width > maxSize then (maxSize, RoundDiv(height * maxSize, width))
    else if height > maxSize then (RoundDiv(width * maxSize, height), maxSize)
    else (width, height)
  }

  /** Both sides of the result are at most maxSize; an image that already
      fits is unchanged; a landscape image wider than maxSize gets width
      exactly maxSize, and any other image taller than maxSize gets height
      exactly maxSize. */
  lemma ResizeFits(width: nat, height: nat, maxSize: nat)
    ensures ResizeDimensions(width, height, maxSize).0 <= maxSize
    ensures ResizeDimensions(width, height, maxSize).1 <= maxSize
    ensures width <= maxSize && height <= maxSize ==> ResizeDimensions(width, height, maxSize) == (width, height)
    ensures width > height && width > maxSize ==> ResizeDimensions(width, height, maxSize).0 == maxSize
    ensures !(width > height && width > maxSize) && height > maxSize ==> ResizeDimensions(width, height, maxSize).1 == maxSize
    ensures (width > maxSize || height > maxSize) ==>
      ResizeDimensions(width, height, maxSize).0 == maxSize || ResizeDimensions(width, height, maxSize).1 == maxSize
  {
    if width > height && width > maxSize {
      assert height * maxSize <= maxSize * width;
      RoundDivAtMost(height * maxSize, width, maxSize);
    } else if height > maxSize {
      assert width * maxSize <= maxSize * height;
      RoundDivAtMost(width * maxSize, height, maxSize);
    }
  }

  /** The aspect ratio is kept up to rounding: the scaled side differs from the
      exact value by at most half a pixel. */
  lemma ResizeKeepsAspect(width: nat, height: nat, maxSize: nat)
    ensures var (w, h) := ResizeDimensions(width, height, maxSize);
      && (width > height && width > maxSize ==>
            2 * h * width <= 2 * (height * maxSize) + width < 2 * h * width + 2 * width)
      && (!(width > height && width > maxSize) && height > maxSize ==>
            2 * w * height <= 2 * (width * maxSize) + height < 2 * w * height + 2 * height)
  {
    if width > height && width > maxSize {
      var h := RoundDiv(height * maxSize, width);
      assert ResizeDimensions(width, height, maxSize) == (maxSize, h);
    } else if height > maxSize {
      var w := RoundDiv(width * maxSize, height);
      assert ResizeDimensions(width, height, maxSize) == (w, maxSize);
    }
  }

  /** A 4000 by 3000 photo becomes 2048 by 1536 under the default limit. */
  lemma ResizeExample()
    ensures ResizeDimensions(4000, 3000, DefaultMaxSize) == (2048, 1536)
  {
    assert 2 * 1536 * 4000 <= 2 * 3000 * 2048 + 4000 < 2 * 1536 * 4000 + 2 * 4000;
  }
}
