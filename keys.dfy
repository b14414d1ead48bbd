/** The fixed table of eight piano keys and the collision test of a fingertip
    (in canvas pixels) against one key rectangle. */
module KeyZones {
  import opened Wrappers

  /** A key rectangle; `x`, `y`, `width` and `height` are percentages of the frame and
      `caption` is the key's label (`label` is a Dafny keyword). */
  datatype Zone = Zone(x: int, y: int, width: int, height: int, caption: string)

  /** The eight keys, left to right, along the lower part of the frame. */
  const KeyPositions: seq<Zone> := [
    Zone(10, 60, 10, 30, "Key 1"),
    Zone(20, 60, 10, 30, "Key 2"),
    Zone(30, 60, 10, 30, "Key 3"),
    Zone(40, 60, 10, 30, "Key 4"),
    Zone(50, 60, 10, 30, "Key 5"),
    Zone(60, 60, 10, 30, "Key 6"),
    Zone(70, 60, 10, 30, "Key 7"),
    Zone(80, 60, 10, 30, "Key 8")
  ]

  predicate IsKey(k: int) {
    0 <= k < |KeyPositions|
  }

  /** The shape of the key table: eight zones, key `k` spanning 10+10k .. 20+10k percent
      horizontally and 60 .. 90 percent vertically, inside the frame, each sharing its
      right edge with the left edge of its neighbour. */
  lemma KeyTable(k: int)
    requires IsKey(k)
    ensures |KeyPositions| == 8
    ensures KeyPositions[k].x == 10 + 10 * k && KeyPositions[k].width == 10
    ensures KeyPositions[k].y == 60 && KeyPositions[k].height == 30
    ensures 0 <= KeyPositions[k].x && KeyPositions[k].x + KeyPositions[k].width <= 100
    ensures 0 <= KeyPositions[k].y && KeyPositions[k].y + KeyPositions[k].height <= 100
    ensures KeyPositions[k].caption == "Key " + [('1' as int + k) as char]
    ensures k + 1 < |KeyPositions| ==>
              KeyPositions[k].x + KeyPositions[k].width == KeyPositions[k + 1].x
  {
  }

  /** A hand landmark, normalised to [0, 1] on both axes (its depth is not used). */
  datatype Point = Point(x: real, y: real)

  /** The drawing canvas; its width and height are pixel counts. */
  datatype Canvas = Canvas(width: nat, height: nat)

  const DefaultWidth: nat := 1280
  const DefaultHeight: nat := 720

  /** `canvas?.width || 1280`: a missing canvas and a zero width both fall back. */
  function CanvasWidth(canvas: Option<Canvas>): (w: nat)
    ensures w > 0
  {
    if canvas.Some? && canvas.value.width != 0 then canvas.value.width else DefaultWidth
  }

  /** `canvas?.height || 720`. */
  function CanvasHeight(canvas: Option<Canvas>): (h: nat)
    ensures h > 0
  {
    if canvas.Some? && canvas.value.height != 0 then canvas.value.height else DefaultHeight
  }

  /** A percentage of `size` pixels. */
  function Scale(percent: int, size: nat): real {
    (percent as real / 100.0) * size as real
  }

  /** Whether the pixel point (`fingerX`, `fingerY`) lies in the closed rectangle of key
      `keyIndex`, scaled to the canvas. */
  predicate CheckKeyCollision(fingerX: real, fingerY: real, keyIndex: int, canvas: Option<Canvas>)
    requires IsKey(keyIndex)
  {
    var key := KeyPositions[keyIndex];
    var w := CanvasWidth(canvas);
    var h := CanvasHeight(canvas);
    fingerX >= Scale(key.x, w) && fingerX <= Scale(key.x + key.width, w) &&
    fingerY >= Scale(key.y, h) && fingerY <= Scale(key.y + key.height, h)
  }

  /** Reference definition: the normalised point lies in key `k`'s rectangle, read as
      fractions of the frame. */
  predicate InZone(p: Point, k: int)
    requires IsKey(k)
  {
    var key := KeyPositions[k];
    key.x as real / 100.0 <= p.x <= (key.x + key.width) as real / 100.0 &&
    key.y as real / 100.0 <= p.y <= (key.y + key.height) as real / 100.0
  }

  /** Key `k`'s rectangle is the band from 10+10k to 20+10k percent across and from 60
      to 90 percent down. */
  lemma InZoneBand(p: Point, k: int)
    requires IsKey(k)
    ensures InZone(p, k) <==>
      (10 + 10 * k) as real / 100.0 <= p.x <= (20 + 10 * k) as real / 100.0 &&
      0.6 <= p.y <= 0.9
  {
  }

  /** Scaling by a positive size keeps a closed interval test unchanged. */
  lemma ScaledBand(lo: real, hi: real, v: real, size: real, scaled: real)
    requires size > 0.0 && scaled == v * size
    ensures (lo * size <= scaled && scaled <= hi * size) <==> (lo <= v && v <= hi)
  {
    assert scaled - lo * size == (v - lo) * size;
    assert hi * size - scaled == (hi - v) * size;
  }

  /** Key `k`'s rectangle in pixels of a canvas with both sides non-zero: the collision
      test is closed-rectangle inclusion in it. */
  lemma KeyBoundsInPixels(fingerX: real, fingerY: real, k: int, c: Canvas)
    requires IsKey(k) && c.width > 0 && c.height > 0
    ensures CheckKeyCollision(fingerX, fingerY, k, Some(c)) <==>
      ((10 + 10 * k) as real / 100.0) * c.width as real <= fingerX &&
      fingerX <= ((20 + 10 * k) as real / 100.0) * c.width as real &&
      0.6 * c.height as real <= fingerY && fingerY <= 0.9 * c.height as real
  {
    KeyTable(k);
  }

  /** On a canvas with both sides non-zero, the collision test on a landmark scaled to
      pixels is exactly membership of the landmark in the key's rectangle of the frame. */
  lemma CollisionIsZoneMembership(p: Point, k: int, c: Canvas)
    requires IsKey(k) && c.width > 0 && c.height > 0
    ensures CheckKeyCollision(p.x * c.width as real, p.y * c.height as real, k, Some(c))
            <==> InZone(p, k)
  {
    var key := KeyPositions[k];
    var w, h := CanvasWidth(Some(c)), CanvasHeight(Some(c));
    ScaledBand(key.x as real / 100.0, (key.x + key.width) as real / 100.0,
               p.x, w as real, p.x * c.width as real);
    ScaledBand(key.y as real / 100.0, (key.y + key.height) as real / 100.0,
               p.y, h as real, p.y * c.height as real);
  }

  /** The worked example: key 0 on a 1280 x 720 canvas spans x in [128, 256] and
      y in [432, 648]; the landmark (0.15, 0.70) lands at (192, 504) and hits it, and the
      defaults give the same answer when the canvas is missing. */
  lemma DefaultCanvasExample()
    ensures Scale(KeyPositions[0].x, 1280) == 128.0
    ensures Scale(KeyPositions[0].x + KeyPositions[0].width, 1280) == 256.0
    ensures Scale(KeyPositions[0].y, 720) == 432.0
    ensures Scale(KeyPositions[0].y + KeyPositions[0].height, 720) == 648.0
    ensures 0.15 * 1280.0 == 192.0 && 0.70 * 720.0 == 504.0
    ensures CheckKeyCollision(192.0, 504.0, 0, Some(Canvas(1280, 720)))
    ensures CheckKeyCollision(192.0, 504.0, 0, None)
    ensures !CheckKeyCollision(192.0, 504.0, 1, Some(Canvas(1280, 720)))
  {
  }

  /** Neighbouring keys share an edge: a point exactly on the boundary x = 20 + 10k
      percent, at a height inside the keys, touches both key `k` and key `k + 1`. */
  lemma SharedEdge(k: int, y: real, c: Canvas)
    requires IsKey(k) && IsKey(k + 1)
    requires Scale(60, CanvasHeight(Some(c))) <= y <= Scale(90, CanvasHeight(Some(c)))
    ensures CheckKeyCollision(Scale(20 + 10 * k, CanvasWidth(Some(c))), y, k, Some(c))
    ensures CheckKeyCollision(Scale(20 + 10 * k, CanvasWidth(Some(c))), y, k + 1, Some(c))
  {
  }

  /** Landmarks are scaled by the canvas width itself while key bounds fall back to 1280
      when that width is zero, so on a zero-width canvas every fingertip lands at x = 0,
      left of every key, and touches nothing. */
  lemma ZeroWidthCanvasTouchesNothing(p: Point, k: int, height: nat)
    requires IsKey(k)
    ensures !CheckKeyCollision(p.x * 0.0, p.y * height as real, k, Some(Canvas(0, height)))
  {
  }
}
