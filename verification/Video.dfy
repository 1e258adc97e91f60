// Copying and filling rectangles of a surface in place.

module Video {
  import opened Options
  import opened Arithmetic

  /** Right and bottom are outside the rectangle, except where a method says otherwise. */
  datatype Rectangle = Rectangle(left: int, top: int, right: int, bottom: int)

  predicate Holds(r: Rectangle, x: int, y: int) { r.left <= x < r.right && r.top <= y < r.bottom }

  /** A rectangle of one column and one row is one pixel, and cutting a rectangle in two loses and doubles none. */
  lemma RectangleParts(r: Rectangle, c: int, x: int, y: int)
    ensures Holds(Rectangle(x, y, x + 1, y + 1), c, r.top) <==> c == x && r.top == y
    ensures r.left <= c <= r.right ==>
      (Holds(r, x, y) <==> Holds(r.(right := c), x, y) != Holds(r.(left := c), x, y))
    ensures r.top <= c <= r.bottom ==>
      (Holds(r, x, y) <==> Holds(r.(bottom := c), x, y) != Holds(r.(top := c), x, y))
  {
  }

  /** Where a pixel is in a frame buffer. */
  function Offset(pitch: nat, x: int, y: int): int { y * pitch + x }

  /** Rows do not overlap. */
  lemma OffsetRow(pitch: nat, x: int, y: int, x': int, y': int)
    requires 0 <= x < pitch && 0 <= x' < pitch
    ensures y < y' ==> Offset(pitch, x, y) < Offset(pitch, 0, y') <= Offset(pitch, x', y')
  {
    if y < y' {
      Scale(y + 1, y', pitch);
    }
  }

  lemma OffsetInside(pitch: nat, height: nat, x: int, y: int)
    requires 0 <= x < pitch && 0 <= y < height
    ensures 0 <= Offset(pitch, x, y) < pitch * height
    ensures Offset(pitch, x, y) + pitch - x <= pitch * height
  {
    Scale(0, y, pitch);
    Scale(y + 1, height, pitch);
  }

  /** Moves words; the two stretches may overlap. */
  method MemmoveInts(a: array<int>, to: nat, from: nat, n: nat)
    requires to + n <= a.Length && from + n <= a.Length
    modifies a
    ensures forall i :: 0 <= i < a.Length ==>
      a[i] == if to <= i < to + n then old(a[from + (i - to)]) else old(a[i])
  {
    if to == from {
      return;
    }
    if to <= from {
      var k := 0;
      while k < n
        invariant 0 <= k <= n
        invariant forall i :: 0 <= i < a.Length ==>
          a[i] == if to <= i < to + k then old(a[from + (i - to)]) else old(a[i])
      {
        a[to + k] := a[from + k];
        k := k + 1;
      }
    } else {
      var k := n;
      while k > 0
        invariant 0 <= k <= n
        invariant forall i :: 0 <= i < a.Length ==>
          a[i] == if to + k <= i < to + n then old(a[from + (i - to)]) else old(a[i])
      {
        k := k - 1;
        a[to + k] := a[from + k];
      }
    }
  }

  method MemsetInts(a: array<int>, to: nat, value: int, n: nat)
    requires to + n <= a.Length
    modifies a
    ensures forall i :: 0 <= i < a.Length ==> a[i] == if to <= i < to + n then value else old(a[i])
  {
    var k := 0;
    while k < n
      invariant 0 <= k <= n
      invariant forall i :: 0 <= i < a.Length ==> a[i] == if to <= i < to + k then value else old(a[i])
    {
      a[to + k] := value;
      k := k + 1;
    }
  }

  // ----- clipping -----

  /** A stretch of a destination axis and where its source starts. */
  datatype Span = Span(to: int, size: int, from: int)

  /** The cuts that the program makes along one axis, both surfaces having the same extent. */
  function Clipped(s: Span, extent: nat): Span {
    var a := if s.to < 0 then Span(0, s.size + s.to, s.from - s.to) else s;
    var b := if a.from < 0 then Span(a.to - a.from, a.size + a.from, 0) else a;
    var c := if b.size > extent - b.to then b.(size := extent - b.to) else b;
    if c.size > extent - c.from then c.(size := extent - c.from) else c
  }

  /** Whether a span copies to coordinate x, from a coordinate that exists. */
  predicate Copies(s: Span, extent: nat, x: int) {
    0 <= x - s.to < s.size && 0 <= x < extent && 0 <= s.from + (x - s.to) < extent
  }

  /** Clipping cuts off exactly what has no source or no destination, and moves nothing. */
  lemma ClippedExactly(s: Span, extent: nat, x: int)
    ensures var c := Clipped(s, extent);
      && c.from - c.to == s.from - s.to
      && (c.to <= x < c.to + c.size <==> Copies(s, extent, x))
      && (c.size > 0 ==> 0 <= c.to && c.to + c.size <= extent && 0 <= c.from && c.from + c.size <= extent)
  {
  }

  /** The cuts along one axis, one after the other. */
  method Clip(to: int, size: int, from: int, extent: nat) returns (c: int, w: int, f: int)
    ensures Span(c, w, f) == Clipped(Span(to, size, from), extent)
  {
    c, w, f := to, size, from;
    if c < 0 {
      w := w + c;
      f := f - c;
      c := 0;
    }
    if f < 0 {
      c := c - f;
      w := w + f;
      f := 0;
    }
    if w > extent - c {
      w := extent - c;
    }
    if w > extent - f {
      w := extent - f;
    }
  }

  class Surface {
    const width: nat
    const height: nat
    const pitch: nat
    const fb: array<int>
    var clip: Rectangle

    ghost predicate Valid()
      reads this, fb
    {
      width <= pitch && fb.Length == pitch * height
    }

    constructor (width: nat, height: nat, pitch: nat)
      requires width <= pitch
      ensures Valid() && this.width == width && this.height == height && this.pitch == pitch && fresh(fb)
      ensures ClipInside()
    {
      this.width := width;
      this.height := height;
      this.pitch := pitch;
      this.fb := new int[pitch * height](_ => 0);
      this.clip := Rectangle(0, 0, width, height);
    }

    /** The pixel at a place of the frame buffer, padding included. */
    ghost function Pixel(x: int, y: int): int
      reads this, fb
      requires Valid() && 0 <= x < pitch && 0 <= y < height
    {
      OffsetInside(pitch, height, x, y);
      fb[Offset(pitch, x, y)]
    }

    /** Copies a stretch of one row to another row, or along the same one. */
    method CopyRow(toX: int, toY: int, fromX: int, fromY: int, n: nat)
      requires Valid() && 0 <= toX && toX + n <= width && 0 <= fromX && fromX + n <= width
      requires 0 <= toY < height && 0 <= fromY < height && n > 0
      modifies fb
      ensures Valid()
      ensures forall x, y :: 0 <= x < pitch && 0 <= y < height ==>
        Pixel(x, y) == if y == toY && toX <= x < toX + n then old(Pixel(fromX + (x - toX), fromY)) else old(Pixel(x, y))
    {
      OffsetInside(pitch, height, toX, toY);
      OffsetInside(pitch, height, fromX, fromY);
      MemmoveInts(fb, Offset(pitch, toX, toY), Offset(pitch, fromX, fromY), n);
      forall x, y | 0 <= x < pitch && 0 <= y < height
        ensures Pixel(x, y) == if y == toY && toX <= x < toX + n then old(Pixel(fromX + (x - toX), fromY)) else old(Pixel(x, y))
      {
        OffsetInside(pitch, height, x, y);
        OffsetRow(pitch, x, y, toX, toY);
        OffsetRow(pitch, toX + n - 1, toY, x, y);
      }
    }

    /** Copies rows of n pixels, in the order that keeps rows from being overwritten before they are read. */
    method CopyRows(cx: int, cy: int, n: nat, rows: nat, x1: int, y1: int)
      requires Valid() && n > 0 && rows > 0
      requires 0 <= cx && cx + n <= width && 0 <= x1 && x1 + n <= width
      requires 0 <= cy && cy + rows <= height && 0 <= y1 && y1 + rows <= height
      modifies fb
      ensures Valid()
      ensures forall x, y :: 0 <= x < pitch && 0 <= y < height ==>
        Pixel(x, y) == if cx <= x < cx + n && cy <= y < cy + rows
                       then old(Pixel(x1 + (x - cx), y1 + (y - cy))) else old(Pixel(x, y))
    {
      if cy >= y1 {
        var y := rows - 1;
        while y >= 0
          invariant -1 <= y < rows && Valid()
          invariant forall u, v :: 0 <= u < pitch && 0 <= v < height ==>
            Pixel(u, v) == if cx <= u < cx + n && cy + y < v < cy + rows
                           then old(Pixel(x1 + (u - cx), y1 + (v - cy))) else old(Pixel(u, v))
        {
          CopyRow(cx, cy + y, x1, y1 + y, n);
          y := y - 1;
        }
      } else {
        var y := 0;
        while y < rows
          invariant 0 <= y <= rows && Valid()
          invariant forall u, v :: 0 <= u < pitch && 0 <= v < height ==>
            Pixel(u, v) == if cx <= u < cx + n && cy <= v < cy + y
                           then old(Pixel(x1 + (u - cx), y1 + (v - cy))) else old(Pixel(u, v))
        {
          CopyRow(cx, cy + y, x1, y1 + y, n);
          y := y + 1;
        }
      }
    }

    /** Whether a blit writes the pixel at (x, y): it is in the destination, and its source exists. */
    ghost predicate Blits(cx: int, cy: int, w: int, h: int, x1: int, y1: int, x: int, y: int) {
      Copies(Span(cx, w, x1), width, x) && Copies(Span(cy, h, y1), height, y)
    }

    /** Copies a rectangle of the surface to another place of it, for any overlap and any position. */
    method BitBlit(cx0: int, cy0: int, width0: int, height0: int, x0: int, y0: int)
      requires Valid()
      modifies fb
      ensures Valid()
      ensures forall x, y :: 0 <= x < pitch && 0 <= y < height ==>
        Pixel(x, y) == if Blits(cx0, cy0, width0, height0, x0, y0, x, y)
                       then old(Pixel(x0 + (x - cx0), y0 + (y - cy0))) else old(Pixel(x, y))
    {
      hide Copies, Clipped;
      var cx, w, x1 := Clip(cx0, width0, x0, width);
      var cy, h, y1 := Clip(cy0, height0, y0, height);
      forall x, y ensures (cx <= x < cx + w && cy <= y < cy + h) <==> Blits(cx0, cy0, width0, height0, x0, y0, x, y) {
        ClippedExactly(Span(cx0, width0, x0), width, x);
        ClippedExactly(Span(cy0, height0, y0), height, y);
      }
      ClippedExactly(Span(cx0, width0, x0), width, 0);
      ClippedExactly(Span(cy0, height0, y0), height, 0);
      if w <= 0 || h <= 0 {
        return;
      }
      CopyRows(cx, cy, w, h, x1, y1);
    }

    ghost predicate In(r: Rectangle, x: int, y: int) {
      Holds(r, x, y) && 0 <= x < width && 0 <= y < height
    }

    /** Moves the contents of a rectangle; what has no source in the rectangle stays as it was. */
    method ScrollRect(r: Rectangle, amountX: int, amountY: int)
      requires Valid()
      modifies fb
      ensures Valid()
      ensures forall x, y :: 0 <= x < pitch && 0 <= y < height ==>
        Pixel(x, y) == if In(r, x, y) && In(r, x - amountX, y - amountY)
                       then old(Pixel(x - amountX, y - amountY)) else old(Pixel(x, y))
    {
      if amountX == 0 && amountY == 0 {
        return;
      }
      var cx, cy := r.left, r.top;
      var x1, y1 := cx, cy;
      var w, h := r.right - r.left, r.bottom - r.top;
      if amountX > 0 { cx, w := cx + amountX, w - amountX; } else { x1, w := x1 - amountX, w + amountX; }
      if amountY > 0 { cy, h := cy + amountY, h - amountY; } else { y1, h := y1 - amountY, h + amountY; }
      BitBlit(cx, cy, w, h, x1, y1);
      forall x, y | 0 <= x < pitch && 0 <= y < height
        ensures Blits(cx, cy, w, h, x1, y1, x, y) <==> In(r, x, y) && In(r, x - amountX, y - amountY)
      {
      }
    }

    // ----- filling -----

    /** The clip rectangle does not reach out of the surface. */
    ghost predicate ClipInside()
      reads this
    {
      0 <= clip.left && 0 <= clip.top && clip.right <= width && clip.bottom <= height
    }

    /** Sets the clip rectangle, cut to the surface, or the whole surface, and hands out the old one. */
    method SetClipRectEx(rect: Option<Rectangle>) returns (out: Rectangle)
      modifies this`clip
      ensures ClipInside() && out == old(clip)
      ensures forall x, y :: 0 <= x < width && 0 <= y < height ==>
        (Holds(clip, x, y) <==> rect == None || Holds(rect.value, x, y))
    {
      out := clip;
      if rect == None {
        clip := Rectangle(0, 0, width, height);
        return;
      }
      clip := rect.value;
      if clip.left < 0 { clip := clip.(left := 0); }
      if clip.top < 0 { clip := clip.(top := 0); }
      if clip.right >= width { clip := clip.(right := width); }
      if clip.bottom >= height { clip := clip.(bottom := height); }
    }

    /** Fills a rectangle, right and bottom edge included, as far as it lies in the clip rectangle. */
    method FillRect(color: int, left0: int, top0: int, right0: int, bottom0: int)
      requires Valid() && ClipInside()
      modifies fb
      ensures Valid()
      ensures forall x, y :: 0 <= x < pitch && 0 <= y < height ==>
        Pixel(x, y) == if left0 <= x <= right0 && top0 <= y <= bottom0
                          && Holds(clip, x, y)
                       then color else old(Pixel(x, y))
    {
      var left, top, right, bottom := left0, top0, right0, bottom0;
      if left > right || top > bottom { return; }
      if left >= clip.right || top >= clip.bottom || right < clip.left || bottom < clip.top { return; }
      if left < clip.left { left := clip.left; }
      if top < clip.top { top := clip.top; }
      if right >= clip.right { right := clip.right - 1; }
      if bottom >= clip.bottom { bottom := clip.bottom - 1; }
      if left > right || top > bottom { return; }
      var start := Offset(pitch, left, top);
      var y := top;
      while y <= bottom
        invariant top <= y <= bottom + 1 && Valid() && start == Offset(pitch, left, y)
        invariant forall u, v :: 0 <= u < pitch && 0 <= v < height ==>
          Pixel(u, v) == if left <= u <= right && top <= v < y then color else old(Pixel(u, v))
      {
        FillRow(color, left, y, right - left + 1, start);
        start := start + pitch;
        y := y + 1;
        assert start == Offset(pitch, left, y) by { NextRow(pitch, left, y - 1); }
      }
    }

    method FillRow(color: int, left: int, y: int, n: nat, start: int)
      requires Valid() && 0 <= left && n > 0 && left + n <= width && 0 <= y < height && start == Offset(pitch, left, y)
      modifies fb
      ensures Valid()
      ensures forall u, v :: 0 <= u < pitch && 0 <= v < height ==>
        Pixel(u, v) == if v == y && left <= u < left + n then color else old(Pixel(u, v))
    {
      OffsetInside(pitch, height, left, y);
      MemsetInts(fb, start, color, n);
      forall u, v | 0 <= u < pitch && 0 <= v < height
        ensures Pixel(u, v) == if v == y && left <= u < left + n then color else old(Pixel(u, v))
      {
        OffsetInside(pitch, height, u, v);
        OffsetRow(pitch, u, v, left, y);
        OffsetRow(pitch, left + n - 1, y, u, v);
      }
    }
  }

  lemma NextRow(pitch: nat, x: int, y: int)
    ensures Offset(pitch, x, y + 1) == Offset(pitch, x, y) + pitch
  {
  }
}
