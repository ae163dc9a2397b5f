/** Dragging the overlay of content_script.js with the mouse: `mousedown` on the overlay
    starts a drag, `mousemove` anywhere on the page moves it while the drag lasts, and
    `mouseup` ends it. The right and bottom edges are kept inside the viewport, and the left
    and top edges too when the overlay fits. Pixel values are whole numbers here. */
module DragControl {

  function Max(a: int, b: int): int { if a < b then b else a }
  function Min(a: int, b: int): int { if a < b then a else b }

  /** Where the overlay's edge ends up on one axis: first pulled back to 0 if it is before
      the start of the viewport, then pulled back so that its far edge is inside the viewport.
      The second step wins, so an overlay larger than the viewport sticks out at the start. */
  function ClampAxis(p: int, size: int, extent: int): (r: int)
    ensures r + size <= extent
    ensures size <= extent ==> 0 <= r
    ensures size > extent ==> r == extent - size
    ensures 0 <= p && p + size <= extent ==> r == p
    ensures r != p ==> r == 0 || r == extent - size
  {
    var q := if p < 0 then 0 else p;
    if q + size > extent then extent - size else q
  }

  /** The clamp is `min(max(p, 0), extent - size)`. */
  lemma ClampIsMinOfMax(p: int, size: int, extent: int)
    ensures ClampAxis(p, size, extent) == Min(Max(p, 0), extent - size)
  {
  }

  /** Clamping a clamped position again leaves it where it is. */
  lemma ClampIdempotent(p: int, size: int, extent: int)
    ensures ClampAxis(ClampAxis(p, size, extent), size, extent) == ClampAxis(p, size, extent)
  {
  }

  /** A larger request never lands further back: the clamp keeps the order of positions. */
  lemma ClampMonotone(p: int, q: int, size: int, extent: int)
    requires p <= q
    ensures ClampAxis(p, size, extent) <= ClampAxis(q, size, extent)
  {
  }

  /** The overlay and the variables its listeners share. `left` and `top` are its layout
      position (`offsetLeft`, `offsetTop`, which a CSS transform does not change);
      `translated` is whether its centring transform still applies. */
  class Overlay {
    var isDragging: bool
    var startX: int
    var startY: int
    var initialX: int
    var initialY: int
    var left: int
    var top: int
    var translated: bool
    var cursor: string

    /** The overlay as built: not being dragged, centring transform on, a "grab" cursor. */
    constructor (left0: int, top0: int)
      ensures !isDragging && left == left0 && top == top0 && translated && cursor == "grab"
    {
      isDragging := false;
      startX, startY, initialX, initialY := 0, 0, 0, 0;
      left, top := left0, top0;
      translated := true;
      cursor := "grab";
    }

    /** `mousedown` on the overlay, at (clientX, clientY) on an element with tag `tagName`.
        Returns whether the default action (text selection) is prevented. */
    method MouseDown(tagName: string, clientX: int, clientY: int) returns (preventDefault: bool)
      modifies this
      ensures preventDefault <==> tagName !in {"INPUT", "SELECT", "BUTTON"}
      ensures tagName in {"INPUT", "SELECT", "BUTTON"} ==> unchanged(this)
      ensures tagName !in {"INPUT", "SELECT", "BUTTON"} ==>
                isDragging && cursor == "grabbing"
                && startX == clientX && startY == clientY
                && initialX == old(left) && initialY == old(top)
                && left == old(left) && top == old(top) && translated == old(translated)
    {
      preventDefault := false;
      if tagName != "INPUT" && tagName != "SELECT" && tagName != "BUTTON" {
        isDragging := true;
        cursor := "grabbing";
        startX := clientX;
        startY := clientY;
        initialX := left;
        initialY := top;
        preventDefault := true;
      }
    }

    /** `mousemove` at (clientX, clientY), with the overlay `width` by `height` and the
        viewport `viewportWidth` by `viewportHeight`. */
    method MouseMove(clientX: int, clientY: int, width: int, height: int,
                     viewportWidth: int, viewportHeight: int)
      modifies this
      ensures !old(isDragging) ==> unchanged(this)
      ensures old(isDragging) ==>
                left == ClampAxis(initialX + (clientX - startX), width, viewportWidth)
                && top == ClampAxis(initialY + (clientY - startY), height, viewportHeight)
                && !translated
                && isDragging && cursor == old(cursor)
                && startX == old(startX) && startY == old(startY)
                && initialX == old(initialX) && initialY == old(initialY)
      ensures old(isDragging) ==> left + width <= viewportWidth && top + height <= viewportHeight
      ensures old(isDragging) && width <= viewportWidth ==> 0 <= left
      ensures old(isDragging) && height <= viewportHeight ==> 0 <= top
    {
      if !isDragging {
        return;
      }
      var dx := clientX - startX;
      var dy := clientY - startY;
      var newLeft := initialX + dx;
      var newTop := initialY + dy;
      if newLeft < 0 { newLeft := 0; }
      if newTop < 0 { newTop := 0; }
      if newLeft + width > viewportWidth { newLeft := viewportWidth - width; }
      if newTop + height > viewportHeight { newTop := viewportHeight - height; }
      left := newLeft;
      top := newTop;
      translated := false;
    }

    /** `mouseup` anywhere on the page: the drag, if any, is over. */
    method MouseUp()
      modifies this
      ensures !isDragging && cursor == "grab"
      ensures startX == old(startX) && startY == old(startY)
      ensures initialX == old(initialX) && initialY == old(initialY)
      ensures left == old(left) && top == old(top) && translated == old(translated)
    {
      isDragging := false;
      cursor := "grab";
    }

    /** A scenario, not a listener of the script: a whole gesture on the overlay body, that is
        press, one move and release. The overlay ends up at the clamped offset of the pointer's
        travel and is no longer being dragged; moves after the release change nothing. */
    method DragOnce(tagName: string, x0: int, y0: int, x1: int, y1: int,
                    width: int, height: int, viewportWidth: int, viewportHeight: int)
      requires tagName !in {"INPUT", "SELECT", "BUTTON"}
      modifies this
      ensures !isDragging && cursor == "grab"
      ensures left == ClampAxis(old(left) + (x1 - x0), width, viewportWidth)
      ensures top == ClampAxis(old(top) + (y1 - y0), height, viewportHeight)
    {
      var _ := MouseDown(tagName, x0, y0);
      MouseMove(x1, y1, width, height, viewportWidth, viewportHeight);
      MouseUp();
      MouseMove(x1 + 1, y1 + 1, width, height, viewportWidth, viewportHeight);
    }
  }
}
