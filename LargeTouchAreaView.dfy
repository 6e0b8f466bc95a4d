/** A layout that gives a small child view a larger touch area
    (com.zidsoft.zdlib.android.LargeTouchAreaView). On every layout it computes
    the child's enlarged hit rectangle and installs a TouchDelegate for it.
    The Android view, rectangle and touch delegate objects it uses are
    modelled by the small classes below. */
module LargeTouchAreaView {
  import opened Lang

  /** The android.view.TouchDelegate edge flags. */
  const ABOVE: bv32 := 1
  const BELOW: bv32 := 2
  const TO_LEFT: bv32 := 4
  const TO_RIGHT: bv32 := 8

  /** LargeTouchAreaView.DEBUG_COLOR, Color.argb(50, 255, 0, 0). */
  const DEBUG_COLOR: bv32 := 0x32FF0000

  /** The value of an android.graphics.Rect. */
  datatype Bounds = Bounds(left: int, top: int, right: int, bottom: int) {
    function Width(): int { right - left }
    function Height(): int { bottom - top }
  }

  /** android.graphics.Rect, a mutable rectangle. */
  class Rect {
    var left: int
    var top: int
    var right: int
    var bottom: int

    constructor (b: Bounds)
      ensures Value() == b
    {
      left, top, right, bottom := b.left, b.top, b.right, b.bottom;
    }

    function Value(): Bounds
      reads this
    {
      Bounds(left, top, right, bottom)
    }

    function Width(): (w: int)
      reads this
      ensures w == Value().Width()
    {
      right - left
    }

    function Height(): (h: int)
      reads this
      ensures h == Value().Height()
    {
      bottom - top
    }

    /** The first half of onLayout: grow to the minimum touchable size. */
    method Enlarge(minCx: int, minCy: int)
      modifies this
      ensures Value() == Enlarged(old(Value()), minCx, minCy)
    {
      if Width() < minCx {
        var extraCx := (minCx - Width()) / 2;
        left := left - extraCx;
        right := right + extraCx;
      }
      if Height() < minCy {
        var extraCy := (minCy - Height()) / 2;
        top := top - extraCy;
        bottom := bottom + extraCy;
      }
    }

    /** The second half of onLayout: move the flagged edges to those of rec. */
    method MoveToEdges(flags: bv32, rec: Rect)
      requires rec != this && rec.left == 0 && rec.top == 0
      modifies this
      ensures Value() == ToParentEdges(old(Value()), flags, rec.right, rec.bottom)
    {
      if flags & TO_RIGHT != 0 {
        right := rec.right;
      }
      if flags & TO_LEFT != 0 {
        left := rec.left;
      }
      if flags & ABOVE != 0 {
        top := rec.top;
      }
      if flags & BELOW != 0 {
        bottom := rec.bottom;
      }
    }
  }

  /** An android.view.View, reduced to its hit rectangle in the parent. */
  class View {
    var hitRect: Bounds

    constructor (hitRect: Bounds)
      ensures this.hitRect == hitRect
    {
      this.hitRect := hitRect;
    }

    /** View.getHitRect: writes the hit rectangle into outRect. */
    method GetHitRect(outRect: Rect)
      modifies outRect
      ensures outRect.Value() == hitRect
    {
      outRect.left, outRect.top, outRect.right, outRect.bottom :=
        hitRect.left, hitRect.top, hitRect.right, hitRect.bottom;
    }
  }

  /** android.view.TouchDelegate: it keeps the Rect it is given, not a copy. */
  class TouchDelegate {
    const bounds: Rect
    const delegateView: View

    constructor (bounds: Rect, delegateView: View)
      ensures this.bounds == bounds && this.delegateView == delegateView
    {
      this.bounds, this.delegateView := bounds, delegateView;
    }
  }

  /** The half of the missing length that each side grows by (Java int
      division; the numerator is positive wherever it is used). */
  function Extra(min: int, length: int): int
  {
    (min - length) / 2
  }

  /** The hit rectangle grown, on each side, by half of what it lacks of the
      minimum touchable width and height. */
  function Enlarged(hit: Bounds, minCx: int, minCy: int): Bounds
  {
    var h := if hit.Width() < minCx
      then hit.(left := hit.left - Extra(minCx, hit.Width()), right := hit.right + Extra(minCx, hit.Width()))
      else hit;
    if h.Height() < minCy
      then h.(top := h.top - Extra(minCy, h.Height()), bottom := h.bottom + Extra(minCy, h.Height()))
      else h
  }

  /** Each edge flag moves that edge of the delegate rectangle to the same edge
      of this view, whose own rectangle is (0, 0, cx, cy). */
  function ToParentEdges(d: Bounds, flags: bv32, cx: int, cy: int): Bounds
  {
    Bounds(if flags & TO_LEFT != 0 then 0 else d.left,
           if flags & ABOVE != 0 then 0 else d.top,
           if flags & TO_RIGHT != 0 then cx else d.right,
           if flags & BELOW != 0 then cy else d.bottom)
  }

  /** The rectangle onLayout gives the touch delegate. */
  function DelegateBounds(hit: Bounds, flags: bv32, minCx: int, minCy: int, cx: int, cy: int): Bounds
  {
    ToParentEdges(Enlarged(hit, minCx, minCy), flags, cx, cy)
  }

  /** A too-narrow (too-low) rectangle is grown to the minimum, or to one less
      when the shortfall is odd, and stays centred on the original; a large
      enough one is left alone. */
  lemma EnlargedReachesMinimum(hit: Bounds, minCx: int, minCy: int)
    ensures var e := Enlarged(hit, minCx, minCy);
      && (hit.Width() < minCx ==> minCx - 1 <= e.Width() <= minCx)
      && (hit.Width() >= minCx ==> e.left == hit.left && e.right == hit.right)
      && (hit.Height() < minCy ==> minCy - 1 <= e.Height() <= minCy)
      && (hit.Height() >= minCy ==> e.top == hit.top && e.bottom == hit.bottom)
      && e.left + e.right == hit.left + hit.right
      && e.top + e.bottom == hit.top + hit.bottom
  {
  }

  /** Enlarging never shrinks: the grown rectangle contains the hit rectangle. */
  lemma EnlargedContainsHit(hit: Bounds, minCx: int, minCy: int)
    ensures var e := Enlarged(hit, minCx, minCy);
      e.left <= hit.left && e.top <= hit.top && hit.right <= e.right && hit.bottom <= e.bottom
  {
  }

  /** Each flag decides exactly its own edge: a flagged edge is this view's
      edge, an unflagged one the enlarged hit rectangle's. */
  lemma FlagsActOnTheirEdge(hit: Bounds, flags: bv32, minCx: int, minCy: int, cx: int, cy: int)
    ensures var d := DelegateBounds(hit, flags, minCx, minCy, cx, cy);
            var e := Enlarged(hit, minCx, minCy);
      && d.left == (if flags & TO_LEFT != 0 then 0 else e.left)
      && d.top == (if flags & ABOVE != 0 then 0 else e.top)
      && d.right == (if flags & TO_RIGHT != 0 then cx else e.right)
      && d.bottom == (if flags & BELOW != 0 then cy else e.bottom)
  {
  }

  /** With all four flags the whole view is the touch area. */
  lemma AllFlagsCoverTheView(hit: Bounds, minCx: int, minCy: int, cx: int, cy: int)
    ensures DelegateBounds(hit, ABOVE | BELOW | TO_LEFT | TO_RIGHT, minCx, minCy, cx, cy) == Bounds(0, 0, cx, cy)
  {
  }

  class LargeTouchAreaView {
    var touchDelegateView: View?
    var touchDelegateFlags: bv32
    /** The zdlib_min_touchable_width and _height dimension resources. */
    const touchableMinCx: int
    const touchableMinCy: int
    /** The delegate rectangle of the last layout (drawn in debug mode). */
    var curRect: Rect?
    var debug: bool
    var debugColor: bv32
    /** View.setTouchDelegate's state. */
    var touchDelegate: TouchDelegate?

    /** Both constructors: the minimum touchable size comes from resources,
        passed in here. */
    constructor (touchableMinCx: int, touchableMinCy: int)
      ensures this.touchableMinCx == touchableMinCx && this.touchableMinCy == touchableMinCy
      ensures touchDelegateView == null && touchDelegateFlags == 0 && curRect == null
      ensures !debug && debugColor == DEBUG_COLOR && touchDelegate == null
    {
      this.touchableMinCx, this.touchableMinCy := touchableMinCx, touchableMinCy;
      touchDelegateView, touchDelegateFlags, curRect := null, 0, null;
      debug, debugColor, touchDelegate := false, DEBUG_COLOR, null;
    }

    /** LargeTouchAreaView.onLayout: without a delegate view nothing happens;
        otherwise the delegate rectangle is computed from the child's hit
        rectangle, remembered, and installed in a new TouchDelegate that
        shares it. */
    method OnLayout(changed: bool, l: int, t: int, r: int, b: int)
      modifies this
      ensures old(touchDelegateView) == null ==>
        curRect == old(curRect) && touchDelegate == old(touchDelegate)
      ensures old(touchDelegateView) != null ==>
        && curRect != null && fresh(curRect)
        && curRect.Value() == DelegateBounds(old(touchDelegateView.hitRect), touchDelegateFlags,
                                             touchableMinCx, touchableMinCy, r - l, b - t)
        && touchDelegate != null && fresh(touchDelegate)
        && touchDelegate.bounds == curRect && touchDelegate.delegateView == touchDelegateView
      ensures touchDelegateView == old(touchDelegateView) && touchDelegateFlags == old(touchDelegateFlags)
      ensures debug == old(debug) && debugColor == old(debugColor)
    {
      if touchDelegateView == null {
        return;
      }
      var recOrig := new Rect(Bounds(0, 0, 0, 0));
      touchDelegateView.GetHitRect(recOrig);
      var recDelegate := new Rect(recOrig.Value());
      recDelegate.Enlarge(touchableMinCx, touchableMinCy);
      var rec := new Rect(Bounds(0, 0, r - l, b - t));
      recDelegate.MoveToEdges(touchDelegateFlags, rec);
      curRect := recDelegate;
      touchDelegate := new TouchDelegate(recDelegate, touchDelegateView);
    }

    /** LargeTouchAreaView.isDebug. */
    predicate IsDebug()
      reads this
      ensures IsDebug() == debug
    {
      debug
    }

    /** setTouchDelegateDebug(debug, color). */
    method SetTouchDelegateDebug(debug: bool, color: bv32)
      modifies this
      ensures this.debug == debug && debugColor == color
      ensures touchDelegateView == old(touchDelegateView) && touchDelegateFlags == old(touchDelegateFlags)
      ensures curRect == old(curRect) && touchDelegate == old(touchDelegate)
    {
      this.debug, debugColor := debug, color;
    }

    /** setTouchDelegateDebug(debug): the default colour. */
    method SetTouchDelegateDebugDefault(debug: bool)
      modifies this
      ensures this.debug == debug && debugColor == DEBUG_COLOR
      ensures touchDelegateView == old(touchDelegateView) && touchDelegateFlags == old(touchDelegateFlags)
      ensures curRect == old(curRect) && touchDelegate == old(touchDelegate)
    {
      SetTouchDelegateDebug(debug, DEBUG_COLOR);
    }

    /** setTouchDelegateView(view, flags); it takes effect at the next layout. */
    method SetTouchDelegateView(view: View?, flags: bv32)
      modifies this
      ensures touchDelegateView == view && touchDelegateFlags == flags
      ensures curRect == old(curRect) && touchDelegate == old(touchDelegate)
      ensures debug == old(debug) && debugColor == old(debugColor)
    {
      touchDelegateView, touchDelegateFlags := view, flags;
    }

    /** setTouchDelegateView(view): no edge flags. */
    method SetTouchDelegateViewDefault(view: View?)
      modifies this
      ensures touchDelegateView == view && touchDelegateFlags == 0
      ensures curRect == old(curRect) && touchDelegate == old(touchDelegate)
      ensures debug == old(debug) && debugColor == old(debugColor)
    {
      SetTouchDelegateView(view, 0);
    }
  }
}
