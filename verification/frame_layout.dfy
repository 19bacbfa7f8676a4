/** The layout steps of the frame view: placing the placeholder container
    from the layout cursor, and deriving the window controls overlay
    rectangle that is published to the page. */
module FrameLayout {
  import opened Wrappers
  import opened Geometry
  import opened FrameGeometry
  import opened FrameView
  import HitTest

  /** Bounds of the placeholder container. It starts where the trailing
      buttons begin, or at 0 when no trailing button was placed (a stale
      trailing x is never used), sits below the top border, spans the buttons'
      width less the side borders, and reaches down to the bottom of the
      title bar. */
  function PlaceholderBounds(h: Host, c: LayoutCursor): (r: Rect)
    ensures c.placedTrailingButton ==> r.x == c.availableSpaceTrailingX
    ensures !c.placedTrailingButton ==> r.x == 0
    ensures r.y == FrameBorderInsets(h, false).top
    ensures r.Bottom() == NonClientTopHeight(h, false)
    ensures var b := FrameBorderInsets(h, false); r.width == ClampToZero(c.minimumSizeForButtons - (b.left + b.right))
  {
    var height := NonClientTopHeight(h, false);
    var containerX := if c.placedTrailingButton then c.availableSpaceTrailingX else 0;
    var insets := FrameBorderInsets(h, false);
    assert height - insets.top >= 0;
    MakeRect(containerX, insets.top, c.minimumSizeForButtons - (insets.left + insets.right), height - insets.top)
  }

  /** What `Layout` needs: it dereferences the container without a null
      check whenever this view draws the title bar. */
  predicate LayoutReady(h: Host, v: View) {
    h.customTitlebar ==> v.container.Some?
  }

  /** The frame's own layout step: with a custom title bar the container is
      moved to its placeholder bounds; nothing else changes, and without a
      custom title bar nothing changes at all. */
  function Layout(h: Host, v: View): (r: View)
    requires LayoutReady(h, v)
    ensures !h.customTitlebar ==> r == v
    ensures h.customTitlebar ==> r.container == Some(Placeholder(PlaceholderBounds(h, v.cursor)))
    ensures r.(container := v.container) == v
    ensures LayoutReady(h, r)
  {
    if h.customTitlebar then
      v.(container := Some(Placeholder(PlaceholderBounds(h, v.cursor))))
    else
      v
  }

  /** Layout depends only on the host and the cursor: a second pass with
      nothing changed reproduces the same view. */
  lemma LayoutIdempotent(h: Host, v: View)
    requires LayoutReady(h, v)
    ensures Layout(h, Layout(h, v)) == Layout(h, v)
  {
  }

  /** Before any button is placed the cursor is zeroed, so the container is
      anchored at x = 0 with no width to spare. */
  lemma InitialPlaceholderAnchoredAtZero(h: Host)
    ensures PlaceholderBounds(h, InitialView().cursor).x == 0
    ensures PlaceholderBounds(h, InitialView().cursor).width == 0
  {
  }

  /** What the source's overlay step needs: it reads the container's size
      without a null check. */
  predicate HasOverlayContainer(v: View) {
    v.container.Some?
  }

  /** The window controls overlay rectangle as the source computes it,
      before right-to-left mirroring: the container is read without a null
      check, so it must exist. Its origin is (0, 0). Its width is what the
      view leaves beside the container. Its height is the window's override
      when nonzero, else the container's height plus the 1 px top margin a
      restored window has. */
  function LayoutWindowControlsOverlayAsWritten(h: Host, v: View): (r: Rect)
    requires HasOverlayContainer(v)
    ensures r.x == 0 && r.y == 0
    ensures r.width == ClampToZero(h.viewWidth - v.container.value.bounds.width)
    ensures h.titlebarOverlayHeight != 0 ==> r.height == ClampToZero(h.titlebarOverlayHeight)
    ensures h.titlebarOverlayHeight == 0 && h.maximized ==> r.height == v.container.value.bounds.height
    ensures h.titlebarOverlayHeight == 0 && !h.maximized ==> r.height == v.container.value.bounds.height + 1
  {
    var container := v.container.value.bounds;
    var overlayHeight :=
      if h.titlebarOverlayHeight == 0 then
        (if h.maximized then container.height else container.height + 1)
      else h.titlebarOverlayHeight;
    var boundingRectWidth := h.viewWidth - container.width;
    MakeRect(0, 0, boundingRectWidth, overlayHeight)
  }

  /** The overlay step with the null check the hit-test and the background
      update make: without a container there is no overlay rectangle to
      publish; with one, the rectangle is as above. */
  function LayoutWindowControlsOverlay(h: Host, v: View): (r: Option<Rect>)
    ensures r.Some? <==> v.container.Some?
    ensures r.Some? ==> r.value.x == 0 && r.value.y == 0
    ensures r.Some? ==> r.value.width == ClampToZero(h.viewWidth - v.container.value.bounds.width)
    ensures r.Some? && h.titlebarOverlayHeight != 0 ==>
              r.value.height == ClampToZero(h.titlebarOverlayHeight)
    ensures r.Some? && h.titlebarOverlayHeight == 0 && h.maximized ==>
              r.value.height == v.container.value.bounds.height
    ensures r.Some? && h.titlebarOverlayHeight == 0 && !h.maximized ==>
              r.value.height == v.container.value.bounds.height + 1
  {
    match v.container
    case None => None
    case Some(placeholder) =>
      var container := placeholder.bounds;
      var overlayHeight :=
        if h.titlebarOverlayHeight == 0 then
          (if h.maximized then container.height else container.height + 1)
        else h.titlebarOverlayHeight;
      Some(MakeRect(0, 0, h.viewWidth - container.width, overlayHeight))
  }

  /** Wherever the source's overlay step is defined, the guarded one publishes
      the same rectangle. */
  lemma OverlayExtendsAsWritten(h: Host, v: View)
    requires HasOverlayContainer(v)
    ensures LayoutWindowControlsOverlay(h, v) == Some(LayoutWindowControlsOverlayAsWritten(h, v))
  {
  }

  /** The source's overlay step could not follow either `Init` in every mode,
      were it called: with an OS-drawn title bar the corrected `Init` leaves
      it no container, even after a layout pass, and with a custom-drawn one
      the as-written `Init` leaves it none. */
  lemma OverlayAsWrittenFailsAfterInit(h: Host)
    ensures !h.customTitlebar ==> !HasOverlayContainer(Init(h))
    ensures !h.customTitlebar ==> !HasOverlayContainer(Layout(h, Init(h)))
    ensures h.customTitlebar ==> !HasOverlayContainer(InitAsWritten(h))
  {
  }

  /** The guarded overlay step is defined after the corrected `Init` and its
      layout in every mode. It publishes a rectangle exactly when this view
      draws the title bar, anchored at the origin and as wide as the view
      when no button width is reserved yet. */
  lemma OverlayAfterInit(h: Host)
    ensures LayoutWindowControlsOverlay(h, Layout(h, Init(h))).Some? <==> h.customTitlebar
    ensures h.customTitlebar ==>
              var r := LayoutWindowControlsOverlay(h, Layout(h, Init(h))).value;
              r.x == 0 && r.y == 0 && r.width == h.viewWidth
  {
  }

  /** The overlay and the container side by side span the view exactly,
      whenever the container fits in the view. */
  lemma OverlayAndContainerSpanView(h: Host, v: View)
    requires v.container.Some? && v.container.value.bounds.width <= h.viewWidth
    ensures LayoutWindowControlsOverlay(h, v).Some?
    ensures LayoutWindowControlsOverlay(h, v).value.width + v.container.value.bounds.width == h.viewWidth
  {
  }

  /** A view 800 px wide with a 138 x 30 container yields (0, 0, 662, 31)
      when restored and (0, 0, 662, 30) when maximized. */
  lemma OverlayExample(h: Host, v: View)
    requires h.viewWidth == 800 && h.titlebarOverlayHeight == 0
    requires v.container == Some(Placeholder(Rect(0, 0, 138, 30)))
    ensures !h.maximized ==> LayoutWindowControlsOverlay(h, v) == Some(Rect(0, 0, 662, 31))
    ensures h.maximized ==> LayoutWindowControlsOverlay(h, v) == Some(Rect(0, 0, 662, 30))
  {
  }

  /** After a layout pass with a custom title bar and no override, the
      overlay is as tall as the title bar below the top border, plus the
      1 px margin of a restored window. */
  lemma OverlayHeightAfterLayout(h: Host, v: View)
    requires h.customTitlebar && LayoutReady(h, v) && h.titlebarOverlayHeight == 0
    ensures LayoutWindowControlsOverlay(h, Layout(h, v)).Some?
    ensures var top := NonClientTopHeight(h, false) - FrameBorderInsets(h, false).top;
            LayoutWindowControlsOverlay(h, Layout(h, v)).value.height ==
              (if h.maximized then top else top + 1)
  {
  }

  /** The source's `Init` never creates the container when this view draws
      the title bar, so the very first layout pass would dereference a null
      container, and the resolver can only ever return the base verdict. */
  lemma InitAsWrittenStarvesLayout(h: Host, p: Point, base: HitTest.HitCode)
    requires h.customTitlebar
    ensures !LayoutReady(h, InitAsWritten(h))
    ensures HitTest.NonClientHitTest(h, InitAsWritten(h), p, base) == base
  {
  }

  /** The intended `Init` always leaves a view that layout can work on, and
      its first layout pass places the container at the top-left corner of
      the title bar, below the border. */
  lemma InitSupportsLayout(h: Host)
    ensures LayoutReady(h, Init(h))
    ensures h.customTitlebar ==>
              var r := Layout(h, Init(h));
              r.container.Some? && r.container.value.bounds.x == 0 &&
              r.container.value.bounds.y == FrameBorderInsets(h, false).top
  {
  }
}
