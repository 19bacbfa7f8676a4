/** The geometry model of the opaque frame: the frame's constants, the
    "condensed" predicate, the border insets, the height of the non-client
    top area, and the conversions between client and window rectangles. */
module FrameGeometry {
  import opened Geometry

  /** The restored frame border, the same on every side. */
  const kFrameBorderThickness: int := 4
  /** Extra thickness added to the top border when the frame is restored. */
  const kNonClientExtraTopThickness: int := 1
  /** The shadow built into the content edge images. */
  const kContentEdgeShadowThickness: int := 2
  /** The 3D edge along the top of the frame. */
  const kTopFrameEdgeThickness: int := 2
  /** The 3D edge along the sides of the frame. */
  const kSideFrameEdgeThickness: int := 1
  /** Minimum vertical gap between the caption buttons and the content shadow. */
  const kCaptionButtonBottomPadding: int := 3
  /** Vertical padding around the window icon. */
  const kVerticalPadding: int := 2
  /** The icon never shrinks below this size on a side. */
  const kIconMinimumSize: int := 16

  /** What the frame view reads from its window, widget and platform but does
      not compute itself. A quantity that depends on a `restored` flag is given
      by its two values: `...Restored` for `restored == true` and `...Current`
      for `restored == false`. */
  datatype Host = Host(
    maximized: bool,              // the widget reports itself maximized
    fullscreen: bool,             // the widget reports itself fullscreen
    customTitlebar: bool,         // the title bar is drawn by this view
    overlayEnabled: bool,         // the window controls overlay is enabled
    viewWidth: nat,               // the frame view's own size
    viewHeight: nat,
    fontHeight: nat,              // line height of the default font list
    captionButtonHeight: nat,     // height of a caption button
    edgeTopRestored: nat,         // top of the frame edge insets
    edgeTopCurrent: nat,
    captionYRestored: nat,        // default y of the caption buttons
    captionYCurrent: nat,
    titlebarOverlayHeight: int)   // overlay height the window asks for, 0 if none

  /** The frame is condensed when the window is maximized or fullscreen, and
      in no other mode. */
  function IsFrameCondensed(h: Host): (r: bool)
    ensures h.maximized ==> r
    ensures h.fullscreen ==> r
    ensures !h.maximized && !h.fullscreen ==> !r
  {
    h.maximized || h.fullscreen
  }

  /** The restored border: the same 4 px on every side. */
  function RestoredFrameBorderInsets(): (r: Insets)
    ensures r.top == r.left == r.bottom == r.right == kFrameBorderThickness
  {
    UniformInsets(kFrameBorderThickness)
  }

  /** The 3D frame edge: 2 px on top, 1 px on the other sides. */
  function RestoredFrameEdgeInsets(): (r: Insets)
    ensures r.top == 2 && r.left == r.bottom == r.right == 1
  {
    Insets(kTopFrameEdgeThickness, kSideFrameEdgeThickness,
           kSideFrameEdgeThickness, kSideFrameEdgeThickness)
  }

  /** Insets from the window edge to the client view. The border vanishes
      exactly when the caller does not force the restored look and the frame
      is condensed; otherwise it is the same restored thickness on every side. */
  function FrameBorderInsets(h: Host, restored: bool): (r: Insets)
    ensures r == ZeroInsets() <==> !restored && IsFrameCondensed(h)
    ensures r == ZeroInsets() || r == UniformInsets(kFrameBorderThickness)
    ensures r.top == r.left == r.bottom == r.right >= 0
  {
    if !restored && IsFrameCondensed(h) then ZeroInsets() else RestoredFrameBorderInsets()
  }

  /** Thickness of the top frame edge: no edge at all when condensed and not
      forced restored, otherwise the border plus the extra top thickness. */
  function FrameTopBorderThickness(h: Host, restored: bool): (r: int)
    ensures r == 0 <==> !restored && IsFrameCondensed(h)
    ensures r != 0 ==> r == FrameBorderInsets(h, restored).top + kNonClientExtraTopThickness
    ensures r == 0 || r == kFrameBorderThickness + kNonClientExtraTopThickness
  {
    var thickness := FrameBorderInsets(h, restored).top;
    if (restored || !IsFrameCondensed(h)) && thickness > 0
    then thickness + kNonClientExtraTopThickness
    else thickness
  }

  /** The icon follows the font height but is never smaller than 16 px. */
  function GetIconSize(fontHeight: nat): (r: nat)
    ensures r >= kIconMinimumSize && r >= fontHeight
    ensures r == kIconMinimumSize || r == fontHeight
  {
    if fontHeight > kIconMinimumSize then fontHeight else kIconMinimumSize
  }

  function FrameEdgeTop(h: Host, restored: bool): nat {
    if restored then h.edgeTopRestored else h.edgeTopCurrent
  }

  function DefaultCaptionButtonY(h: Host, restored: bool): nat {
    if restored then h.captionYRestored else h.captionYCurrent
  }

  /** Height of the row holding the icon: edge, icon and padding. */
  function IconRowHeight(h: Host, restored: bool): int {
    FrameEdgeTop(h, restored) + GetIconSize(h.fontHeight) + kVerticalPadding
  }

  /** Height of the row holding the caption buttons. */
  function CaptionRowHeight(h: Host, restored: bool): int {
    DefaultCaptionButtonY(h, restored) + h.captionButtonHeight + kCaptionButtonBottomPadding
  }

  /** Height of the title bar area: the taller of the two rows, plus the
      content edge shadow. It is the least value that clears both rows. */
  function NonClientTopHeight(h: Host, restored: bool): (r: int)
    ensures r >= IconRowHeight(h, restored) + kContentEdgeShadowThickness
    ensures r >= CaptionRowHeight(h, restored) + kContentEdgeShadowThickness
    ensures r == IconRowHeight(h, restored) + kContentEdgeShadowThickness ||
            r == CaptionRowHeight(h, restored) + kContentEdgeShadowThickness
    ensures r >= kIconMinimumSize + kVerticalPadding + kContentEdgeShadowThickness
  {
    var iconHeight := IconRowHeight(h, restored);
    var captionHeight := CaptionRowHeight(h, restored);
    (if iconHeight > captionHeight then iconHeight else captionHeight) + kContentEdgeShadowThickness
  }

  /** Growing the font or the caption buttons never shrinks the title bar. */
  lemma NonClientTopHeightMonotone(h: Host, h': Host, restored: bool)
    requires h' == h.(fontHeight := h'.fontHeight, captionButtonHeight := h'.captionButtonHeight)
    requires h.fontHeight <= h'.fontHeight && h.captionButtonHeight <= h'.captionButtonHeight
    ensures NonClientTopHeight(h, restored) <= NonClientTopHeight(h', restored)
  {
  }

  /** The restored border ignores the window's mode entirely. */
  lemma RestoredInsetsIgnoreMode(h: Host, h': Host)
    ensures FrameBorderInsets(h, true) == FrameBorderInsets(h', true) == UniformInsets(kFrameBorderThickness)
  {
  }

  /** Bounds of the client view inside a frame view of the host's size. With a
      custom title bar the client view fills the view minus the border, and a
      size that would go negative becomes zero; otherwise the base frameless
      view decides (`baseBounds`). */
  function GetBoundsForClientView(h: Host, baseBounds: Rect): (r: Rect)
    ensures !h.customTitlebar ==> r == baseBounds
    ensures h.customTitlebar && IsFrameCondensed(h) ==>
              r == Rect(0, 0, h.viewWidth, h.viewHeight)
    ensures h.customTitlebar && !IsFrameCondensed(h) ==>
              r == Rect(kFrameBorderThickness, kFrameBorderThickness,
                        ClampToZero(h.viewWidth - (kFrameBorderThickness + kFrameBorderThickness)),
                        ClampToZero(h.viewHeight - (kFrameBorderThickness + kFrameBorderThickness)))
  {
    if h.customTitlebar then
      var borderThickness := FrameBorderInsets(h, false);
      var topHeight := borderThickness.top;
      Rect(borderThickness.left, topHeight,
           ClampToZero(h.viewWidth - (borderThickness.left + borderThickness.right)),
           ClampToZero(h.viewHeight - topHeight - borderThickness.bottom))
    else
      baseBounds
  }

  /** When the view is at least as large as its border, the custom client
      view sits inside it and leaves exactly the border on every side. */
  lemma ClientViewLeavesBorder(h: Host, baseBounds: Rect)
    requires h.customTitlebar
    requires var b := FrameBorderInsets(h, false); h.viewWidth >= b.left + b.right
    requires var b := FrameBorderInsets(h, false); h.viewHeight >= b.top + b.bottom
    ensures var r := GetBoundsForClientView(h, baseBounds);
            var b := FrameBorderInsets(h, false);
            Rect(0, 0, h.viewWidth, h.viewHeight).Encloses(r) &&
            r.x == b.left && h.viewWidth - r.Right() == b.right &&
            r.y == b.top && h.viewHeight - r.Bottom() == b.bottom
  {
  }

  /** Window bounds needed for the given client bounds. With a custom title
      bar the window grows by the side borders, the title bar height and the
      bottom border, and its origin is clamped at zero; otherwise the base
      frameless view decides (`baseBounds`). */
  function GetWindowBoundsForClientBounds(h: Host, client: Rect, baseBounds: Rect): (r: Rect)
    ensures !h.customTitlebar ==> r == baseBounds
    ensures h.customTitlebar ==> r.x >= 0 && r.y >= 0
    ensures h.customTitlebar ==> r.x == ClampToZero(client.x - FrameBorderInsets(h, false).left)
    ensures h.customTitlebar ==> r.y == ClampToZero(client.y - NonClientTopHeight(h, false))
    ensures h.customTitlebar ==>
              var b := FrameBorderInsets(h, false); r.width == client.width + b.left + b.right
    ensures h.customTitlebar ==>
              r.height == client.height + NonClientTopHeight(h, false) + FrameBorderInsets(h, false).bottom
  {
    if h.customTitlebar then
      Outset(client, NonClientTopHeight(h, false), FrameBorderInsets(h, false))
    else
      baseBounds
  }

  /** When the client rectangle is far enough from the origin that no clamping
      occurs, the window rectangle encloses it with the side borders, the
      title bar and the bottom border as the exact margins. */
  lemma WindowBoundsEncloseClient(h: Host, client: Rect, baseBounds: Rect)
    requires h.customTitlebar
    requires client.x >= FrameBorderInsets(h, false).left
    requires client.y >= NonClientTopHeight(h, false)
    ensures var r := GetWindowBoundsForClientBounds(h, client, baseBounds);
            var b := FrameBorderInsets(h, false);
            r.Encloses(client) &&
            client.x - r.x == b.left && r.Right() - client.Right() == b.right &&
            client.y - r.y == NonClientTopHeight(h, false) &&
            r.Bottom() - client.Bottom() == b.bottom
  {
  }

  /** The two conversions are not inverse: the client view is placed below
      the top border only, while the window bounds add the whole title bar
      height. Going from the view to its client rectangle and back keeps the
      origin and the width but makes the window taller by the title bar
      height minus the top border. */
  lemma ClientWindowConversionsDifferInHeight(h: Host, base1: Rect, base2: Rect)
    requires h.customTitlebar
    requires var b := FrameBorderInsets(h, false); h.viewWidth >= b.left + b.right
    requires var b := FrameBorderInsets(h, false); h.viewHeight >= b.top + b.bottom
    ensures var w := GetWindowBoundsForClientBounds(h, GetBoundsForClientView(h, base1), base2);
            w.x == 0 && w.y == 0 && w.width == h.viewWidth &&
            w.height == h.viewHeight + NonClientTopHeight(h, false) - FrameBorderInsets(h, false).top &&
            w.height > h.viewHeight
  {
  }
}
