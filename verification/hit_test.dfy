/** The hit-test resolver: which window-manager region a point of the frame
    falls in. The caption buttons are tried in a fixed priority order before
    the placeholder container, and the base frameless view answers last. */
module HitTest {
  import opened Wrappers
  import opened Geometry
  import opened FrameGeometry
  import opened FrameView

  /** Hit-test verdicts. `HTOther` stands for every other verdict the base
      frameless view may return (borders, client area, nowhere, ...). */
  datatype HitCode = HTClose | HTMaxButton | HTMinButton | HTCaption | HTOther(code: int)

  /** A button takes part in hit-testing only if it exists and is visible. */
  function ButtonTarget(b: Option<ImageButton>): Option<Rect> {
    if b.Some? && b.value.visible then Some(b.value.bounds) else None
  }

  /** The point falls on an existing, visible button: a null or hidden button
      is never hit, and a visible one is hit exactly on its bounds. */
  function HitTestCaptionButton(b: Option<ImageButton>, p: Point): (r: bool)
    ensures r ==> b.Some? && b.value.visible
    ensures b.Some? && b.value.visible ==> (r <==> b.value.bounds.Contains(p))
  {
    b.Some? && b.value.visible && b.value.bounds.Contains(p)
  }

  /** Resolves a point with the custom caption buttons first: close, then
      restore, then maximize (both as the maximize verdict), then minimize,
      then the placeholder container as draggable caption when the overlay is
      enabled; otherwise, or when the title bar is not drawn by this view, the
      base view's verdict `base` stands. */
  function NonClientHitTest(h: Host, v: View, p: Point, base: HitCode): (r: HitCode)
    ensures !h.customTitlebar ==> r == base
    ensures h.customTitlebar && HitTestCaptionButton(v.closeButton, p) ==> r == HTClose
    ensures r != base ==> h.customTitlebar && r in {HTClose, HTMaxButton, HTMinButton, HTCaption}
  {
    if h.customTitlebar && HitTestCaptionButton(v.closeButton, p) then HTClose
    else if h.customTitlebar && HitTestCaptionButton(v.restoreButton, p) then HTMaxButton
    else if h.customTitlebar && HitTestCaptionButton(v.maximizeButton, p) then HTMaxButton
    else if h.customTitlebar && HitTestCaptionButton(v.minimizeButton, p) then HTMinButton
    else if h.customTitlebar && h.overlayEnabled && v.container.Some? &&
            v.container.value.bounds.Contains(p) then HTCaption
    else base
  }

  // ---------------------------------------------------------------------
  // Reference definition: a first-match search over a priority list.
  // ---------------------------------------------------------------------

  /** One entry of a priority list: a region that may be absent, and the
      verdict it yields. */
  datatype Candidate = Candidate(target: Option<Rect>, verdict: HitCode)

  predicate Hits(c: Candidate, p: Point) {
    c.target.Some? && c.target.value.Contains(p)
  }

  /** The source's button test and the reference candidate agree: a button
      is hit exactly when its hit-test target exists and holds the point,
      whatever verdict the candidate carries. */
  lemma HitTestCaptionButtonAgreesWithTarget(b: Option<ImageButton>, p: Point, verdict: HitCode)
    ensures HitTestCaptionButton(b, p) <==> Hits(Candidate(ButtonTarget(b), verdict), p)
  {
  }

  /** Index of the first candidate whose region holds the point, if any. */
  function FirstHit(cs: seq<Candidate>, p: Point): (r: Option<nat>)
    ensures r.Some? ==> r.value < |cs| && Hits(cs[r.value], p)
    ensures r.Some? ==> forall j :: 0 <= j < r.value ==> !Hits(cs[j], p)
    ensures r.None? ==> forall j :: 0 <= j < |cs| ==> !Hits(cs[j], p)
    decreases |cs|
  {
    if |cs| == 0 then None
    else if Hits(cs[0], p) then Some(0)
    else
      match FirstHit(cs[1..], p)
      case None => None
      case Some(i) => Some(i + 1)
  }

  /** The verdict of the first candidate holding the point, else `fallback`. */
  function FirstMatch(cs: seq<Candidate>, p: Point, fallback: HitCode): HitCode {
    match FirstHit(cs, p)
    case None => fallback
    case Some(i) => cs[i].verdict
  }

  /** The frame's priority list: close, restore, maximize, minimize, and the
      placeholder container when the overlay is enabled. */
  function Candidates(h: Host, v: View): seq<Candidate> {
    [ Candidate(ButtonTarget(v.closeButton), HTClose),
      Candidate(ButtonTarget(v.restoreButton), HTMaxButton),
      Candidate(ButtonTarget(v.maximizeButton), HTMaxButton),
      Candidate(ButtonTarget(v.minimizeButton), HTMinButton),
      Candidate(if h.overlayEnabled && v.container.Some? then Some(v.container.value.bounds) else None,
                HTCaption) ]
  }

  /** The resolver is exactly the first-match search over the priority list,
      with the base verdict as fallback, whenever the title bar is drawn by
      this view. */
  lemma HitTestIsFirstMatch(h: Host, v: View, p: Point, base: HitCode)
    requires h.customTitlebar
    ensures NonClientHitTest(h, v, p, base) == FirstMatch(Candidates(h, v), p, base)
  {
    var cs := Candidates(h, v);
    HitTestCaptionButtonAgreesWithTarget(v.closeButton, p, HTClose);
    HitTestCaptionButtonAgreesWithTarget(v.restoreButton, p, HTMaxButton);
    HitTestCaptionButtonAgreesWithTarget(v.maximizeButton, p, HTMaxButton);
    HitTestCaptionButtonAgreesWithTarget(v.minimizeButton, p, HTMinButton);
    if Hits(cs[0], p) {
      FirstMatchIsPriority(cs, p, base, 0);
    } else if Hits(cs[1], p) {
      FirstMatchIsPriority(cs, p, base, 1);
    } else if Hits(cs[2], p) {
      FirstMatchIsPriority(cs, p, base, 2);
    } else if Hits(cs[3], p) {
      FirstMatchIsPriority(cs, p, base, 3);
    } else if Hits(cs[4], p) {
      FirstMatchIsPriority(cs, p, base, 4);
    } else {
      assert forall j :: 0 <= j < |cs| ==> !Hits(cs[j], p);
    }
  }

  /** First match is strict priority: a candidate holding the point that no
      earlier candidate holds decides the verdict. */
  lemma FirstMatchIsPriority(cs: seq<Candidate>, p: Point, fallback: HitCode, i: nat)
    requires i < |cs| && Hits(cs[i], p)
    requires forall j :: 0 <= j < i ==> !Hits(cs[j], p)
    ensures FirstMatch(cs, p, fallback) == cs[i].verdict
  {
  }

  /** The fallback is used exactly when no candidate holds the point. */
  lemma FirstMatchFallsBack(cs: seq<Candidate>, p: Point, fallback: HitCode)
    requires forall j :: 0 <= j < |cs| ==> !Hits(cs[j], p)
    ensures FirstMatch(cs, p, fallback) == fallback
  {
  }

  /** A point on several overlapping buttons resolves to the highest-priority
      one: close over everything, restore or maximize over minimize. */
  lemma OverlapResolvesByPriority(h: Host, v: View, p: Point, base: HitCode)
    requires h.customTitlebar
    ensures HitTestCaptionButton(v.closeButton, p) ==> NonClientHitTest(h, v, p, base) == HTClose
    ensures !HitTestCaptionButton(v.closeButton, p) &&
            (HitTestCaptionButton(v.restoreButton, p) || HitTestCaptionButton(v.maximizeButton, p)) ==>
              NonClientHitTest(h, v, p, base) == HTMaxButton
    ensures !HitTestCaptionButton(v.closeButton, p) && !HitTestCaptionButton(v.restoreButton, p) &&
            !HitTestCaptionButton(v.maximizeButton, p) && HitTestCaptionButton(v.minimizeButton, p) ==>
              NonClientHitTest(h, v, p, base) == HTMinButton
  {
  }

  /** A caption verdict the base view did not give needs the overlay enabled
      and an existing container that holds the point, with no button on it. */
  lemma CaptionNeedsOverlayAndContainer(h: Host, v: View, p: Point, base: HitCode)
    requires NonClientHitTest(h, v, p, base) == HTCaption && base != HTCaption
    ensures h.customTitlebar && h.overlayEnabled && v.container.Some?
    ensures v.container.value.bounds.Contains(p)
    ensures !HitTestCaptionButton(v.closeButton, p) && !HitTestCaptionButton(v.minimizeButton, p)
    ensures !HitTestCaptionButton(v.restoreButton, p) && !HitTestCaptionButton(v.maximizeButton, p)
  {
  }

  /** An absent button and an invisible one are alike to the resolver. */
  lemma InvisibleButtonIsAbsent(h: Host, v: View, b: ImageButton, p: Point, base: HitCode)
    requires !b.visible
    ensures NonClientHitTest(h, v.(closeButton := Some(b)), p, base) == NonClientHitTest(h, v.(closeButton := None), p, base)
    ensures NonClientHitTest(h, v.(restoreButton := Some(b)), p, base) == NonClientHitTest(h, v.(restoreButton := None), p, base)
    ensures NonClientHitTest(h, v.(maximizeButton := Some(b)), p, base) == NonClientHitTest(h, v.(maximizeButton := None), p, base)
    ensures NonClientHitTest(h, v.(minimizeButton := Some(b)), p, base) == NonClientHitTest(h, v.(minimizeButton := None), p, base)
  {
  }

  /** With no button and no container the base verdict always stands. */
  lemma NothingCreatedFallsThrough(h: Host, v: View, p: Point, base: HitCode)
    requires v.closeButton.None? && v.restoreButton.None? && v.maximizeButton.None? &&
             v.minimizeButton.None? && v.container.None?
    ensures NonClientHitTest(h, v, p, base) == base
  {
  }

  /** Resetting the button states does not move any hit region. */
  lemma ResetKeepsHitTest(h: Host, v: View, p: Point, base: HitCode)
    ensures NonClientHitTest(h, ResetWindowControls(v), p, base) == NonClientHitTest(h, v, p, base)
  {
  }

  /** A new ordering takes effect only at the next layout: until then every
      hit region stays where it was. */
  lemma OrderingChangeKeepsHitTest(h: Host, v: View, leading: seq<FrameButton>, trailing: seq<FrameButton>,
                                   p: Point, base: HitCode)
    ensures NonClientHitTest(h, OnWindowButtonOrderingChange(v, leading, trailing), p, base) ==
            NonClientHitTest(h, v, p, base)
  {
  }
}
