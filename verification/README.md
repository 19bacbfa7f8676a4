# Opaque frame view: geometry and hit-testing

A Dafny model of the integer geometry and hit-test logic of `OpaqueFrameView`.
This is the custom-drawn window frame of the Electron shell. The model covers:

- **Frame insets.** The frame is *condensed* when the window is maximized or
  fullscreen. The border is 4 px on every side, and it vanishes when the frame
  is condensed and the caller does not force the restored look. The top frame
  edge adds 1 px of extra thickness.
- **Title bar height.** `NonClientTopHeight` is the taller of the icon row and
  the caption-button row, plus the 2 px content-edge shadow. The icon is never
  smaller than 16 px.
- **Rectangle conversions.** One conversion goes from the view to its client
  rectangle. The other goes from a client rectangle to window bounds.
- **Hit-test resolver.** The priority is close, then restore or maximize (both
  give the maximize verdict), then minimize, then the placeholder container as
  caption, then the base view's verdict. It is written as the source's if-chain
  (`HitTest.NonClientHitTest`). It is proved equal to an independent first-match
  search over a priority list (`HitTest.FirstHit`, `HitTest.FirstMatch`).
- **Layout.** The placeholder container's bounds come from the layout cursor.
  The window controls overlay rectangle comes from the container and the view
  width.
- **View state.** The model covers the four caption buttons and the placeholder
  container, each of which may be absent. It also covers the two button-order
  lists, the layout cursor, the reset of the button states, the ordering-change
  handler, and the mapping from button states to the states the image provider
  draws.

Modules: `Wrappers` (`Option`), `Geometry` (points, rectangles, insets),
`FrameGeometry` (constants, host inputs, insets, heights, conversions),
`FrameView` (view state and its small operations), `HitTest`, `FrameLayout`.

Some inputs are computed by code that is not part of this model. They are
fields of the `FrameGeometry.Host` record:
- the window's maximized and fullscreen flags;
- whether this view draws the title bar (`ShouldCustomDrawSystemTitlebar`);
- whether the window controls overlay is enabled;
- the view size;
- the font line height and `kCaptionButtonHeight`;
- `FrameEdgeInsets(restored).top()` and `DefaultCaptionButtonY(restored)`, each
  given by its value for `restored == true` and for `restored == false`
  (`FrameEdgeInsets` is not part of this model; `FrameGeometry.RestoredFrameEdgeInsets`
  gives the restored edge it is built from, but `Host.edgeTopRestored` is not
  tied to it);
- the titlebar overlay height the window asks for.

The base frameless view's answers to the same three questions are passed in
as opaque arguments (`baseBounds`, `base`).

Rectangles follow the gfx library's convention. Width and height are never
negative: `Geometry.MakeRect` turns a negative extent into 0, as a gfx size
does when built. Containment is half-open.

Some source text does not compile as written. The model uses its evident
reading:
- a comma is missing between parameters at shell/browser/ui/views/opaque_frame_view.cc:104
  and between arguments at shell/browser/ui/views/opaque_frame_view.cc:138;
- `button.type` at shell/browser/ui/views/opaque_frame_view.cc:113 is a stray
  expression inside the image loop, which is not modelled;
- bare `width`/`height` at shell/browser/ui/views/opaque_frame_view.cc:191-192
  are read as the view's `width()`/`height()` (`Host.viewWidth`, `Host.viewHeight`);
- the constants are defined with an `OpaqueFrameViewLayout::` qualifier at
  shell/browser/ui/views/opaque_frame_view.cc:50-74, but declared in `OpaqueFrameView`.
  They are modelled with the values given;
- `IsFrameCondensed` is declared twice (shell/browser/ui/views/opaque_frame_view.h:57
  and :91). It is also non-const but called from const members. It is modelled
  once, as a pure function;
- `IsMaximized()` at shell/browser/ui/views/opaque_frame_view.cc:268 is not
  declared in shell/browser/ui/views/opaque_frame_view.h. It is read as the
  widget's maximized flag (`Host.maximized`), the one `frame()->IsMaximized()`
  reads at shell/browser/ui/views/opaque_frame_view.cc:143.

`Init` creates the placeholder container and the buttons only when the OS
draws the title bar (opaque_frame_view.cc:87-99). But `Layout` and the
hit-test use the container and the buttons only when this view draws the title
bar. The model keeps the source's behaviour as `FrameView.InitAsWritten` and
uses the corrected `FrameView.Init` everywhere else (see Findings).

`Layout` dereferences the container without a null check at
opaque_frame_view.cc:255. The model follows the code: `FrameLayout.Layout`
requires the container whenever the title bar is custom-drawn. This is the
one place that may assume the container, since it runs only in the mode where
the corrected `Init` creates it.

`LayoutWindowControlsOverlay` reads the container's size without a null check
at opaque_frame_view.cc:269-272. The method is private and not virtual
(opaque_frame_view.h:73, :99), and no member of `OpaqueFrameView` calls it, so
the defect is latent: a caller added in a mode without a container would
dereference null. The model keeps the source's
version as `FrameLayout.LayoutWindowControlsOverlayAsWritten`, which requires
the container. The rest of the model uses the guarded
`FrameLayout.LayoutWindowControlsOverlay`, which publishes no rectangle when
there is no container (see Findings).

`ResetWindowControls` dereferences the restore, minimize and maximize buttons
without a null check at opaque_frame_view.cc:238-240, in every title-bar mode.
The model keeps that as `FrameView.ResetWindowControlsAsWritten`, which
requires the three buttons. The rest of the model uses the guarded
`FrameView.ResetWindowControls`, which leaves an absent button absent (see
Findings).

## Model

| member | source | states |
|---|---|---|
| FrameGeometry.IsFrameCondensed | shell/browser/ui/views/opaque_frame_view.cc:142-144 | the frame is condensed when the window is maximized, when it is fullscreen, and in no other mode |
| FrameGeometry.FrameBorderInsets | shell/browser/ui/views/opaque_frame_view.cc:173-176 | insets are zero exactly when not forced restored and the frame is condensed (maximized or fullscreen); otherwise uniformly 4 px; always equal on all four sides |
| FrameGeometry.RestoredFrameBorderInsets | shell/browser/ui/views/opaque_frame_view.cc:146-148 | the restored border is 4 px on each of the four sides |
| FrameGeometry.RestoredInsetsIgnoreMode | shell/browser/ui/views/opaque_frame_view.cc:146-148 | the restored border is the same uniform 4 px whatever the window's mode |
| FrameGeometry.RestoredFrameEdgeInsets | shell/browser/ui/views/opaque_frame_view.cc:150-153 | the restored frame edge is 2 px on top and 1 px on the other sides |
| FrameGeometry.FrameTopBorderThickness | shell/browser/ui/views/opaque_frame_view.cc:178-183 | zero exactly when condensed and not forced restored; otherwise border top plus the 1 px extra; never any value but 0 or 5 |
| FrameGeometry.GetIconSize | shell/browser/ui/views/opaque_frame_view.cc:281-285 | the icon is at least 16 and at least the font height, and equals one of them |
| FrameGeometry.NonClientTopHeight | shell/browser/ui/views/opaque_frame_view.cc:159-171 | the height clears the icon row and the caption row by the 2 px shadow and equals one of the two; it is at least 20 |
| FrameGeometry.NonClientTopHeightMonotone | shell/browser/ui/views/opaque_frame_view.cc:159-171 | a taller font or taller caption buttons never give a lower title bar |
| FrameGeometry.GetBoundsForClientView | shell/browser/ui/views/opaque_frame_view.cc:185-196 | custom title bar: the whole view when condensed, else (4, 4, max(0, w-8), max(0, h-8)); otherwise the base view's bounds unchanged |
| FrameGeometry.ClientViewLeavesBorder | shell/browser/ui/views/opaque_frame_view.cc:185-196 | when the view is larger than its border, the client view lies inside it and leaves exactly the border insets on every side |
| FrameGeometry.GetWindowBoundsForClientBounds | shell/browser/ui/views/opaque_frame_view.cc:198-211 | custom title bar: origin clamped to be non-negative; width grows by the side borders and height by title bar height plus bottom border; otherwise the base view's bounds unchanged |
| FrameGeometry.WindowBoundsEncloseClient | shell/browser/ui/views/opaque_frame_view.cc:198-211 | when no clamping occurs the window encloses the client rectangle with margins exactly left, right, title bar height and bottom |
| FrameGeometry.ClientWindowConversionsDifferInHeight | shell/browser/ui/views/opaque_frame_view.cc:185-211 | view to client to window keeps origin (0, 0) and width but is taller than the view by title bar height minus top border, so the two conversions are not inverse |
| FrameView.ButtonStateToNavButtonProviderState | shell/browser/ui/views/opaque_frame_view.cc:23-40 | the mapping is total and the reverse mapping recovers the button state |
| FrameView.ButtonStateMappingIsBijective | shell/browser/ui/views/opaque_frame_view.cc:23-40 | every provider state is reached by exactly one button state |
| FrameView.InitialView | shell/browser/ui/views/opaque_frame_view.h:101-132 | before initialisation: no buttons, no container, leading order empty, trailing order minimize, maximize, close, and the cursor zeroed |
| FrameView.InitAsWritten | shell/browser/ui/views/opaque_frame_view.cc:84-100 | as written, the container and buttons exist exactly when the title bar is NOT custom-drawn |
| FrameView.Init | shell/browser/ui/views/opaque_frame_view.cc:84-100 | corrected: container and all four buttons exist exactly when the title bar is custom-drawn; order and cursor keep their defaults |
| FrameView.ResetWindowControlsAsWritten | shell/browser/ui/views/opaque_frame_view.cc:236-242 | as written: needs restore, minimize and maximize to exist; puts those three into the normal state; close keeps its state; nothing else changes |
| FrameView.ResetWindowControls | shell/browser/ui/views/opaque_frame_view.cc:236-242 | corrected: defined for every view; each of restore, minimize and maximize that exists goes to the normal state and an absent one stays absent; close keeps its state; nothing else changes |
| FrameView.ResetWindowControlsExtendsAsWritten | shell/browser/ui/views/opaque_frame_view.cc:236-242 | wherever the as-written reset is defined, the guarded reset gives the same view |
| FrameView.ResetAsWrittenFailsAfterInit | shell/browser/ui/views/opaque_frame_view.cc:238-240 | after the corrected `Init` with an OS-drawn title bar, and after the as-written `Init` with a custom-drawn one, a button the as-written reset dereferences is null |
| FrameView.ResetAfterInitIsNoOp | shell/browser/ui/views/opaque_frame_view.cc:236-242 | after either `Init`, in either title-bar mode, the guarded reset is defined and leaves the view unchanged |
| FrameView.ResetWindowControlsIdempotent | shell/browser/ui/views/opaque_frame_view.cc:236-242 | resetting twice equals resetting once |
| FrameView.ResetLeavesCloseHovered | shell/browser/ui/views/opaque_frame_view.cc:236-242 | with all four buttons hovered, a reset leaves close alone hovered and the rest normal |
| FrameView.OnWindowButtonOrderingChange | shell/browser/ui/views/opaque_frame_view.cc:244-248 | both order lists are replaced wholesale by the provider's lists and nothing else changes |
| FrameView.LatestOrderingWins | shell/browser/ui/views/opaque_frame_view.cc:244-248 | two ordering changes in a row equal the second alone |
| HitTest.HitTestCaptionButton | shell/browser/ui/views/opaque_frame_view.cc:42-45 | a null or hidden button is never hit; a visible button is hit exactly when its bounds hold the point |
| HitTest.HitTestCaptionButtonAgreesWithTarget | shell/browser/ui/views/opaque_frame_view.cc:42-45 | the source's button test holds exactly when the button's hit-test target exists and holds the point |
| HitTest.NonClientHitTest | shell/browser/ui/views/opaque_frame_view.cc:213-234 | without a custom title bar the base verdict stands; a hit on the close button always wins; any other verdict than the base one is a caption-area verdict and needs a custom title bar |
| HitTest.FirstHit | shell/browser/ui/views/opaque_frame_view.cc:213-234 | the first index whose region holds the point, with no earlier one holding it; none only when no region holds it |
| HitTest.HitTestIsFirstMatch | shell/browser/ui/views/opaque_frame_view.cc:213-234 | with a custom title bar the resolver equals first-match over close, restore, maximize, minimize, overlay container, falling back to the base verdict |
| HitTest.FirstMatchIsPriority | shell/browser/ui/views/opaque_frame_view.cc:213-234 | a candidate that holds the point, with no earlier candidate holding it, decides the verdict |
| HitTest.FirstMatchFallsBack | shell/browser/ui/views/opaque_frame_view.cc:233 | when no candidate holds the point the fallback verdict is returned |
| HitTest.OverlapResolvesByPriority | shell/browser/ui/views/opaque_frame_view.cc:214-222 | on overlapping buttons close beats all, restore or maximize beat minimize, and restore and maximize share the maximize verdict |
| HitTest.CaptionNeedsOverlayAndContainer | shell/browser/ui/views/opaque_frame_view.cc:224-229 | a caption verdict not from the base view needs the overlay enabled and a container that holds the point, with no button hit |
| HitTest.InvisibleButtonIsAbsent | shell/browser/ui/views/opaque_frame_view.cc:42-45 | for each of the four buttons an invisible button yields the same verdict as an absent one |
| HitTest.NothingCreatedFallsThrough | shell/browser/ui/views/opaque_frame_view.cc:213-234 | with no buttons and no container the base verdict always stands |
| HitTest.ResetKeepsHitTest | shell/browser/ui/views/opaque_frame_view.cc:236-242 | resetting the button states changes no hit-test verdict |
| HitTest.OrderingChangeKeepsHitTest | shell/browser/ui/views/opaque_frame_view.cc:244-248 | an ordering change moves no hit region until the next layout |
| FrameLayout.PlaceholderBounds | shell/browser/ui/views/opaque_frame_view.cc:250-258 | container x is the trailing cursor if a trailing button was placed, else 0; y is the top border; width is the buttons' width less side borders, clamped at 0; bottom edge is the title bar height |
| FrameLayout.Layout | shell/browser/ui/views/opaque_frame_view.cc:250-261 | needs the container when the title bar is custom-drawn; then moves only the container to its placeholder bounds; otherwise changes nothing |
| FrameLayout.LayoutIdempotent | shell/browser/ui/views/opaque_frame_view.cc:250-261 | a second layout pass with nothing changed reproduces the same view |
| FrameLayout.InitialPlaceholderAnchoredAtZero | shell/browser/ui/views/opaque_frame_view.h:112-123 | with the zeroed initial cursor the container is anchored at x = 0 and has width 0 |
| FrameLayout.LayoutWindowControlsOverlayAsWritten | shell/browser/ui/views/opaque_frame_view.cc:263-279 | as written: needs the container; origin (0, 0); width is view width less container width, clamped at 0; height is the override if nonzero, else container height plus 1 unless maximized |
| FrameLayout.LayoutWindowControlsOverlay | shell/browser/ui/views/opaque_frame_view.cc:263-279 | corrected: defined for every view; a rectangle exactly when the container exists, and then the same origin, width and height as the as-written step |
| FrameLayout.OverlayExtendsAsWritten | shell/browser/ui/views/opaque_frame_view.cc:263-279 | wherever the as-written overlay step is defined, the guarded one publishes the same rectangle |
| FrameLayout.OverlayAsWrittenFailsAfterInit | shell/browser/ui/views/opaque_frame_view.cc:269-272 | after the corrected `Init` with an OS-drawn title bar (also after a layout pass), and after the as-written `Init` with a custom-drawn one, the as-written step's requirement fails: the container it reads is null |
| FrameLayout.OverlayAfterInit | shell/browser/ui/views/opaque_frame_view.cc:250-279 | after the corrected `Init` and a layout pass, the guarded step publishes a rectangle exactly when the title bar is custom-drawn, at (0, 0) and as wide as the view |
| FrameLayout.OverlayAndContainerSpanView | shell/browser/ui/views/opaque_frame_view.cc:272-275 | when the container fits, overlay width plus container width is the view width |
| FrameLayout.OverlayExample | shell/browser/ui/views/opaque_frame_view.cc:263-279 | view 800 wide and container 138 x 30 give (0, 0, 662, 31) restored and (0, 0, 662, 30) maximized |
| FrameLayout.OverlayHeightAfterLayout | shell/browser/ui/views/opaque_frame_view.cc:250-279 | after a custom-title-bar layout with no override, overlay height is title bar height less top border, plus 1 unless maximized |
| FrameLayout.InitAsWrittenStarvesLayout | shell/browser/ui/views/opaque_frame_view.cc:87-88 | as written, a custom title bar leaves layout without its container and the resolver can only return the base verdict |
| FrameLayout.InitSupportsLayout | shell/browser/ui/views/opaque_frame_view.cc:84-100 | the corrected Init always satisfies layout's requirement, and its first pass puts the container at x = 0 below the top border |

## Left out

- Mirroring: `GetMirroredBounds` and `GetMirroredRect` belong to the views library, which is not part of this model. The model is left-to-right only: a button's mirrored bounds are its bounds, and the overlay rectangle is the one before mirroring.
- Button construction (`CreateImageButton`, `InitButtons`): image models, image-provider bitmaps, focus behaviour, accessible names, view ids and the bound widget callbacks are calls into the toolkit. `Init` only records that the four buttons exist, visible and in the normal state.
- `PaintAsActiveChanged`, `OnThemeChanged`, `UpdateCaptionButtonPlaceholderContainerBackground` and the paint-active subscription set colours and observers only.
- The base class: `FramelessView::NonClientHitTest`, `GetBoundsForClientView`, `GetWindowBoundsForClientBounds` and `LayoutSuperclass<FramelessView>` are not part of this model. Their results are opaque arguments. `NonClientFrameView::ResetWindowControls` is not modelled either.
- The button placement pass that fills the layout cursor is not part of this model. The cursor is an input, and no claim about non-overlapping or ordered button rectangles is made.
- Which of restore and maximize is visible is set by code outside this model. The model takes visibility as part of each button, so it does not prove that exactly one of the two is visible.
- `SetWindowControlsOverlayRect` and `NotifyLayoutWindowControlsOverlay` publish to the window. They are modelled as the returned rectangle.
- Integer width: values are unbounded. The int overflow that gfx rectangles guard against is not modelled.
- `kResizeOutsideBorderSize`, `kResizeInsideBoundsSize`, `kIconLeftSpacing`, `kIconTitleSpacing` and `kCaptionSpacing` are not used by any modelled operation.
- The `NOTREACHED` branch of the button-state mapping is for the `STATE_COUNT` sentinel, which is not a state. The model's button state has only the four real states.

## Findings

| source | as written | input that shows it | evidently intended | confidence | as-written member | corrected member |
|---|---|---|---|---|---|---|
| shell/browser/ui/views/opaque_frame_view.cc:87-99 | `Init` returns early when the title bar is custom-drawn, so the container and buttons are created only when it is not | any window whose title bar is custom-drawn: the first `Layout` dereferences the null container at line 255, and the hit-test never sees a button | create the container and buttons exactly when the title bar is custom-drawn, which is when `Layout` and `NonClientHitTest` use them; the code that runs in both modes (`ResetWindowControls`, next row) must then check for null buttons | medium, not executed | FrameLayout.InitAsWrittenStarvesLayout | FrameLayout.InitSupportsLayout |
| shell/browser/ui/views/opaque_frame_view.cc:238-240 | `ResetWindowControls` sets the state of the restore, minimize and maximize buttons without checking that they exist | any window whose `Init` created no buttons: a custom-drawn title bar with `Init` as written, or an OS-drawn one with `Init` corrected; the first reset dereferences a null button | reset only the buttons that exist, as `HitTestCaptionButton` checks for null before using a button | medium, not executed | FrameView.ResetAsWrittenFailsAfterInit | FrameView.ResetAfterInitIsNoOp |
| shell/browser/ui/views/opaque_frame_view.cc:269-272 | `LayoutWindowControlsOverlay` reads the container's size without checking that it exists | none as written: the method has no caller. A caller added in a mode without a container (a custom-drawn title bar with `Init` as written, or an OS-drawn one with `Init` corrected) would dereference null | publish an overlay rectangle only when the container exists, as the hit-test (line 225) and the background update (line 298) check for it | low, latent, not executed | FrameLayout.OverlayAsWrittenFailsAfterInit | FrameLayout.OverlayAfterInit |
