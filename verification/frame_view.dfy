/** The frame view's own state: the four caption buttons and their visual
    states, the placeholder container beneath them, the leading/trailing
    button order, and the layout cursor; plus the small operations that
    create or update that state. */
module FrameView {
  import opened Wrappers
  import opened Geometry
  import opened FrameGeometry

  /** A button's visual state. The toolkit's sentinel `STATE_COUNT` is not a
      state and has no constructor here. */
  datatype ButtonState = StateNormal | StateHovered | StatePressed | StateDisabled

  /** The state the button-image provider is asked to draw. */
  datatype NavButtonState = NavNormal | NavHovered | NavPressed | NavDisabled

  /** Each button state is drawn with the provider state of the same name. */
  function ButtonStateToNavButtonProviderState(s: ButtonState): (r: NavButtonState)
    ensures NavButtonProviderStateToButtonState(r) == s
  {
    match s
    case StateNormal => NavNormal
    case StateHovered => NavHovered
    case StatePressed => NavPressed
    case StateDisabled => NavDisabled
  }

  /** The reverse reading of the same correspondence. */
  function NavButtonProviderStateToButtonState(n: NavButtonState): ButtonState {
    match n
    case NavNormal => StateNormal
    case NavHovered => StateHovered
    case NavPressed => StatePressed
    case NavDisabled => StateDisabled
  }

  /** The mapping is a bijection: every provider state is reached, by exactly
      one button state. */
  lemma ButtonStateMappingIsBijective(s: ButtonState, t: ButtonState, n: NavButtonState)
    ensures ButtonStateToNavButtonProviderState(NavButtonProviderStateToButtonState(n)) == n
    ensures ButtonStateToNavButtonProviderState(s) == ButtonStateToNavButtonProviderState(t) ==> s == t
  {
  }

  /** A caption button as far as layout and hit-testing see it. */
  datatype ImageButton = ImageButton(visible: bool, bounds: Rect, state: ButtonState)

  /** The kinds of button a platform ordering may place. */
  datatype FrameButton = Minimize | Maximize | Close

  /** The placeholder container reserved beneath the caption buttons. */
  datatype Placeholder = Placeholder(bounds: Rect)

  /** Where the button placement pass left off: which sides got a button,
      the x positions still free on each side, and the width the buttons
      need. */
  datatype LayoutCursor = LayoutCursor(
    placedLeadingButton: bool,
    placedTrailingButton: bool,
    availableSpaceLeadingX: int,
    availableSpaceTrailingX: int,
    minimumSizeForButtons: int)

  /** The frame view. Every button and the container is a pointer that stays
      null until it is created. */
  datatype View = View(
    minimizeButton: Option<ImageButton>,
    maximizeButton: Option<ImageButton>,
    restoreButton: Option<ImageButton>,
    closeButton: Option<ImageButton>,
    leadingButtons: seq<FrameButton>,
    trailingButtons: seq<FrameButton>,
    cursor: LayoutCursor,
    container: Option<Placeholder>)

  /** The default platform ordering: nothing leading; minimize, maximize and
      close trailing. */
  const DefaultTrailingButtons: seq<FrameButton> := [Minimize, Maximize, Close]

  /** The view as its member initialisers leave it, before `Init`. */
  function InitialView(): (r: View)
    ensures r.leadingButtons == [] && r.trailingButtons == DefaultTrailingButtons
    ensures !r.cursor.placedLeadingButton && !r.cursor.placedTrailingButton
    ensures r.cursor.availableSpaceLeadingX == 0 && r.cursor.availableSpaceTrailingX == 0
    ensures r.cursor.minimumSizeForButtons == 0
    ensures r.minimizeButton.None? && r.maximizeButton.None? &&
            r.restoreButton.None? && r.closeButton.None? && r.container.None?
  {
    View(None, None, None, None, [], DefaultTrailingButtons,
         LayoutCursor(false, false, 0, 0, 0), None)
  }

  /** A freshly created button: visible, in its normal state, not yet placed. */
  function NewButton(): ImageButton {
    ImageButton(true, Rect(0, 0, 0, 0), StateNormal)
  }

  /** The view with the placeholder container and the four caption buttons
      created. */
  function WithControls(v: View): View {
    v.(container := Some(Placeholder(Rect(0, 0, 0, 0))),
       minimizeButton := Some(NewButton()), maximizeButton := Some(NewButton()),
       restoreButton := Some(NewButton()), closeButton := Some(NewButton()))
  }

  /** `Init` as the source writes it: the container and the buttons are
      created only when the title bar is NOT drawn by this view. */
  function InitAsWritten(h: Host): (r: View)
    ensures r.container.Some? <==> !h.customTitlebar
    ensures r.minimizeButton.Some? <==> !h.customTitlebar
    ensures r.maximizeButton.Some? <==> !h.customTitlebar
    ensures r.restoreButton.Some? <==> !h.customTitlebar
    ensures r.closeButton.Some? <==> !h.customTitlebar
  {
    if h.customTitlebar then InitialView() else WithControls(InitialView())
  }

  /** `Init` as intended: the container and the four buttons exist exactly
      when this view draws the title bar, which is when layout and hit-testing
      use them. Order and cursor keep their initial values. */
  function Init(h: Host): (r: View)
    ensures r.container.Some? <==> h.customTitlebar
    ensures r.minimizeButton.Some? <==> h.customTitlebar
    ensures r.maximizeButton.Some? <==> h.customTitlebar
    ensures r.restoreButton.Some? <==> h.customTitlebar
    ensures r.closeButton.Some? <==> h.customTitlebar
    ensures r.leadingButtons == [] && r.trailingButtons == DefaultTrailingButtons
    ensures r.cursor == LayoutCursor(false, false, 0, 0, 0)
  {
    if h.customTitlebar then WithControls(InitialView()) else InitialView()
  }

  /** The buttons the source's `ResetWindowControls` dereferences without a
      null check. */
  predicate HasResettableButtons(v: View) {
    v.restoreButton.Some? && v.minimizeButton.Some? && v.maximizeButton.Some?
  }

  /** `ResetWindowControls` as the source writes it: restore, minimize and
      maximize are put back into their normal state unconditionally, so all
      three must exist. The close button keeps its state, and nothing else
      changes. */
  function ResetWindowControlsAsWritten(v: View): (r: View)
    requires HasResettableButtons(v)
    ensures HasResettableButtons(r)
    ensures r.restoreButton.value == v.restoreButton.value.(state := StateNormal)
    ensures r.minimizeButton.value == v.minimizeButton.value.(state := StateNormal)
    ensures r.maximizeButton.value == v.maximizeButton.value.(state := StateNormal)
    ensures r.closeButton == v.closeButton
    ensures r.(restoreButton := v.restoreButton, minimizeButton := v.minimizeButton,
               maximizeButton := v.maximizeButton) == v
  {
    v.(restoreButton := Some(v.restoreButton.value.(state := StateNormal)),
       minimizeButton := Some(v.minimizeButton.value.(state := StateNormal)),
       maximizeButton := Some(v.maximizeButton.value.(state := StateNormal)))
  }

  /** A button, if it exists, back in its normal state. */
  function ResetButton(b: Option<ImageButton>): Option<ImageButton> {
    match b
    case None => None
    case Some(button) => Some(button.(state := StateNormal))
  }

  /** `ResetWindowControls` with the null checks every other consumer of the
      buttons makes: each of restore, minimize and maximize that exists goes
      back to its normal state, and one that does not exist stays absent. The
      close button keeps its state, and nothing else changes. */
  function ResetWindowControls(v: View): (r: View)
    ensures r.restoreButton.Some? <==> v.restoreButton.Some?
    ensures r.minimizeButton.Some? <==> v.minimizeButton.Some?
    ensures r.maximizeButton.Some? <==> v.maximizeButton.Some?
    ensures v.restoreButton.Some? ==> r.restoreButton.value == v.restoreButton.value.(state := StateNormal)
    ensures v.minimizeButton.Some? ==> r.minimizeButton.value == v.minimizeButton.value.(state := StateNormal)
    ensures v.maximizeButton.Some? ==> r.maximizeButton.value == v.maximizeButton.value.(state := StateNormal)
    ensures r.closeButton == v.closeButton
    ensures r.(restoreButton := v.restoreButton, minimizeButton := v.minimizeButton,
               maximizeButton := v.maximizeButton) == v
  {
    v.(restoreButton := ResetButton(v.restoreButton),
       minimizeButton := ResetButton(v.minimizeButton),
       maximizeButton := ResetButton(v.maximizeButton))
  }

  /** Wherever the source's version is defined, the guarded one agrees with it. */
  lemma ResetWindowControlsExtendsAsWritten(v: View)
    requires HasResettableButtons(v)
    ensures ResetWindowControls(v) == ResetWindowControlsAsWritten(v)
  {
  }

  /** The source's reset cannot follow either `Init`: with an OS-drawn title
      bar the corrected `Init` creates no buttons, and with a custom-drawn one
      the as-written `Init` creates none; both leave the dereferenced buttons
      null. */
  lemma ResetAsWrittenFailsAfterInit(h: Host)
    ensures !h.customTitlebar ==> !HasResettableButtons(Init(h))
    ensures h.customTitlebar ==> !HasResettableButtons(InitAsWritten(h))
  {
  }

  /** The guarded reset is defined after either `Init` and changes nothing
      there, since freshly created buttons are already in their normal state. */
  lemma ResetAfterInitIsNoOp(h: Host)
    ensures ResetWindowControls(Init(h)) == Init(h)
    ensures ResetWindowControls(InitAsWritten(h)) == InitAsWritten(h)
  {
  }

  /** Resetting twice is the same as resetting once. */
  lemma ResetWindowControlsIdempotent(v: View)
    ensures ResetWindowControls(ResetWindowControls(v)) == ResetWindowControls(v)
  {
  }

  /** With every button hovered, a reset leaves only the close button hovered. */
  lemma ResetLeavesCloseHovered(v: View)
    requires HasResettableButtons(v) && v.closeButton.Some?
    requires v.restoreButton.value.state == v.minimizeButton.value.state ==
             v.maximizeButton.value.state == v.closeButton.value.state == StateHovered
    ensures var r := ResetWindowControls(v);
            r.closeButton.value.state == StateHovered &&
            r.restoreButton.value.state == r.minimizeButton.value.state ==
            r.maximizeButton.value.state == StateNormal
  {
  }

  /** The platform's ordering changed: both lists are replaced wholesale by
      the provider's, and nothing else in the view changes. */
  function OnWindowButtonOrderingChange(v: View, leading: seq<FrameButton>, trailing: seq<FrameButton>): (r: View)
    ensures r.leadingButtons == leading && r.trailingButtons == trailing
    ensures r.(leadingButtons := v.leadingButtons, trailingButtons := v.trailingButtons) == v
  {
    v.(leadingButtons := leading, trailingButtons := trailing)
  }

  /** Only the latest ordering matters: an earlier change is fully overwritten. */
  lemma LatestOrderingWins(v: View, l1: seq<FrameButton>, t1: seq<FrameButton>,
                           l2: seq<FrameButton>, t2: seq<FrameButton>)
    ensures OnWindowButtonOrderingChange(OnWindowButtonOrderingChange(v, l1, t1), l2, t2) ==
            OnWindowButtonOrderingChange(v, l2, t2)
  {
  }
}
