/**
 * The map screen's side of the drawer handshake: MapController's recenter button
 * (`centerMapButton`) and how `animateCenterMapButton(expansionState:hideButton:)` moves
 * and fades it. A `UIView.animate` block is modelled as the instant assignment it
 * performs; durations are not modelled.
 */
module MapScreen {
  import opened ExpansionStates

  /** The vertical offset, in points, by which the button follows the drawer. */
  const BUTTON_SHIFT := 250

  /** The recenter button: `frame.origin.y` and `alpha` (only 0 and 1 are ever assigned). */
  datatype Button = Button(originY: int, alpha: int)

  /** An alpha the source can assign: fully transparent or fully opaque. */
  predicate ValidAlpha(b: Button) {
    b.alpha == 0 || b.alpha == 1
  }

  /**
   * The button after one `animateCenterMapButton` call. A hiding call makes the button
   * transparent except at FullyExpanded, which always shows it; the button only moves
   * with the NotExpanded/PartiallyExpanded pair, up for NotExpanded and down for an
   * unhidden PartiallyExpanded call, and always by BUTTON_SHIFT.
   */
  function AfterCall(b: Button, call: ButtonCall): (r: Button)
    ensures ValidAlpha(b) ==> ValidAlpha(r)
    ensures r.alpha == 0 <==>
      || (call.hideButton && call.expansionState != FullyExpanded)
      || (b.alpha == 0 && call == ButtonCall(PartiallyExpanded, false))
    ensures r.originY < b.originY <==> call.expansionState == NotExpanded
    ensures r.originY > b.originY <==> call == ButtonCall(PartiallyExpanded, false)
    ensures r.originY == b.originY - BUTTON_SHIFT || r.originY == b.originY || r.originY == b.originY + BUTTON_SHIFT
  {
    match call.expansionState
    case NotExpanded =>
      Button(b.originY - BUTTON_SHIFT, if call.hideButton then 0 else 1)
    case PartiallyExpanded =>
      if call.hideButton then b.(alpha := 0) else b.(originY := b.originY + BUTTON_SHIFT)
    case FullyExpanded =>
      b.(alpha := 1)
  }

  /** The button after the calls of one event, in the order the drawer sent them. */
  function AfterCalls(b: Button, calls: seq<ButtonCall>): (r: Button)
    ensures ValidAlpha(b) ==> ValidAlpha(r)
    ensures calls == [] ==> r == b
    ensures |calls| == 1 ==> r == AfterCall(b, calls[0])
    ensures (forall i :: 0 <= i < |calls| ==> calls[i].expansionState == FullyExpanded) ==> r.originY == b.originY
    decreases |calls|
  {
    if calls == [] then b else AfterCalls(AfterCall(b, calls[0]), calls[1..])
  }

  /** The per-state table of `animateCenterMapButton`. */
  lemma AfterCallTable(b: Button, hideButton: bool)
    ensures AfterCall(b, ButtonCall(NotExpanded, hideButton))
         == Button(b.originY - 250, if hideButton then 0 else 1)
    ensures hideButton ==> AfterCall(b, ButtonCall(PartiallyExpanded, hideButton)) == Button(b.originY, 0)
    ensures !hideButton ==> AfterCall(b, ButtonCall(PartiallyExpanded, hideButton)) == Button(b.originY + 250, b.alpha)
    ensures AfterCall(b, ButtonCall(FullyExpanded, hideButton)) == Button(b.originY, 1)
  {
  }

  /**
   * A NotExpanded call undone by a visible PartiallyExpanded call (swipe up, then swipe
   * down) puts the button back where it was, shown. A hiding NotExpanded call is not
   * undone this way: the PartiallyExpanded call leaves alpha as it found it.
   */
  lemma RaiseThenLowerRestores(b: Button)
    ensures AfterCall(AfterCall(b, ButtonCall(NotExpanded, false)), ButtonCall(PartiallyExpanded, false))
         == Button(b.originY, 1)
  {
  }

  /** The map screen's view controller, reduced to the state the drawer drives. */
  class MapController {
    /** `centerMapButton.frame.origin.y` */
    var centerMapButtonY: int
    /** `centerMapButton.alpha` */
    var centerMapButtonAlpha: int

    function CenterMapButton(): Button
      reads this
    {
      Button(centerMapButtonY, centerMapButtonAlpha)
    }

    /** A controller whose button has been laid out at `originY`; a new view is opaque. */
    constructor (originY: int)
      ensures CenterMapButton() == Button(originY, 1)
    {
      centerMapButtonY := originY;
      centerMapButtonAlpha := 1;
    }

    /** `animateCenterMapButton(expansionState:hideButton:)`, the delegate callback. */
    method AnimateCenterMapButton(expansionState: ExpansionState, hideButton: bool)
      modifies this
      ensures CenterMapButton() == AfterCall(old(CenterMapButton()), ButtonCall(expansionState, hideButton))
    {
      match expansionState {
        case NotExpanded =>
          centerMapButtonY := centerMapButtonY - BUTTON_SHIFT;
          if hideButton {
            centerMapButtonAlpha := 0;
          } else {
            centerMapButtonAlpha := 1;
          }
        case PartiallyExpanded =>
          if hideButton {
            centerMapButtonAlpha := 0;
          } else {
            centerMapButtonY := centerMapButtonY + BUTTON_SHIFT;
          }
        case FullyExpanded =>
          centerMapButtonAlpha := 1;
      }
    }
  }
}
