/**
 * The bottom drawer (SearchInputView): its three-state expansion machine, driven by
 * swipes and by the search bar's editing events.
 *
 * `animateInputView` assigns the drawer's frame inside a `UIView.animate` block, which
 * UIKit runs at once, and hands a completion closure to UIKit, which runs it when the
 * animation ends. The model keeps exactly that split: the frame moves at once and the
 * completion joins a queue of pending completions. Every drawer animation has the same
 * duration, so the completions run in the order their animations started. Until a
 * completion runs, `expansionState` still holds the state from before the gesture.
 */
module SearchInput {
  import opened ExpansionStates
  import opened Wrappers
  import MapScreen

  /** Rise of the drawer between NotExpanded and PartiallyExpanded, in points. */
  const PARTIAL_RISE := 250
  /** Rise of the drawer between PartiallyExpanded and FullyExpanded. */
  const FULL_RISE := 460
  /** Rise of the drawer from NotExpanded straight to FullyExpanded, on focus. */
  const FOCUS_RISE := 710

  /** The direction of a recognised swipe; the drawer installs only these two recognisers. */
  datatype Direction = Up | Down

  /** What an animation's completion closure does when UIKit runs it. */
  datatype Completion =
    /** `self.expansionState = next` */
    | SetState(next: ExpansionState)
    /** `self.delegate?.animateCenterMapButton(expansionState: self.expansionState, hideButton: false)`,
        then `self.expansionState = next` */
    | NotifyThenSetState(next: ExpansionState)

  /** The drawer's state: expansion state, `frame.origin.y`, the search bar's
      `showsCancelButton`, and the completions whose animations have not finished. */
  datatype Drawer = Drawer(
    expansionState: ExpansionState,
    originY: int,
    showsCancelButton: bool,
    pending: seq<Completion>)

  /** What one event does: the drawer afterwards and the delegate calls it made, in order. */
  datatype Effect = Effect(drawer: Drawer, calls: seq<ButtonCall>)

  /** `init(frame:)`: a new drawer is NotExpanded, at rest, with no cancel button. */
  function Initial(originY: int): (d: Drawer)
    ensures d.expansionState == NotExpanded && d.pending == [] && !d.showsCancelButton
    ensures d.originY == originY
  {
    Drawer(NotExpanded, originY, false, [])
  }

  /** `animateInputView(targetPosition:completion:)`: the frame moves now, the completion waits. */
  function Animated(d: Drawer, targetPosition: int, completion: Completion): (r: Drawer)
    ensures r.originY == targetPosition
    ensures r.expansionState == d.expansionState && r.showsCancelButton == d.showsCancelButton
    ensures |r.pending| == |d.pending| + 1
    ensures r.pending[..|d.pending|] == d.pending && r.pending[|d.pending|] == completion
  {
    d.(originY := targetPosition, pending := d.pending + [completion])
  }

  /**
   * `handleSwipeGesture(sender:)`. Each direction runs two `if`s in sequence; the second
   * reads `expansionState` after the first, which is unchanged because the first only
   * queued its completion. So at most one branch fires: the state is not changed now,
   * at most one animation starts and at most one delegate call is made.
   */
  function Swiped(d: Drawer, direction: Direction): (e: Effect)
    ensures e.drawer.expansionState == d.expansionState
    ensures |e.calls| <= 1
    ensures e.drawer.pending == d.pending || |e.drawer.pending| == |d.pending| + 1
    ensures e.drawer.pending[..|d.pending|] == d.pending
    ensures direction == Up ==> e.drawer.showsCancelButton == d.showsCancelButton
    ensures direction == Down ==>
      e.drawer.showsCancelButton == (d.showsCancelButton && d.expansionState != FullyExpanded)
  {
    match direction
    case Up =>
      var first :=
        if d.expansionState == NotExpanded then
          Effect(Animated(d, d.originY - PARTIAL_RISE, SetState(PartiallyExpanded)),
                 [ButtonCall(d.expansionState, false)])
        else Effect(d, []);
      var d1 := first.drawer;
      if d1.expansionState == PartiallyExpanded then
        Effect(Animated(d1, d1.originY - FULL_RISE, SetState(FullyExpanded)),
               first.calls + [ButtonCall(d1.expansionState, true)])
      else first
    case Down =>
      var first :=
        if d.expansionState == FullyExpanded then
          var closed := d.(showsCancelButton := false);
          Effect(Animated(closed, closed.originY + FULL_RISE, NotifyThenSetState(PartiallyExpanded)), [])
        else Effect(d, []);
      var d1 := first.drawer;
      if d1.expansionState == PartiallyExpanded then
        Effect(Animated(d1, d1.originY + PARTIAL_RISE, SetState(NotExpanded)),
               first.calls + [ButtonCall(d1.expansionState, false)])
      else first
  }

  /**
   * `searchBarTextDidBeginEditing`: NotExpanded rises 710 to FullyExpanded after telling
   * the delegate to hide the button; PartiallyExpanded rises 460 without telling it;
   * FullyExpanded stays. The cancel button is shown in every case.
   */
  function BeganEditing(d: Drawer): (e: Effect)
    ensures e.drawer.expansionState == d.expansionState
    ensures e.drawer.showsCancelButton
    ensures |e.calls| <= 1
    ensures e.drawer.pending == d.pending || e.drawer.pending == d.pending + [SetState(FullyExpanded)]
  {
    var first :=
      if d.expansionState == NotExpanded then
        Effect(Animated(d, d.originY - FOCUS_RISE, SetState(FullyExpanded)),
               [ButtonCall(d.expansionState, true)])
      else Effect(d, []);
    var d1 := first.drawer;
    var second :=
      if d1.expansionState == PartiallyExpanded then
        Effect(Animated(d1, d1.originY - FULL_RISE, SetState(FullyExpanded)), first.calls)
      else first;
    second.(drawer := second.drawer.(showsCancelButton := true))
  }

  /**
   * `searchBarCancelButtonClicked`: whatever the state, hide the cancel button, lower the
   * drawer by 460 and queue "notify the delegate, then become PartiallyExpanded".
   */
  function CancelClicked(d: Drawer): (e: Effect)
    ensures e.calls == [] && e.drawer.expansionState == d.expansionState
    ensures !e.drawer.showsCancelButton
    ensures e.drawer.originY == d.originY + 460
    ensures e.drawer.pending == d.pending + [NotifyThenSetState(PartiallyExpanded)]
  {
    var closed := d.(showsCancelButton := false);
    Effect(Animated(closed, closed.originY + FULL_RISE, NotifyThenSetState(PartiallyExpanded)), [])
  }

  /** UIKit runs the oldest pending completion: it may call the delegate with the state
      the drawer holds at that moment, then sets the state. */
  function Completed(d: Drawer): (e: Effect)
    requires d.pending != []
    ensures e.drawer.pending == d.pending[1..]
    ensures e.drawer.originY == d.originY && e.drawer.showsCancelButton == d.showsCancelButton
    ensures e.drawer.expansionState == d.pending[0].next
    ensures e.calls == if d.pending[0].NotifyThenSetState? then [ButtonCall(d.expansionState, false)] else []
  {
    var rest := d.(pending := d.pending[1..]);
    match d.pending[0]
    case SetState(next) => Effect(rest.(expansionState := next), [])
    case NotifyThenSetState(next) => Effect(rest.(expansionState := next), [ButtonCall(d.expansionState, false)])
  }

  /** The drawer view. `delegate` is the map screen, or null before it is wired. */
  class SearchInputView {
    var expansionState: ExpansionState
    /** `frame.origin.y` */
    var frameOriginY: int
    /** `searchBar.showsCancelButton` */
    var showsCancelButton: bool
    /** Completions of drawer animations still running, oldest first. */
    var pendingCompletions: seq<Completion>
    var delegate: MapScreen.MapController?

    function Model(): Drawer
      reads this
    {
      Drawer(expansionState, frameOriginY, showsCancelButton, pendingCompletions)
    }

    /** `init(frame:)`, with the frame's vertical origin once laid out. */
    constructor (originY: int)
      ensures Model() == Initial(originY) && delegate == null
    {
      expansionState := NotExpanded;
      frameOriginY := originY;
      showsCancelButton := false;
      pendingCompletions := [];
      delegate := null;
    }

    /** `animateInputView(targetPosition:completion:)` */
    method AnimateInputView(targetPosition: int, completion: Completion)
      modifies this
      ensures Model() == Animated(old(Model()), targetPosition, completion)
      ensures delegate == old(delegate)
    {
      frameOriginY := targetPosition;
      pendingCompletions := pendingCompletions + [completion];
    }

    /** `handleSwipeGesture(sender:)` */
    method HandleSwipeGesture(direction: Direction)
      modifies this, delegate
      ensures Model() == Swiped(old(Model()), direction).drawer
      ensures delegate == old(delegate)
      ensures delegate != null ==>
        delegate.CenterMapButton() == MapScreen.AfterCalls(old(delegate.CenterMapButton()), Swiped(old(Model()), direction).calls)
    {
      if direction == Up {
        if expansionState == NotExpanded {
          if delegate != null {
            delegate.AnimateCenterMapButton(expansionState, false);
          }
          AnimateInputView(frameOriginY - PARTIAL_RISE, SetState(PartiallyExpanded));
        }
        if expansionState == PartiallyExpanded {
          if delegate != null {
            delegate.AnimateCenterMapButton(expansionState, true);
          }
          AnimateInputView(frameOriginY - FULL_RISE, SetState(FullyExpanded));
        }
      } else {
        if expansionState == FullyExpanded {
          showsCancelButton := false;
          AnimateInputView(frameOriginY + FULL_RISE, NotifyThenSetState(PartiallyExpanded));
        }
        if expansionState == PartiallyExpanded {
          if delegate != null {
            delegate.AnimateCenterMapButton(expansionState, false);
          }
          AnimateInputView(frameOriginY + PARTIAL_RISE, SetState(NotExpanded));
        }
      }
    }

    /** `searchBarTextDidBeginEditing(_:)` */
    method SearchBarTextDidBeginEditing()
      modifies this, delegate
      ensures Model() == BeganEditing(old(Model())).drawer
      ensures delegate == old(delegate)
      ensures delegate != null ==>
        delegate.CenterMapButton() == MapScreen.AfterCalls(old(delegate.CenterMapButton()), BeganEditing(old(Model())).calls)
    {
      if expansionState == NotExpanded {
        if delegate != null {
          delegate.AnimateCenterMapButton(expansionState, true);
        }
        AnimateInputView(frameOriginY - FOCUS_RISE, SetState(FullyExpanded));
      }
      if expansionState == PartiallyExpanded {
        AnimateInputView(frameOriginY - FULL_RISE, SetState(FullyExpanded));
      }
      showsCancelButton := true;
    }

    /** `searchBarCancelButtonClicked(_:)`; UIKit delivers it only while the button is shown. */
    method SearchBarCancelButtonClicked()
      requires showsCancelButton
      modifies this
      ensures Model() == CancelClicked(old(Model())).drawer
      ensures delegate == old(delegate)
    {
      showsCancelButton := false;
      AnimateInputView(frameOriginY + FULL_RISE, NotifyThenSetState(PartiallyExpanded));
    }

    /**
     * `searchBarSearchButtonClicked(_:)`: the bar's text, when it has one, goes unchanged
     * to the delegate's `handleSearch(withSearchText:)`; the drawer does not change.
     * `forwarded` is what the delegate receives (None: no call).
     */
    method SearchBarSearchButtonClicked(text: Option<string>) returns (forwarded: Option<string>)
      ensures forwarded.Some? <==> text.Some? && delegate != null
      ensures forwarded.Some? ==> forwarded.value == text.value
    {
      if text.None? {
        return None;
      }
      if delegate != null {
        forwarded := Some(text.value);
      } else {
        forwarded := None;
      }
    }

    /** UIKit ends the oldest running drawer animation and runs its completion. */
    method RunCompletion()
      requires pendingCompletions != []
      modifies this, delegate
      ensures Model() == Completed(old(Model())).drawer
      ensures delegate == old(delegate)
      ensures delegate != null ==>
        delegate.CenterMapButton() == MapScreen.AfterCalls(old(delegate.CenterMapButton()), Completed(old(Model())).calls)
    {
      var completion := pendingCompletions[0];
      pendingCompletions := pendingCompletions[1..];
      match completion {
        case SetState(next) =>
          expansionState := next;
        case NotifyThenSetState(next) =>
          if delegate != null {
            delegate.AnimateCenterMapButton(expansionState, false);
          }
          expansionState := next;
      }
    }
  }
}
