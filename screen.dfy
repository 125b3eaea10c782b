/**
 * The map screen and its drawer together, as one state machine: MapController is the
 * drawer's delegate (`searchInputView.delegate = self`), so every delegate call the
 * drawer makes reaches the recenter button. An event is delivered, then the animations
 * it started finish and their completions run (`Run`). `UIView.animate` without
 * `.allowUserInteraction` ignores touches on the drawer while it animates, so a user's
 * events only reach a settled drawer. `Deliver` without `Settle` states what the
 * handlers would compute if they were called mid-animation; no touch takes that path.
 */
module DrawerHandshake {
  import opened ExpansionStates
  import opened Wrappers
  import opened MapScreen
  import opened SearchInput

  /** The drawer and the recenter button of one map screen. */
  datatype Screen = Screen(drawer: Drawer, button: Button)

  /** The inputs the drawer reacts to. */
  datatype Event =
    | Swipe(direction: Direction)
    | BeginEditing
    | Cancel
    | Search(text: Option<string>)

  /** A freshly laid out screen: drawer NotExpanded at `drawerY`, button opaque at `buttonY`. */
  function Start(drawerY: int, buttonY: int): Screen {
    Screen(Initial(drawerY), Button(buttonY, 1))
  }

  /** The drawer takes the effect's state and the button receives its delegate calls. */
  function Apply(s: Screen, e: Effect): Screen {
    Screen(e.drawer, AfterCalls(s.button, e.calls))
  }

  /** The synchronous part of an event: what its handler does before any animation ends. */
  function Deliver(s: Screen, ev: Event): Screen {
    match ev
    case Swipe(direction) => Apply(s, Swiped(s.drawer, direction))
    case BeginEditing => Apply(s, BeganEditing(s.drawer))
    case Cancel => Apply(s, CancelClicked(s.drawer))
    case Search(_) => s
  }

  /**
   * Every pending animation ends and its completion runs, oldest first. Completions
   * never move the drawer or touch the cancel button; the last one decides the state.
   */
  function Settle(s: Screen): (r: Screen)
    ensures r.drawer.pending == []
    ensures r.drawer.originY == s.drawer.originY
    ensures r.drawer.showsCancelButton == s.drawer.showsCancelButton
    ensures s.drawer.pending != [] ==> r.drawer.expansionState == s.drawer.pending[|s.drawer.pending| - 1].next
    ensures s.drawer.pending == [] ==> r == s
    ensures ValidAlpha(s.button) ==> ValidAlpha(r.button)
    decreases |s.drawer.pending|
  {
    if s.drawer.pending == [] then s else Settle(Apply(s, Completed(s.drawer)))
  }

  /** An event followed by the end of every animation. */
  function Run(s: Screen, ev: Event): Screen {
    Settle(Deliver(s, ev))
  }

  /** A sequence of events, each one allowed to settle before the next. */
  function RunAll(s: Screen, events: seq<Event>): Screen
    decreases |events|
  {
    if events == [] then s else RunAll(Run(s, events[0]), events[1..])
  }

  /** UIKit delivers a cancel click only while the cancel button is shown. */
  predicate Enabled(s: Screen, ev: Event) {
    ev.Cancel? ==> s.drawer.showsCancelButton
  }

  /** Every event of the sequence is one the screen can receive when it arrives. */
  predicate Admissible(s: Screen, events: seq<Event>)
    decreases |events|
  {
    events == [] || (Enabled(s, events[0]) && Admissible(Run(s, events[0]), events[1..]))
  }

  /** The screen as the two objects hold it. */
  function Observe(view: SearchInputView, controller: MapController): Screen
    reads view, controller
  {
    Screen(view.Model(), controller.CenterMapButton())
  }

  /** `configureViewComponents`: the controller creates the drawer and becomes its delegate. */
  method ConfigureViewComponents(controller: MapController, drawerY: int) returns (view: SearchInputView)
    ensures fresh(view) && view.delegate == controller
    ensures Observe(view, controller) == Screen(Initial(drawerY), controller.CenterMapButton())
  {
    view := new SearchInputView(drawerY);
    view.delegate := controller;
  }

  /**
   * The wired objects at work: the drawer's handler for `ev` runs, then UIKit ends the
   * animations, running their completions one at a time. The objects end as `Run` says.
   */
  method Respond(view: SearchInputView, controller: MapController, ev: Event)
    requires view.delegate == controller && Enabled(Observe(view, controller), ev)
    modifies view, controller
    ensures view.delegate == controller
    ensures Observe(view, controller) == Run(old(Observe(view, controller)), ev)
  {
    match ev {
      case Swipe(direction) => view.HandleSwipeGesture(direction);
      case BeginEditing => view.SearchBarTextDidBeginEditing();
      case Cancel => view.SearchBarCancelButtonClicked();
      case Search(text) => var _ := view.SearchBarSearchButtonClicked(text);
    }
    while view.pendingCompletions != []
      invariant view.delegate == controller
      invariant Settle(Observe(view, controller)) == Run(old(Observe(view, controller)), ev)
      decreases |view.pendingCompletions|
    {
      view.RunCompletion();
    }
  }

  // ----- Reference definitions: the path graph and the resting offsets -----

  /** The path graph NotExpanded - PartiallyExpanded - FullyExpanded, one step per swipe. */
  function Neighbour(state: ExpansionState, direction: Direction): ExpansionState {
    match (state, direction)
    case (NotExpanded, Up) => PartiallyExpanded
    case (PartiallyExpanded, Up) => FullyExpanded
    case (FullyExpanded, Up) => FullyExpanded
    case (NotExpanded, Down) => NotExpanded
    case (PartiallyExpanded, Down) => NotExpanded
    case (FullyExpanded, Down) => PartiallyExpanded
  }

  /** Where the drawer rests in each state, relative to where it was laid out. */
  function DrawerRest(state: ExpansionState): int {
    match state
    case NotExpanded => 0
    case PartiallyExpanded => -250
    case FullyExpanded => -710
  }

  /** Where the recenter button rests: raised by 250 whenever the drawer is raised. */
  function ButtonRest(state: ExpansionState): int {
    if state == NotExpanded then 0 else -250
  }

  /**
   * The invariant of a settled screen laid out at `drawerY`/`buttonY`: no animation is
   * pending, drawer and button rest at their offsets for the state, the cancel button
   * shows only at FullyExpanded, and the button is hidden only at FullyExpanded.
   */
  predicate AtRest(s: Screen, drawerY: int, buttonY: int) {
    && s.drawer.pending == []
    && s.drawer.originY == drawerY + DrawerRest(s.drawer.expansionState)
    && s.button.originY == buttonY + ButtonRest(s.drawer.expansionState)
    && (s.drawer.showsCancelButton ==> s.drawer.expansionState == FullyExpanded)
    && ValidAlpha(s.button)
    && (s.button.alpha == 0 ==> s.drawer.expansionState == FullyExpanded)
  }

  // ----- Single events from a settled screen -----

  /**
   * A settled swipe moves the state one step along the path graph (never straight
   * between NotExpanded and FullyExpanded) and the drawer by the difference of the
   * resting offsets: -250, -460, +460, +250, or nothing at either end.
   */
  lemma SwipeFollowsPathGraph(s: Screen, direction: Direction)
    requires s.drawer.pending == []
    ensures var r := Run(s, Swipe(direction));
      && r.drawer.expansionState == Neighbour(s.drawer.expansionState, direction)
      && r.drawer.originY == s.drawer.originY
           + DrawerRest(r.drawer.expansionState) - DrawerRest(s.drawer.expansionState)
    ensures Run(s, Swipe(direction)).drawer.expansionState != s.drawer.expansionState ==>
      PartiallyExpanded in {s.drawer.expansionState, Run(s, Swipe(direction)).drawer.expansionState}
  {
  }

  /**
   * The delegate calls of each swipe. Upward swipes and the PartiallyExpanded downward
   * swipe call the delegate before animating; the downward swipe from FullyExpanded calls
   * it only in its completion, when the state still reads FullyExpanded. A swipe with
   * nowhere to go changes nothing at all.
   */
  lemma SwipeCalls(d: Drawer)
    ensures d.expansionState == NotExpanded ==>
      Swiped(d, Up).calls == [ButtonCall(NotExpanded, false)]
    ensures d.expansionState == PartiallyExpanded ==>
      Swiped(d, Up).calls == [ButtonCall(PartiallyExpanded, true)]
    ensures d.expansionState == PartiallyExpanded ==>
      Swiped(d, Down).calls == [ButtonCall(PartiallyExpanded, false)]
    ensures d.expansionState == FullyExpanded ==>
      && Swiped(d, Down).calls == []
      && !Swiped(d, Down).drawer.showsCancelButton
    ensures d.expansionState == FullyExpanded && d.pending == [] ==>
      Completed(Swiped(d, Down).drawer).calls == [ButtonCall(FullyExpanded, false)]
    ensures d.expansionState == FullyExpanded ==> Swiped(d, Up) == Effect(d, [])
    ensures d.expansionState == NotExpanded ==> Swiped(d, Down) == Effect(d, [])
  {
  }

  /**
   * Focusing the search bar ends FullyExpanded with the cancel button shown. From
   * NotExpanded the drawer rises 710 (= 250 + 460) and the button is raised and hidden;
   * from PartiallyExpanded it rises 460 and the button is left alone, still visible;
   * from FullyExpanded nothing moves.
   */
  lemma BeginEditingOutcome(s: Screen)
    requires s.drawer.pending == []
    ensures var r := Run(s, BeginEditing);
      && r.drawer.expansionState == FullyExpanded
      && r.drawer.showsCancelButton
      && r.drawer.originY == s.drawer.originY
           + DrawerRest(FullyExpanded) - DrawerRest(s.drawer.expansionState)
    ensures s.drawer.expansionState == NotExpanded ==>
      Run(s, BeginEditing).button == Button(s.button.originY - 250, 0)
    ensures s.drawer.expansionState != NotExpanded ==> Run(s, BeginEditing).button == s.button
  {
  }

  /**
   * Cancel does not look at the state: from any settled state it lowers the drawer by
   * 460, hides the cancel button, and in its completion reports the state it finds to
   * the delegate with hideButton false before becoming PartiallyExpanded.
   */
  lemma CancelOutcome(s: Screen)
    requires s.drawer.pending == []
    ensures var r := Run(s, Cancel);
      && r.drawer.expansionState == PartiallyExpanded
      && !r.drawer.showsCancelButton
      && r.drawer.originY == s.drawer.originY + 460
      && r.button == AfterCall(s.button, ButtonCall(s.drawer.expansionState, false))
  {
  }

  /** Running one sequence after another is running their concatenation. */
  lemma {:induction false} RunAllAppend(s: Screen, first: seq<Event>, second: seq<Event>)
    ensures RunAll(s, first + second) == RunAll(RunAll(s, first), second)
    decreases |first|
  {
    if first != [] {
      assert (first + second)[0] == first[0];
      assert (first + second)[1..] == first[1..] + second;
      RunAllAppend(Run(s, first[0]), first[1..], second);
    } else {
      assert first + second == second;
    }
  }

  /** From a settled screen, settled events leave no animation pending. */
  lemma {:induction false} RunAllSettles(s: Screen, events: seq<Event>)
    requires s.drawer.pending == []
    ensures RunAll(s, events).drawer.pending == []
    decreases |events|
  {
    if events != [] {
      RunAllSettles(Run(s, events[0]), events[1..]);
    }
  }

  /** A search submission, wherever it falls among settled events, changes neither the
      drawer nor the button. */
  lemma SearchChangesNothing(s: Screen, before: seq<Event>, text: Option<string>, after: seq<Event>)
    requires s.drawer.pending == []
    ensures RunAll(s, before + [Search(text)] + after) == RunAll(s, before + after)
  {
    var t := RunAll(s, before);
    var rest := [Search(text)] + after;
    assert before + [Search(text)] + after == before + rest;
    RunAllAppend(s, before, rest);
    RunAllAppend(s, before, after);
    RunAllSettles(s, before);
    assert rest[0] == Search(text) && rest[1..] == after;
    assert Run(t, Search(text)) == t;
    assert RunAll(t, rest) == RunAll(t, after);
  }

  // ----- Round trips -----

  /** Swipe up then down from a settled NotExpanded drawer restores the drawer and the
      button's position, with the button shown. */
  lemma SwipeUpThenDownRestores(s: Screen)
    requires s.drawer.pending == [] && s.drawer.expansionState == NotExpanded
    ensures Run(Run(s, Swipe(Up)), Swipe(Down)) == Screen(s.drawer, Button(s.button.originY, 1))
  {
  }

  /**
   * PartiallyExpanded, swipe up, swipe down: back to PartiallyExpanded at the same
   * height with the button where it was and shown, because the downward call reports
   * FullyExpanded, which only restores the alpha.
   */
  lemma PartialFullPartialRestores(s: Screen)
    requires s.drawer.pending == [] && s.drawer.expansionState == PartiallyExpanded
    ensures Run(Run(s, Swipe(Up)), Swipe(Down))
         == Screen(s.drawer.(showsCancelButton := false), s.button.(alpha := 1))
  {
  }

  /** Focusing from NotExpanded and cancelling does not return to NotExpanded: the drawer
      stops at PartiallyExpanded, 250 above where it started, with the button shown. */
  lemma FocusThenCancelStopsHalfway(s: Screen)
    requires s.drawer.pending == [] && s.drawer.expansionState == NotExpanded
    ensures var r := Run(Run(s, BeginEditing), Cancel);
      && r.drawer.expansionState == PartiallyExpanded
      && r.drawer.originY == s.drawer.originY - 250
      && r.button == Button(s.button.originY - 250, 1)
  {
  }

  // ----- The invariant over every admissible run -----

  lemma InitialAtRest(drawerY: int, buttonY: int)
    ensures AtRest(Start(drawerY, buttonY), drawerY, buttonY)
  {
  }

  /** One admissible settled event keeps the screen at rest. */
  lemma RunKeepsAtRest(s: Screen, ev: Event, drawerY: int, buttonY: int)
    requires AtRest(s, drawerY, buttonY) && Enabled(s, ev)
    ensures AtRest(Run(s, ev), drawerY, buttonY)
  {
  }

  lemma {:induction false} RunAllKeepsAtRest(s: Screen, events: seq<Event>, drawerY: int, buttonY: int)
    requires AtRest(s, drawerY, buttonY) && Admissible(s, events)
    ensures AtRest(RunAll(s, events), drawerY, buttonY)
    decreases |events|
  {
    if events != [] {
      RunKeepsAtRest(s, events[0], drawerY, buttonY);
      RunAllKeepsAtRest(Run(s, events[0]), events[1..], drawerY, buttonY);
    }
  }

  /**
   * After any admissible sequence of settled events from a fresh screen, the button is
   * raised by 250 exactly when the drawer is not NotExpanded, the drawer rests at its
   * state's offset, and a hidden button implies FullyExpanded.
   */
  lemma ButtonTracksDrawer(drawerY: int, buttonY: int, events: seq<Event>)
    requires Admissible(Start(drawerY, buttonY), events)
    ensures var r := RunAll(Start(drawerY, buttonY), events);
      && (r.button.originY == buttonY - 250 <==> r.drawer.expansionState != NotExpanded)
      && (r.button.originY == buttonY <==> r.drawer.expansionState == NotExpanded)
      && r.drawer.originY == drawerY + DrawerRest(r.drawer.expansionState)
      && (r.button.alpha == 0 ==> r.drawer.expansionState == FullyExpanded)
      && (r.drawer.showsCancelButton ==> r.drawer.expansionState == FullyExpanded)
  {
    InitialAtRest(drawerY, buttonY);
    RunAllKeepsAtRest(Start(drawerY, buttonY), events, drawerY, buttonY);
  }

  /** "Hidden exactly at FullyExpanded" does not hold: swipe up, then focus, leaves the
      drawer FullyExpanded with the button still shown. */
  lemma VisibleAtFullReachable(drawerY: int, buttonY: int)
    ensures var r := RunAll(Start(drawerY, buttonY), [Swipe(Up), BeginEditing]);
      r.drawer.expansionState == FullyExpanded && r.button.alpha == 1
  {
  }

  // ----- Handlers called before the completions have run -----
  // UIKit does not deliver touches to the drawer while it animates, so these lemmas
  // describe what the handlers compute if called then, not a path a user can take.

  /**
   * Whether or not animations are still pending, the swipe handler moves the frame by the
   * offset between the state held before the call and its neighbour: it reads that
   * state, not the one the pending completions will set.
   */
  lemma SwipeReadsStaleState(d: Drawer, direction: Direction)
    ensures Swiped(d, direction).drawer.originY == d.originY
      + DrawerRest(Neighbour(d.expansionState, direction)) - DrawerRest(d.expansionState)
    ensures Swiped(d, direction).drawer.expansionState == d.expansionState
  {
  }

  /**
   * Two upward-swipe handler calls within one animation would both read NotExpanded:
   * the drawer and the button each rise 500, yet the drawer settles in
   * PartiallyExpanded, 250 above where that state rests.
   */
  lemma StaleStateRace(drawerY: int, buttonY: int)
    ensures var r := Settle(Deliver(Deliver(Start(drawerY, buttonY), Swipe(Up)), Swipe(Up)));
      && r.drawer.expansionState == PartiallyExpanded
      && r.drawer.originY == drawerY - 500
      && r.button == Button(buttonY - 500, 1)
  {
  }

  /**
   * From a settled PartiallyExpanded screen, the up and then the down swipe handler
   * called before the first animation ends would both read PartiallyExpanded, so the
   * button is hidden and then lowered, and the completions set FullyExpanded, then
   * NotExpanded. The screen ends NotExpanded with the drawer 460 above its resting place
   * and the button hidden.
   */
  lemma StaleSwipeHidesButton(drawerY: int, buttonY: int)
    ensures var r := Settle(Deliver(Deliver(Run(Start(drawerY, buttonY), Swipe(Up)), Swipe(Up)), Swipe(Down)));
      && r.drawer.expansionState == NotExpanded
      && r.drawer.originY == drawerY - 460
      && r.button == Button(buttonY, 0)
  {
  }
}
