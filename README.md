# MapStuff bottom drawer and recenter button, in Dafny

MapStuff is a one-screen iOS map app. Its map screen (`MapController`) carries a bottom
drawer (`SearchInputView`) holding a search bar and a results list. The drawer has three
expansion states, NotExpanded, PartiallyExpanded and FullyExpanded. Swipes and the search
bar's editing events move it between them by fixed offsets of 250, 460 and 710 points.
Through its delegate protocol the drawer tells the map screen what it is doing, and the
map screen moves and fades its recenter button in reply.

This project models that handshake as one state machine and proves its properties.

- `expansion_states.dfy` (module `ExpansionStates`): the three states, and the arguments
  of one `animateCenterMapButton(expansionState:hideButton:)` call.
- `map_controller.dfy` (module `MapScreen`): the recenter button as a value, what one
  delegate call does to it (`AfterCall`, `AfterCalls`), and the class `MapController`
  whose `AnimateCenterMapButton` updates the button's fields in place.
- `search_input_view.dfy` (module `SearchInput`): the drawer as a value (`Drawer`) and
  one function per event handler (`Swiped`, `BeganEditing`, `CancelClicked`, and
  `Completed` for a completion closure). The class `SearchInputView` has the same fields
  and is proved against these functions. `animateInputView` assigns the frame inside the
  animation block, which runs at once. It hands its completion closure to UIKit, which
  runs it later. So the model moves `frameOriginY` at once and appends the completion to
  `pendingCompletions`. `expansionState` keeps its pre-gesture value until that
  completion runs. This is why the two sequential `if`s of one handler both read the old
  state, and why at most one of them fires.
- `screen.dfy` (module `DrawerHandshake`): the wired screen (`Screen` = drawer + button).
  `Deliver` runs an event's handler. `Settle` runs the pending completions, oldest first,
  since every drawer animation has the same duration. `Run` is the two in sequence.
  The module holds the reference definitions (the path graph `Neighbour`, the resting
  offsets `DrawerRest`/`ButtonRest`, the invariant `AtRest`) and the lemmas. `Respond`
  shows the two classes, wired as in `configureViewComponents`, doing what `Run` says.
- `wrappers.dfy`: `Option`, for the search bar's optional text.

Two facts about the code shape what is proved:

- `searchBarCancelButtonClicked` (`SearchInputView.swift:189-199`) does not look at the
  state: it always lowers the drawer by 460 and ends PartiallyExpanded (`CancelOutcome`).
  The click only arrives while the cancel button is shown, so cancel is "enabled" only
  then. Touches only reach a drawer whose animations have finished (see "## Left out"),
  and once settled a shown cancel button means the drawer is FullyExpanded (`AtRest`).
- `animateCenterMapButton` (`MapController.swift:114-139`) ignores `hideButton` at
  FullyExpanded and shows the button, and leaves alpha untouched for an unhidden
  PartiallyExpanded call. `searchBarTextDidBeginEditing` from PartiallyExpanded makes no
  delegate call, so the button stays shown at FullyExpanded (`VisibleAtFullReachable`).
  "Hidden exactly when FullyExpanded" therefore fails; "hidden implies FullyExpanded"
  holds on every admissible run of settled events (`ButtonTracksDrawer`). It would fail
  only if the swipe handlers were called before the previous animation ends
  (`StaleSwipeHidesButton`), which UIKit's interaction lock rules out for touches.

## Model

| member | source | states |
|---|---|---|
| SearchInput.Initial | MapStuff/View/SearchInputView.swift:51-56 | a new drawer is NotExpanded, with no animation pending and no cancel button, at its laid-out origin |
| SearchInput.SearchInputView.constructor | MapStuff/View/SearchInputView.swift:51-56 | the view's fields start as `Initial`, with no delegate yet |
| SearchInput.Swiped | MapStuff/View/SearchInputView.swift:64-99 | a swipe never changes `expansionState` synchronously, starts at most one animation and makes at most one delegate call; an upward swipe leaves the cancel button alone, and a downward one hides it exactly when it starts from FullyExpanded |
| SearchInput.SearchInputView.HandleSwipeGesture | MapStuff/View/SearchInputView.swift:64-99 | the two sequential `if`s per direction, in place, produce exactly `Swiped`'s drawer, and the delegate's button receives exactly its calls |
| SearchInput.Animated | MapStuff/View/SearchInputView.swift:104-109 | the frame takes the target position at once, the expansion state and cancel button are untouched, and the completion is queued last, behind every completion already pending |
| SearchInput.SearchInputView.AnimateInputView | MapStuff/View/SearchInputView.swift:104-109 | the frame takes the target position at once; the completion is queued behind those already pending |
| SearchInput.BeganEditing | MapStuff/View/SearchInputView.swift:173-187 | focusing never changes the state synchronously, always shows the cancel button, makes at most one delegate call and queues at most one "become FullyExpanded" |
| SearchInput.SearchInputView.SearchBarTextDidBeginEditing | MapStuff/View/SearchInputView.swift:173-187 | the handler, in place, produces exactly `BeganEditing`'s drawer and delegate calls |
| SearchInput.CancelClicked | MapStuff/View/SearchInputView.swift:189-199 | cancel hides the cancel button, lowers the drawer by 460 whatever the state, calls nobody now and queues "notify, then become PartiallyExpanded" |
| SearchInput.SearchInputView.SearchBarCancelButtonClicked | MapStuff/View/SearchInputView.swift:189-199 | the handler, in place, produces exactly `CancelClicked`'s drawer |
| SearchInput.SearchInputView.SearchBarSearchButtonClicked | MapStuff/View/SearchInputView.swift:164-167 | the text reaches the delegate unchanged exactly when the bar has text and a delegate is set; nothing else changes |
| SearchInput.Completed | MapStuff/View/SearchInputView.swift:64-199 | a completion removes the oldest pending entry, sets that entry's state, never moves the drawer, and calls the delegate (with the state it finds and hideButton false) only for the notifying closures |
| SearchInput.SearchInputView.RunCompletion | MapStuff/View/SearchInputView.swift:104-109 | running the oldest completion in place gives `Completed`'s drawer and delegate calls |
| MapScreen.MapController.constructor | MapStuff/Controller/MapController.swift:20-25 | a new button is laid out at the given origin and opaque |
| MapScreen.MapController.AnimateCenterMapButton | MapStuff/Controller/MapController.swift:112-141 | the switch on the reported state updates `frame.origin.y` and `alpha` in place exactly as `AfterCall` |
| MapScreen.AfterCall | MapStuff/Controller/MapController.swift:112-141 | one call keeps alpha in {0, 1}; the button ends transparent exactly when the call hides it at a state other than FullyExpanded, or it was transparent and an unhidden PartiallyExpanded call leaves it so; it moves up only for NotExpanded, down only for an unhidden PartiallyExpanded call, and always by 250 |
| MapScreen.AfterCallTable | MapStuff/Controller/MapController.swift:114-139 | NotExpanded: up 250 and alpha from the flag; PartiallyExpanded: hide without moving, or down 250 with alpha kept; FullyExpanded: alpha 1, no move |
| MapScreen.AfterCalls | MapStuff/Controller/MapController.swift:112-141 | a sequence of calls keeps alpha in {0, 1}, leaves the button alone when empty, and never moves it when every call reports FullyExpanded |
| MapScreen.RaiseThenLowerRestores | MapStuff/Controller/MapController.swift:115-134 | an unhidden NotExpanded call followed by an unhidden PartiallyExpanded call returns the button to its origin, shown |
| DrawerHandshake.ConfigureViewComponents | MapStuff/Controller/MapController.swift:60-61 | the controller creates a NotExpanded drawer and becomes its delegate |
| DrawerHandshake.Respond | MapStuff/View/SearchInputView.swift:64-199 | the two wired objects, after a handler and all its completions, hold exactly the screen `Run` computes |
| DrawerHandshake.Settle | MapStuff/View/SearchInputView.swift:104-108 | running every completion empties the queue, never moves the drawer or touches the cancel button, and leaves the state set by the last completion |
| DrawerHandshake.SwipeFollowsPathGraph | MapStuff/View/SearchInputView.swift:66-98 | a settled swipe moves the state one step along NotExpanded - PartiallyExpanded - FullyExpanded, never directly between the ends, and moves the drawer by the difference of resting offsets (-250, -460, +460, +250, or nothing) |
| DrawerHandshake.SwipeCalls | MapStuff/View/SearchInputView.swift:69-97 | for every drawer, with or without animations pending, swipe up sends (NotExpanded, false) or (PartiallyExpanded, true) before animating; swipe down sends (PartiallyExpanded, false) before animating, or from FullyExpanded clears the cancel button and sends (FullyExpanded, false) only in the completion (stated for a settled drawer); swipes with nowhere to go change nothing |
| DrawerHandshake.BeginEditingOutcome | MapStuff/View/SearchInputView.swift:173-187 | focus always ends FullyExpanded with the cancel button shown; from NotExpanded it rises 710 and raises and hides the button; from the other states the button is untouched |
| DrawerHandshake.CancelOutcome | MapStuff/View/SearchInputView.swift:189-199 | from any settled state, cancel lowers 460, hides the cancel button, reports the state it finds with hideButton false and ends PartiallyExpanded |
| DrawerHandshake.SearchChangesNothing | MapStuff/View/SearchInputView.swift:164-167 | inserting a search submission anywhere in a sequence of settled events changes neither the drawer nor the button the sequence ends with |
| DrawerHandshake.RunAllAppend | MapStuff/View/SearchInputView.swift:64-199 | running two event sequences one after the other is running their concatenation |
| DrawerHandshake.RunAllSettles | MapStuff/View/SearchInputView.swift:104-109 | from a settled screen, any sequence of settled events ends with no animation pending |
| DrawerHandshake.SwipeUpThenDownRestores | MapStuff/View/SearchInputView.swift:69-97 | up then down from settled NotExpanded restores the drawer exactly and the button's origin, with the button shown |
| DrawerHandshake.PartialFullPartialRestores | MapStuff/Controller/MapController.swift:127-139 | up then down from settled PartiallyExpanded restores state, height and button origin; the button ends shown and the cancel button hidden |
| DrawerHandshake.FocusThenCancelStopsHalfway | MapStuff/View/SearchInputView.swift:173-199 | focusing from NotExpanded and cancelling ends PartiallyExpanded, 250 above the start, with the button raised 250 and shown |
| DrawerHandshake.InitialAtRest | MapStuff/View/SearchInputView.swift:51-56 | a fresh screen satisfies the resting invariant |
| DrawerHandshake.RunKeepsAtRest | MapStuff/View/SearchInputView.swift:64-199 | every enabled settled event preserves the resting invariant |
| DrawerHandshake.RunAllKeepsAtRest | MapStuff/View/SearchInputView.swift:64-199 | every admissible sequence of settled events preserves the resting invariant |
| DrawerHandshake.ButtonTracksDrawer | MapStuff/Controller/MapController.swift:114-139 | on every admissible run of settled events from a fresh screen, the button is raised 250 exactly when the drawer is not NotExpanded, the drawer rests at its state's offset, and a hidden button or shown cancel button implies FullyExpanded |
| DrawerHandshake.VisibleAtFullReachable | MapStuff/View/SearchInputView.swift:181-185 | swipe up then focus ends FullyExpanded with the button shown, so "hidden iff FullyExpanded" is false |
| DrawerHandshake.SwipeReadsStaleState | MapStuff/View/SearchInputView.swift:66-98 | for every drawer, settled or with animations still pending, the swipe handler moves the frame by the resting-offset difference computed from the state held before the gesture, whatever the pending completions will set |
| DrawerHandshake.StaleSwipeHidesButton | MapStuff/View/SearchInputView.swift:66-98 | from settled PartiallyExpanded, the up then down swipe handlers called before the first completion would both read PartiallyExpanded, and the screen ends NotExpanded with the drawer 460 off its resting place and the button hidden |
| DrawerHandshake.StaleStateRace | MapStuff/View/SearchInputView.swift:104-109 | two upward-swipe handler calls before the first completion would both read NotExpanded: drawer and button rise 500 and the drawer settles PartiallyExpanded, 250 off that state's resting place |

## Left out

- SearchInput.SearchInputView.SearchBarCancelButtonClicked: requires the cancel button to be shown, because UIKit delivers the click only then; the pure `CancelClicked` is total.
- SearchInput.SearchInputView.SearchBarSearchButtonClicked: reports the text it forwards instead of calling `handleSearch`, whose MapKit search is not modelled.
- `handleSearch`, `searchBy` and `centerMapOnUserLocation`: thin calls into the MapKit SDK with asynchronous callbacks. They return early when there is no location (MapController.swift:86, 160), and otherwise build a 2000 m region and search or recenter. MapKit is not part of this model.
- `enableLocationService` and the `LocationRequestController` presentation: platform permission I/O that only logs or presents a screen.
- `handleCenterLocation` and all `print` calls: logging only.
- View construction and layout (`configureViewComponents` beyond the delegate wiring, `configureSearchBar`, `configureTableView`, `configureGestureRecognizers`, anchors, colours, `indicatorView`): presentation only. The laid-out origins of drawer and button are parameters.
- The table view data source (a fixed 10 rows, and the forced cast in `cellForRowAt`): a placeholder built on library calls.
- Animation timing (0.5 s and 0.25 s, spring damping, easing) and the `finished` flag passed to completions: an animation is an instant frame assignment plus a queued completion. No completion reads the flag.
- `searchBar.endEditing(true)`: first-responder handling belongs to UIKit, and the drawer implements no end-editing callback.
- `CGFloat` coordinates are modelled as integers, since every offset the source uses is a whole number of points.
- The interaction lock of `UIView.animate`: without `.allowUserInteraction` (SearchInputView.swift:105), UIKit ignores touches on the drawer while it animates. The model still lets `Deliver` run a handler mid-animation, so `SwipeReadsStaleState`, `StaleStateRace` and `StaleSwipeHidesButton` describe what the handlers compute if called then, not a path a user's touches can take.
- A button animation interrupted by a later one: the button's 0.25 s animations have no completion, so their assignments are modelled as immediate.
