/**
 * The vocabulary shared by the drawer (SearchInputView) and its delegate (MapController):
 * the drawer's three expansion states and one call of the delegate's
 * `animateCenterMapButton(expansionState:hideButton:)`.
 */
module ExpansionStates {
  /** SearchInputView.ExpansionState: how far the bottom drawer is raised. */
  datatype ExpansionState = NotExpanded | PartiallyExpanded | FullyExpanded

  /** The arguments of one `animateCenterMapButton` call sent by the drawer. */
  datatype ButtonCall = ButtonCall(expansionState: ExpansionState, hideButton: bool)
}
