/** Tool panels, and what the two updaters of main/src/events.ts compute for one. */
module Panels {
  import opened Options

  type PanelId = string

  datatype PanelStatus = Idle | Running | Waiting | Stopped | CompletedUnviewed | Failed

  /** `customState`: None is an absent key; a present contextUsage may still be null. */
  datatype Custom = Custom(
    panelStatus: Option<PanelStatus>,
    hasUnviewedContent: Option<bool>,
    lastActivityTime: Option<string>,
    contextUsage: Option<Option<string>>,
    other: map<string, string>)

  const EMPTY := Custom(None, None, None, None, map[])

  datatype PanelKind = Claude | Terminal | Diff | Logs

  datatype Panel = Panel(kind: PanelKind, isActive: bool, custom: Option<Custom>)

  /** What a caller asks for: updateAIPanelStatus, or updateClaudePanelCustomState. */
  datatype Update =
    | StatusWrite(status: PanelStatus, unviewed: Option<bool>, now: string)
    | Mutation(mutator: Custom -> Custom)

  /** The custom state an updater computes from the one it read. */
  function Computed(read: Option<Custom>, u: Update): Custom {
    var base := read.GetOr(EMPTY);
    match u
    case StatusWrite(status, unviewed, now) =>
      var next := base.(panelStatus := Some(status), lastActivityTime := Some(now));
      if unviewed.Some? then next.(hasUnviewedContent := unviewed) else next
    case Mutation(mutator) =>
      mutator(if base.contextUsage.None? then base.(contextUsage := Some(None)) else base)
  }

  /** updateAIPanelStatus returns early for a panel that is not a Claude panel. */
  predicate Accepts(kind: PanelKind, u: Update) {
    u.Mutation? || kind == Claude
  }

  // ----- the writers in main/src/ipc/panels.ts, which do not take the panel-state lock -----

  /** `panels:clearUnviewedContent`, and `panels:update` with a state. */
  datatype Edit =
    | ClearUnviewed(now: string)
    | Replace(isActive: bool, custom: Option<Custom>)

  /** The panel state an edit computes from the one it read. */
  function Edited(read: Panel, edit: Edit): Panel {
    match edit
    case ClearUnviewed(now) =>
      var base := read.custom.GetOr(EMPTY);
      var status := if base.panelStatus == Some(CompletedUnviewed) then Some(Stopped) else base.panelStatus;
      read.(custom := Some(base.(hasUnviewedContent := Some(false), panelStatus := status, lastActivityTime := Some(now))))
    case Replace(isActive, custom) => read.(isActive := isActive, custom := custom)
  }

  /** Clearing returns early for a panel that is not a Claude panel. */
  predicate Edits(kind: PanelKind, edit: Edit) {
    edit.Replace? || kind == Claude
  }
}
