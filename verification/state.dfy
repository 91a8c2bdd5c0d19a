/** The state the `ArtBoard` component keeps, as one immutable record. */
module ArtBoardState {
  import opened Common
  import opened Frames

  /** `lastSelectElement`: when the last single selection happened and on what. */
  datatype LastSelect = LastSelect(time: int, element: Option<Element>)

  /** Where the tooltip was last shown: the pointer and the scale divided out. */
  datatype Placement = Placement(client: Vec2, scale: real)

  /** The tooltip: shown or hidden, and its last placement (hiding keeps it). */
  datatype Tooltip = Tooltip(visible: bool, placement: Option<Placement>)

  datatype Board = Board(
    frames: FrameStore,                          // frameMap
    target: seq<Element>,                        // state.target, the selection
    hasElementResizing: bool,                    // the interaction lock
    shiftKey: bool,
    ctrlKey: bool,
    rKey: bool,
    selectables: map<string, Option<Element>>,  // id -> element or null
    lastSelect: LastSelect,
    tooltip: Tooltip,
    viewScale: real)                             // props.scale

  /** The component just after mounting: nothing selected, no frames, all
      flags down, the tooltip created hidden. */
  function Initial(viewScale: real): Board {
    Board(map[], [], false, false, false, false, map[], LastSelect(0, None),
          Tooltip(false, None), viewScale)
  }
}
