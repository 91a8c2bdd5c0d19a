/** The selectable registry `selectables`: element ids the drag-select
    collaborator may pick, filled by `handleChildMounted`. */
module Registry {
  import opened Common
  import opened ArtBoardState

  /** `this.state.selectables[id]` is truthy through an own key: the id maps
      to a live element. Keys a plain object inherits are not modelled. */
  predicate Registered(b: Board, id: string) {
    id in b.selectables && b.selectables[id].Some?
  }

  /** `handleChildMounted`: record `element` under `id` unless `id` already
      maps to a live element. A `null` entry is overwritten. */
  function ChildMounted(b: Board, id: string, element: Option<Element>): (r: Board)
    ensures Registered(b, id) ==> r == b
    ensures !Registered(b, id) ==> id in r.selectables && r.selectables[id] == element
    ensures r.selectables.Keys == b.selectables.Keys + {id}
    ensures forall other :: other in b.selectables && other != id ==>
              r.selectables[other] == b.selectables[other]
    ensures r.(selectables := b.selectables) == b
  {
    if Registered(b, id) then b
    else b.(selectables := b.selectables[id := element])
  }

  /** `handleChildUnmounted`: deliberately does nothing. */
  function ChildUnmounted(b: Board, id: string, element: Option<Element>): (r: Board)
    ensures r == b
  {
    b
  }

  /** Once an id holds a live element, no mount or unmount event changes
      its entry. */
  lemma RegisteredIsStable(b: Board, id: string, other: string, element: Option<Element>)
    requires Registered(b, other)
    ensures Registered(ChildMounted(b, id, element), other)
    ensures ChildMounted(b, id, element).selectables[other] == b.selectables[other]
  {
  }
}
