/** Values shared by every part of the artboard model. */
module Common {

  /** A value that may be absent: JavaScript's `null`/`undefined` made explicit. */
  datatype Option<+T> = None | Some(value: T)

  /** A pair of numbers: a translation, a pointer position or a recogniser delta. */
  datatype Vec2 = Vec2(x: real, y: real)

  /** A live DOM element, compared by reference as `Map.get` and
      `indexOf` compare it. Its class list can change while it is selected,
      so it is not part of its identity; the group click receives it apart. */
  datatype Element = Element(ref: nat)

  /** The class that marks an element as a manipulable wrapper. */
  const WrapperClass: string := "element__wrapper"

  /** `classList.contains("element__wrapper")` on an element's current classes. */
  predicate IsWrapper(classList: set<string>) {
    WrapperClass in classList
  }
}
