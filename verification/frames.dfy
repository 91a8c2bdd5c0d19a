/** The transform-frame store: one frame per element, created lazily on
    first access (`frameMap`, `newFrame`, `getFrame`). */
module Frames {
  import opened Common

  /** A transform record. The source stores "px"/"deg" strings and parses
      them back; the model keeps the numbers. */
  datatype Frame = Frame(
    translateX: real,
    translateY: real,
    rotate: real,
    scaleX: real,
    scaleY: real,
    width: Option<real>,
    height: Option<real>)

  type FrameStore = map<Element, Frame>

  /** The frame `newFrame` builds: no translation, no rotation, unit scale,
      no explicit size. */
  const IdentityFrame: Frame := Frame(0.0, 0.0, 0.0, 1.0, 1.0, None, None)

  /** What `getFrame` yields: the frame handed out and the store after the call. */
  datatype Access = Access(frame: Frame, store: FrameStore)

  /** The frame `getFrame` would hand out for `el`: the stored one, or the
      identity frame when there is none yet. */
  function Current(store: FrameStore, el: Element): Frame {
    if el in store then store[el] else IdentityFrame
  }

  /** `getFrame`: the stored frame of `el`, or a fresh identity frame that is
      inserted first. */
  function GetFrame(store: FrameStore, el: Element): (r: Access)
    ensures el in r.store && r.store[el] == r.frame
    ensures r.store.Keys == store.Keys + {el}
    ensures forall k :: k in store ==> r.store[k] == store[k]
    ensures el !in store ==> r.frame == IdentityFrame
  {
    if el in store then Access(store[el], store)
    else Access(IdentityFrame, store[el := IdentityFrame])
  }

  /** `g` differs from `f` at most in its translation. */
  predicate OnlyTranslated(f: Frame, g: Frame) {
    && f.rotate == g.rotate
    && f.scaleX == g.scaleX && f.scaleY == g.scaleY
    && f.width == g.width && f.height == g.height
  }

  /** `g` differs from `f` at most in its size and translation. */
  predicate OnlyResized(f: Frame, g: Frame) {
    && f.rotate == g.rotate
    && f.scaleX == g.scaleX && f.scaleY == g.scaleY
  }

  /** `g` differs from `f` at most in its rotation and translation. */
  predicate OnlyTurned(f: Frame, g: Frame) {
    && f.scaleX == g.scaleX && f.scaleY == g.scaleY
    && f.width == g.width && f.height == g.height
  }

  /** `a` and `b` hold the same frames for every element outside `touched`. */
  ghost predicate AgreeOutside(a: FrameStore, b: FrameStore, touched: set<Element>) {
    forall k :: k !in touched ==> (k in a <==> k in b) && (k in a ==> a[k] == b[k])
  }

  /** `b` is `a` with frames materialised for `ks`: every element still gets
      the frame `getFrame` would have given it before. */
  ghost predicate Materialized(a: FrameStore, b: FrameStore, ks: set<Element>) {
    && b.Keys == a.Keys + ks
    && forall x :: Current(b, x) == Current(a, x)
  }

  /** A second `getFrame` on the same element hands out the same frame and
      leaves the store as the first call left it: the store never holds two
      frames for one element. */
  lemma GetFrameStable(store: FrameStore, el: Element)
    ensures var first := GetFrame(store, el);
            GetFrame(first.store, el) == Access(first.frame, first.store)
    ensures el in store ==> GetFrame(store, el).store == store
  {
  }
}
