/** The modifier-key flags `shiftKey`, `ctrlKey` and `rKey`, driven by
    key-down and key-up events. */
module Keys {
  import opened ArtBoardState

  datatype Key = Shift | Ctrl | R

  /** The flag `k` controls. */
  function Flag(b: Board, k: Key): bool {
    match k
    case Shift => b.shiftKey
    case Ctrl => b.ctrlKey
    case R => b.rKey
  }

  /** `b` with the flag of `k` set to `v`. */
  function WithFlag(b: Board, k: Key, v: bool): Board {
    match k
    case Shift => b.(shiftKey := v)
    case Ctrl => b.(ctrlKey := v)
    case R => b.(rKey := v)
  }

  /** Key-down: the key's flag is raised; the `r` handler only acts when the
      flag was down. Nothing else changes. */
  function KeyDown(b: Board, k: Key): (r: Board)
    ensures Flag(r, k)
    ensures WithFlag(r, k, Flag(b, k)) == b
  {
    match k
    case Shift => b.(shiftKey := true)
    case Ctrl => b.(ctrlKey := true)
    case R => if !b.rKey then b.(rKey := true) else b
  }

  /** Key-up: the key's flag is lowered; the `r` handler only acts when the
      flag was up. Nothing else changes. */
  function KeyUp(b: Board, k: Key): (r: Board)
    ensures !Flag(r, k)
    ensures WithFlag(r, k, Flag(b, k)) == b
  {
    match k
    case Shift => b.(shiftKey := false)
    case Ctrl => b.(ctrlKey := false)
    case R => if b.rKey then b.(rKey := false) else b
  }

  /** A repeated key-down is a no-op, and pressing then releasing a key that
      was up restores the board exactly. */
  lemma PressRelease(b: Board, k: Key)
    ensures KeyDown(KeyDown(b, k), k) == KeyDown(b, k)
    ensures !Flag(b, k) ==> KeyUp(KeyDown(b, k), k) == b
  {
  }
}
