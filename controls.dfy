/** The piece primitives and the keyboard dispatch of controlos.js. The shared position object
    `posicao` is the class `Position`; `moverPeca` and `descerPeca` change it in place, try the
    new position against the collision routine and undo the change when it collides. */
module Controls {
  import opened Motor
  import opened Text

  /** The `{ x, y }` object the session and the primitives share. */
  class Position {
    var x: int
    var y: int

    constructor (x: int, y: int)
      ensures this.x == x && this.y == y
    {
      this.x := x;
      this.y := y;
    }
  }

  /** The column `moverPeca` leaves the piece in: one step of `direction` when that does not
      collide, otherwise where it was. */
  function MovedX(m: Routines, board: Matrix, piece: Matrix, x: int, y: int, direction: int): (r: int)
    ensures m.collides(board, piece, x + direction, y) ==> r == x
    ensures !m.collides(board, piece, x + direction, y) ==> r == x + direction
    ensures !m.collides(board, piece, x, y) ==> !m.collides(board, piece, r, y)
  {
    if m.collides(board, piece, x + direction, y) then x else x + direction
  }

  /** Moving back undoes a move that succeeded. */
  lemma MoveBack(m: Routines, board: Matrix, piece: Matrix, x: int, y: int, direction: int)
    requires !m.collides(board, piece, x, y) && MovedX(m, board, piece, x, y, direction) == x + direction
    ensures MovedX(m, board, piece, x + direction, y, -direction) == x
  {
  }

  /** `moverPeca(direcao, tabuleiro, peca, posicao)`. */
  method Move(m: Routines, direction: int, board: Matrix, piece: Matrix, pos: Position)
    modifies pos
    ensures pos.x == MovedX(m, board, piece, old(pos.x), old(pos.y), direction)
    ensures pos.y == old(pos.y)
  {
    pos.x := pos.x + direction;
    if m.collides(board, piece, pos.x, pos.y) {
      pos.x := pos.x - direction;
    }
  }

  /** Whether `descerPeca` reports a lock: the row below collides. */
  function Locks(m: Routines, board: Matrix, piece: Matrix, x: int, y: int): bool {
    m.collides(board, piece, x, y + 1)
  }

  /** The row `descerPeca` leaves the piece in: one lower unless that locks. */
  function DroppedY(m: Routines, board: Matrix, piece: Matrix, x: int, y: int): (r: int)
    ensures Locks(m, board, piece, x, y) <==> r == y
    ensures !Locks(m, board, piece, x, y) <==> r == y + 1
    ensures !m.collides(board, piece, x, y) ==> !m.collides(board, piece, x, r)
  {
    if Locks(m, board, piece, x, y) then y else y + 1
  }

  /** `descerPeca(tabuleiro, peca, posicao)`: true when the piece locked, in which case the
      position is back where it was. */
  method Drop(m: Routines, board: Matrix, piece: Matrix, pos: Position) returns (locked: bool)
    modifies pos
    ensures locked == Locks(m, board, piece, old(pos.x), old(pos.y))
    ensures pos.x == old(pos.x)
    ensures pos.y == DroppedY(m, board, piece, old(pos.x), old(pos.y))
  {
    pos.y := pos.y + 1;
    if m.collides(board, piece, pos.x, pos.y) {
      pos.y := pos.y - 1;
      return true;
    }
    return false;
  }

  /** `rodarPeca(direcao, peca, tabuleiro, posicao)`: the rotated piece when it fits where the
      piece is, otherwise the piece itself. */
  function Rotate(m: Routines, direction: int, piece: Matrix, board: Matrix, x: int, y: int): (r: Matrix)
    ensures r == piece || r == m.rotate(piece, direction)
    ensures m.collides(board, m.rotate(piece, direction), x, y) ==> r == piece
    ensures !m.collides(board, m.rotate(piece, direction), x, y) ==> r == m.rotate(piece, direction)
    ensures !m.collides(board, piece, x, y) ==> !m.collides(board, r, x, y)
  {
    var turned := m.rotate(piece, direction);
    if m.collides(board, turned, x, y) then piece else turned
  }

  /** What a key press asks of the game. */
  datatype Action = MoveBy(direction: int) | SoftDrop | RotateBy(direction: int) | HardDrop | Pause | Ignore

  /** The `switch` of the keydown listener, on the lower-cased key code; a repeated key
      (held down) does nothing. */
  function KeyAction(code: string, repeat: bool): (a: Action)
    ensures repeat ==> a == Ignore
    ensures !repeat && ToLower(code) == "arrowleft" ==> a == MoveBy(-1)
    ensures !repeat && ToLower(code) == "arrowright" ==> a == MoveBy(1)
    ensures !repeat && ToLower(code) == "arrowdown" ==> a == SoftDrop
    ensures !repeat && ToLower(code) == "arrowup" ==> a == RotateBy(1)
    ensures !repeat && ToLower(code) == "space" ==> a == HardDrop
    ensures !repeat && ToLower(code) == "keyp" ==> a == Pause
    ensures a == Ignore <==> repeat || ToLower(code) !in KEYS
  {
    var key := ToLower(code);
    if repeat then Ignore
    else if key == "arrowleft" then MoveBy(-1)
    else if key == "arrowright" then MoveBy(1)
    else if key == "arrowdown" then SoftDrop
    else if key == "arrowup" then RotateBy(1)
    else if key == "space" then HardDrop
    else if key == "keyp" then Pause
    else Ignore
  }

  /** The key codes the dispatch acts on. */
  const KEYS: set<string> := {"arrowleft", "arrowright", "arrowdown", "arrowup", "space", "keyp"}

  /** The key codes whose browser default (scrolling) is suppressed. */
  const BLOCKED: set<string> := {"arrowleft", "arrowright", "arrowup", "arrowdown", "space"}

  /** Whether the listener calls `preventDefault`: for the arrows and space, held down or not.
      These are exactly the keys that act when not held down, except "keyp", which pauses
      without its default being suppressed. */
  function BlocksDefault(code: string): (b: bool)
    ensures b <==> KeyAction(code, false) != Ignore && KeyAction(code, false) != Pause
    ensures b ==> KeyAction(code, true) == Ignore
  {
    ToLower(code) in BLOCKED
  }

  /** The dispatch does not depend on the letter case of the key code. */
  lemma KeyCaseInsensitive(code: string, repeat: bool)
    ensures KeyAction(ToLower(code), repeat) == KeyAction(code, repeat)
    ensures BlocksDefault(ToLower(code)) == BlocksDefault(code)
  {
    ToLowerIdempotent(code);
  }
}
