/** The game session of cerebro.js: its module variables (`tabuleiro`, `pecaAtual`,
    `proximaPeca`, `posicao`, `intervalo`, `tempoIntervalo`, `segundos`) are the fields of the
    class `Session`, and the gravity tick, hard drop, start, pause, reset and the move / rotate /
    soft-drop handlers are its methods. Each method is specified by a function on `Frame`, the
    value of all those variables together with the scoring state. Timers are reduced to their
    handles; the random piece generator is replaced by the drawn piece, passed in. */
module Game {
  import opened Motor
  import opened Scoring
  import Controls
  import Ranking
  import Canvas

  const MIN_TICK_MS := 80
  const BASE_TICK_MS := 600
  const TICK_STEP_MS := 20
  const CLOCK_MS := 1000

  /** The gravity period chosen at start: `Math.max(80, 600 - nivel * 20)` milliseconds. */
  function TickPeriod(level: int): (ms: int)
    ensures ms >= MIN_TICK_MS
    ensures ms == MIN_TICK_MS || ms == BASE_TICK_MS - TICK_STEP_MS * level
    ensures ms == MIN_TICK_MS <==> level >= 26
  {
    var ms := BASE_TICK_MS - level * TICK_STEP_MS;
    if ms > MIN_TICK_MS then ms else MIN_TICK_MS
  }

  /** A higher level never gives a slower start. */
  lemma TickPeriodMonotone(a: int, b: int)
    requires a <= b
    ensures TickPeriod(b) <= TickPeriod(a)
  {
  }

  /** An interval handle: none (`null`), a running interval of some period, or one that was
      stopped by `clearInterval` but whose handle was kept. */
  datatype Timer = Null | Live(period: int) | Cleared(period: int)

  /** `clearInterval(h)` without resetting the variable that holds `h`. */
  function Cancel(t: Timer): (r: Timer)
    ensures !r.Live?
    ensures t.Null? <==> r.Null?
  {
    match t
    case Live(p) => Cleared(p)
    case _ => t
  }

  /** All the session variables, with the scoring state of pontuacao.js. */
  datatype Frame = Frame(
    board: Matrix,        // tabuleiro
    current: Matrix,      // pecaAtual
    next: Matrix,         // proximaPeca
    x: int,               // posicao.x
    y: int,               // posicao.y
    interval: Timer,      // intervalo (gravity)
    clock: Timer,         // tempoIntervalo (seconds counter)
    seconds: nat,         // segundos
    scores: ScoreState)

  /** The two timers go together: both absent, both running (the clock every second), or both
      stopped by a game over. So there is never more than one gravity timer or one clock. */
  predicate Paired(interval: Timer, clock: Timer) {
    (interval.Null? && clock.Null?)
    || (interval.Live? && clock == Live(CLOCK_MS))
    || (interval.Cleared? && clock == Cleared(CLOCK_MS))
  }

  predicate Wellformed(f: Frame) {
    Consistent(f.scores) && Paired(f.interval, f.clock)
  }

  /** What a gravity tick ended in: the piece fell a row, it locked after clearing `lines` rows,
      or it locked and the next piece could not be placed (`mostrarModalFim(pontuacao)`). */
  datatype TickEvent = Fell | Locked(lines: int) | GameOver(finalScore: int)

  /** The session right after loading, or after a reset, given the two pieces drawn for it. */
  function Fresh(m: Routines, first: Matrix, second: Matrix): (f: Frame)
    ensures Wellformed(f) && f.x == m.SpawnX() && f.y == 0 && f.board == m.blank
    ensures f.current == first && f.next == second
    ensures f.interval == Null && f.clock == Null && f.seconds == 0 && f.scores == INITIAL
  {
    Frame(m.blank, first, second, m.SpawnX(), 0, Null, Null, 0, INITIAL)
  }

  /** `atualizar()`; `drawn` is the piece `gerarPeca` returns when the current one locks. */
  function TickFrame(m: Routines, f: Frame, drawn: Matrix): (r: (Frame, TickEvent))
    ensures r.1 == Fell <==> !Controls.Locks(m, f.board, f.current, f.x, f.y)
    ensures r.1 == Fell ==> r.0 == f.(y := f.y + 1)
    ensures r.1 != Fell ==>
      var (cleared, lines) := m.clearLines(m.fuse(f.board, f.current, f.x, f.y));
      && r.0.board == cleared && r.0.scores == Apply(f.scores, lines)
      && r.0.current == f.next && r.0.next == drawn
      && r.0.x == m.SpawnX() && r.0.y == 0 && r.0.seconds == f.seconds
      && (r.1.GameOver? <==> m.collides(cleared, f.next, m.SpawnX(), 0))
    ensures r.1.GameOver? ==>
      r.0.interval == Cancel(f.interval) && r.0.clock == Cancel(f.clock) && r.1.finalScore == r.0.scores.score
    ensures !r.1.GameOver? ==> r.0.interval == f.interval && r.0.clock == f.clock
    ensures Wellformed(f) ==> Wellformed(r.0)
  {
    if !Controls.Locks(m, f.board, f.current, f.x, f.y) then
      (f.(y := f.y + 1), Fell)
    else
      var (cleared, lines) := m.clearLines(m.fuse(f.board, f.current, f.x, f.y));
      var scores := Apply(f.scores, lines);
      var g := f.(board := cleared, current := f.next, next := drawn, x := m.SpawnX(), y := 0, scores := scores);
      if m.collides(cleared, f.next, m.SpawnX(), 0) then
        (g.(interval := Cancel(f.interval), clock := Cancel(f.clock)), GameOver(scores.score))
      else
        (g, Locked(lines))
  }

  /** The start handler: only when no gravity interval is held, schedule one at the current
      level's period and start the clock. */
  function StartFrame(f: Frame): (r: Frame)
    ensures f.interval.Null? ==> r == f.(interval := Live(TickPeriod(f.scores.level)), clock := Live(CLOCK_MS))
    ensures !f.interval.Null? ==> r == f
    ensures Wellformed(f) ==> Wellformed(r)
  {
    if f.interval.Null? then f.(interval := Live(TickPeriod(f.scores.level)), clock := Live(CLOCK_MS)) else f
  }

  /** `pausarJogo()`: both timers stopped and their handles dropped. */
  function PauseFrame(f: Frame): (r: Frame)
    ensures r.interval == Null && r.clock == Null
    ensures r == f.(interval := Null, clock := Null)
    ensures Wellformed(f) ==> Wellformed(r)
  {
    f.(interval := Null, clock := Null)
  }

  /** The move handler: `moverPeca` on the current piece. */
  function MoveFrame(m: Routines, f: Frame, direction: int): (r: Frame)
    ensures r == f.(x := Controls.MovedX(m, f.board, f.current, f.x, f.y, direction))
    ensures Wellformed(f) ==> Wellformed(r)
  {
    f.(x := Controls.MovedX(m, f.board, f.current, f.x, f.y, direction))
  }

  /** The rotate handler: the current piece becomes what `rodarPeca` returns. */
  function RotateFrame(m: Routines, f: Frame, direction: int): (r: Frame)
    ensures r == f.(current := Controls.Rotate(m, direction, f.current, f.board, f.x, f.y))
    ensures Wellformed(f) ==> Wellformed(r)
  {
    f.(current := Controls.Rotate(m, direction, f.current, f.board, f.x, f.y))
  }

  /** The row `quedaInstantanea`'s loop stops at: the first row at or below `y` whose next row
      collides. `floor` is a row from which on every row collides, which the board's bottom
      provides and which makes the loop end. */
  function Landing(m: Routines, board: Matrix, piece: Matrix, x: int, y: int, floor: int): (r: int)
    requires forall k :: k >= floor ==> m.collides(board, piece, x, k)
    ensures r >= y
    ensures m.collides(board, piece, x, r + 1)
    ensures forall k :: y < k <= r ==> !m.collides(board, piece, x, k)
    decreases floor - y
  {
    if m.collides(board, piece, x, y + 1) then y else Landing(m, board, piece, x, y + 1, floor)
  }

  /** Starting again from the landing row stays there. */
  lemma LandingIdempotent(m: Routines, board: Matrix, piece: Matrix, x: int, y: int, floor: int)
    requires forall k :: k >= floor ==> m.collides(board, piece, x, k)
    ensures Landing(m, board, piece, x, Landing(m, board, piece, x, y, floor), floor) == Landing(m, board, piece, x, y, floor)
  {
  }

  /** The tick that follows a hard drop always locks. */
  lemma HardDropLocks(m: Routines, f: Frame, drawn: Matrix, floor: int)
    requires forall k :: k >= floor ==> m.collides(f.board, f.current, f.x, k)
    ensures TickFrame(m, f.(y := Landing(m, f.board, f.current, f.x, f.y, floor)), drawn).1 != Fell
  {
  }

  /** The soft-drop handler has the effect of exactly one tick: a lock is a full tick, and
      the one-row fall is what a tick does anyway. */
  lemma SoftDropIsTick(m: Routines, f: Frame, drawn: Matrix)
    ensures (if Controls.Locks(m, f.board, f.current, f.x, f.y) then TickFrame(m, f, drawn).0
             else f.(y := Controls.DroppedY(m, f.board, f.current, f.x, f.y)))
            == TickFrame(m, f, drawn).0
  {
  }

  /** After a game over the gravity handle is kept though stopped, so the start handler does
      nothing until a pause or a reset drops it. */
  lemma NoRestartAfterGameOver(m: Routines, f: Frame, drawn: Matrix)
    requires Wellformed(f) && f.interval.Live? && TickFrame(m, f, drawn).1.GameOver?
    ensures StartFrame(TickFrame(m, f, drawn).0) == TickFrame(m, f, drawn).0
    ensures StartFrame(PauseFrame(TickFrame(m, f, drawn).0)).interval.Live?
  {
  }

  /** The clock counts `segundos` and canvas.js shows them as `Canvas.FormatTime(seconds)`; a
      save records that text. With few combos such a record ranks relampago exactly when the
      game lasted at most a minute. */
  lemma LightningGame(combos: int, seconds: nat)
    requires combos < Ranking.FAST_COMBOS
    ensures Ranking.HighlightFor(combos, Canvas.FormatTime(seconds)) == Ranking.Relampago <==> seconds <= 60
  {
    Canvas.WithinAMinute(seconds);
  }

  /** The module variables of cerebro.js, with the tracker of pontuacao.js they drive. */
  class Session {
    const motor: Routines
    const tracker: ScoreTracker
    var board: Matrix                 // tabuleiro
    var current: Matrix               // pecaAtual
    var next: Matrix                  // proximaPeca
    var pos: Controls.Position        // posicao
    var interval: Timer               // intervalo
    var clock: Timer                  // tempoIntervalo
    var seconds: nat                  // segundos

    function Snapshot(): Frame
      reads this, pos, tracker
    {
      Frame(board, current, next, pos.x, pos.y, interval, clock, seconds, tracker.State())
    }

    ghost predicate Valid()
      reads this, pos, tracker
    {
      Wellformed(Snapshot())
    }

    /** Page load: an empty board, the two first pieces, the piece at the spawn point, no timers;
        `stored` is the ranking found in storage. */
    constructor (m: Routines, stored: seq<Ranking.Entry>, first: Matrix, second: Matrix)
      ensures Valid() && motor == m
      ensures Snapshot() == Fresh(m, first, second)
      ensures tracker.ranking == stored
      ensures fresh(tracker) && fresh(pos)
    {
      motor := m;
      tracker := new ScoreTracker(stored);
      board := m.blank;
      current, next := first, second;
      pos := new Controls.Position(m.SpawnX(), 0);
      interval, clock := Null, Null;
      seconds := 0;
    }

    /** `atualizar()`. */
    method Tick(drawn: Matrix) returns (event: TickEvent)
      requires Valid()
      modifies this, pos, tracker
      ensures Valid()
      ensures (Snapshot(), event) == TickFrame(motor, old(Snapshot()), drawn)
      ensures tracker.ranking == old(tracker.ranking)
    {
      ghost var f := Snapshot();
      pos.y := pos.y + 1;
      if motor.collides(board, current, pos.x, pos.y) {
        pos.y := pos.y - 1;
        assert Controls.Locks(motor, f.board, f.current, f.x, f.y);
        board := motor.fuse(board, current, pos.x, pos.y);
        var compacted := motor.clearLines(board);
        board := compacted.0;
        var lines := compacted.1;
        var report := tracker.ProcessLines(lines);
        current, next := next, drawn;
        pos := new Controls.Position(motor.SpawnX(), 0);
        if motor.collides(board, current, pos.x, pos.y) {
          interval := Cancel(interval);
          clock := Cancel(clock);
          return GameOver(report.score);
        }
        return Locked(lines);
      }
      assert !Controls.Locks(motor, f.board, f.current, f.x, f.y);
      return Fell;
    }

    /** `quedaInstantanea()`: lower the piece while the next row is free, then tick. */
    method HardDrop(drawn: Matrix, ghost floor: int) returns (event: TickEvent)
      requires Valid()
      requires forall k :: k >= floor ==> motor.collides(board, current, pos.x, k)
      modifies this, pos, tracker
      ensures Valid()
      ensures (Snapshot(), event) == TickFrame(motor,
        old(Snapshot()).(y := Landing(motor, old(board), old(current), old(pos.x), old(pos.y), floor)), drawn)
      ensures event != Fell
      ensures tracker.ranking == old(tracker.ranking)
    {
      ghost var target := Landing(motor, board, current, pos.x, pos.y, floor);
      while !motor.collides(board, current, pos.x, pos.y + 1)
        invariant pos == old(pos) && tracker.ranking == old(tracker.ranking)
        invariant Snapshot() == old(Snapshot()).(y := pos.y)
        invariant pos.y <= target
        invariant Landing(motor, board, current, pos.x, pos.y, floor) == target
        decreases floor - pos.y
      {
        pos.y := pos.y + 1;
      }
      HardDropLocks(motor, old(Snapshot()), drawn, floor);
      event := Tick(drawn);
    }

    /** `pausarJogo()`. */
    method Pause()
      requires Valid()
      modifies this
      ensures Valid()
      ensures Snapshot() == PauseFrame(old(Snapshot()))
    {
      interval := Null;
      clock := Null;
    }

    /** The start button's handler. */
    method Start()
      requires Valid()
      modifies this
      ensures Valid()
      ensures Snapshot() == StartFrame(old(Snapshot()))
    {
      if interval.Null? {
        interval := Live(TickPeriod(tracker.level));
        clock := Live(CLOCK_MS);
      }
    }

    /** The reset button's handler, with the two pieces drawn for the new game. */
    method Reset(first: Matrix, second: Matrix)
      requires Valid()
      modifies this, pos, tracker
      ensures Valid()
      ensures Snapshot() == Fresh(motor, first, second)
      ensures tracker.ranking == old(tracker.ranking)
    {
      Pause();
      board := motor.blank;
      current, next := first, second;
      pos := new Controls.Position(motor.SpawnX(), 0);
      seconds := 0;
      tracker.Reset();
    }

    /** The move handler passed to `configurarControlos`. */
    method MoveHandler(direction: int)
      requires Valid()
      modifies pos
      ensures Valid()
      ensures Snapshot() == MoveFrame(motor, old(Snapshot()), direction)
    {
      Controls.Move(motor, direction, board, current, pos);
    }

    /** The rotate handler: the current piece is replaced only when `rodarPeca` returned a
        different one. */
    method RotateHandler(direction: int)
      requires Valid()
      modifies this
      ensures Valid()
      ensures Snapshot() == RotateFrame(motor, old(Snapshot()), direction)
    {
      var turned := Controls.Rotate(motor, direction, current, board, pos.x, pos.y);
      if turned != current {
        current := turned;
      }
    }

    /** The soft-drop handler: `descerPeca`, and a full tick when it reports a lock. */
    method SoftDropHandler(drawn: Matrix) returns (locked: bool)
      requires Valid()
      modifies this, pos, tracker
      ensures Valid()
      ensures locked == Controls.Locks(motor, old(board), old(current), old(pos.x), old(pos.y))
      ensures Snapshot() == TickFrame(motor, old(Snapshot()), drawn).0
      ensures tracker.ranking == old(tracker.ranking)
    {
      locked := Controls.Drop(motor, board, current, pos);
      if locked {
        var _ := Tick(drawn);
      }
      SoftDropIsTick(motor, old(Snapshot()), drawn);
    }
  }
}
