/** The computational part of canvas.js: the "MM:SS" text of the time display, the colour
    lookup, and which cells `desenharJogo` paints (recast as the sequence of painted cells,
    in painting order; pixels, sizes and the 2-D context are not modelled). */
module Canvas {
  import opened Text
  import opened Motor
  import opened Optional

  const FALLBACK_COLOR := "#aaaaaa"

  /** `String(n).padStart(2, "0")`: a field of the time display. */
  function Field(n: nat): (f: string)
    ensures |f| >= 2 && AllDigits(f) && ParseDigits(f) == n
    ensures n < 100 ==> f == [DigitChar(n / 10), DigitChar(n % 10)]
    ensures n >= 100 ==> f == Digits(n) && f[0] != '0'
  {
    var f := PadStart(Digits(n), 2, '0');
    PadKeepsValue(Digits(n), 2);
    DigitsRoundTrip(n);
    if n < 100 then TwoDigits(n); f else f
  }

  /** A number below 100 prints, once padded, as its tens digit and its units digit. */
  lemma TwoDigits(n: nat)
    requires n < 100
    ensures PadStart(Digits(n), 2, '0') == [DigitChar(n / 10), DigitChar(n % 10)]
  {
    if n >= 10 {
      assert Digits(n) == Digits(n / 10) + [DigitChar(n % 10)];
    }
  }

  /** Where the parts of `mm + ":" + ss` sit. */
  lemma Joined(mm: string, ss: string)
    requires |mm| >= 2 && |ss| == 2
    ensures var r := mm + ":" + ss;
      |r| == |mm| + 3 && r[|r| - 3] == ':' && r[..|r| - 3] == mm && r[|r| - 2..] == ss
      && r[0] == mm[0] && r[|r| - 2] == ss[0]
  {
  }

  /** `atualizarTempo(segundos)`: minutes and seconds, each padded with '0' to two characters. */
  function FormatTime(seconds: nat): (r: string)
    ensures |r| >= 5 && r[|r| - 3] == ':'
    ensures seconds < 6000 ==> |r| == 5
    ensures AllDigits(r[..|r| - 3]) && AllDigits(r[|r| - 2..])
    ensures '0' <= r[|r| - 2] <= '5'
    ensures seconds >= 600 ==> r[0] != '0'
  {
    var mm, ss := Field(seconds / 60), Field(seconds % 60);
    Joined(mm, ss);
    mm + ":" + ss
  }

  /** Reads an "MM:SS" text back as a number of seconds: at least two minute digits, a colon,
      exactly two second digits. */
  function ParseTime(text: string): Option<nat> {
    var n := |text|;
    if n >= 5 && text[n - 3] == ':' && AllDigits(text[..n - 3]) && AllDigits(text[n - 2..]) then
      Some(ParseDigits(text[..n - 3]) * 60 + ParseDigits(text[n - 2..]))
    else
      None
  }

  /** The display reads back as the number of seconds it was made from. */
  lemma FormatTimeRoundTrip(seconds: nat)
    ensures ParseTime(FormatTime(seconds)) == Some(seconds)
  {
    var mm, ss := Field(seconds / 60), Field(seconds % 60);
    Joined(mm, ss);
    assert FormatTime(seconds) == mm + ":" + ss;
    assert ParseDigits(mm) * 60 + ParseDigits(ss) == seconds;
  }

  /** `"01:00" < t` for a five-character `t`, character by character. */
  lemma LimitBelow(t: string)
    requires |t| == 5
    ensures Less("01:00", t) <==>
      t[0] > '0' || (t[0] == '0' && (t[1] > '1' || (t[1] == '1' && (t[2] > ':' || (t[2] == ':' &&
      (t[3] > '0' || (t[3] == '0' && t[4] > '0')))))))
  {
    var limit := "01:00";
    assert limit[1..] == "1:00" && limit[1..][1..] == ":00";
    assert limit[1..][1..][1..] == "00" && limit[1..][1..][1..][1..] == "0";
    assert limit[1..][1..][1..][1..][1..] == [];
    assert t[1..][1..][1..][1..][1..] == [];
  }

  lemma DigitOrder(d: nat)
    requires d < 10
    ensures DigitChar(d) == '0' <==> d == 0
    ensures DigitChar(d) == '1' <==> d == 1
    ensures DigitChar(d) > '0' <==> d > 0
    ensures DigitChar(d) > '1' <==> d > 1
  {
  }

  /** Digit by digit: "ab:cd" compares at most "01:00" exactly when it reads "00:cd" or "01:00". */
  lemma DigitsWithinAMinute(a: nat, b: nat, c: nat, d: nat)
    requires a < 10 && b < 10 && c < 10 && d < 10
    ensures LessOrEqual([DigitChar(a), DigitChar(b), ':', DigitChar(c), DigitChar(d)], "01:00")
            <==> a == 0 && (b == 0 || (b == 1 && c == 0 && d == 0))
  {
    LimitBelow([DigitChar(a), DigitChar(b), ':', DigitChar(c), DigitChar(d)]);
    DigitOrder(a);
    DigitOrder(b);
    DigitOrder(c);
    DigitOrder(d);
  }

  /** The display of `m` minutes and `s` seconds compares at most "01:00" exactly when it shows
      at most one minute. */
  lemma ClockWithinAMinute(m: nat, s: nat)
    requires m < 100 && s < 60
    ensures LessOrEqual(Field(m) + ":" + Field(s), "01:00") <==> m == 0 || (m == 1 && s == 0)
  {
    var a, b, c, d := m / 10, m % 10, s / 10, s % 10;
    assert m == 10 * a + b && s == 10 * c + d;
    assert Field(m) + ":" + Field(s) == [DigitChar(a), DigitChar(b), ':', DigitChar(c), DigitChar(d)];
    DigitsWithinAMinute(a, b, c, d);
  }

  /** As strings, the display compares at most "01:00" exactly when at most a minute has passed. */
  lemma WithinAMinute(seconds: nat)
    ensures LessOrEqual(FormatTime(seconds), "01:00") <==> seconds <= 60
  {
    var m, s := seconds / 60, seconds % 60;
    assert seconds == m * 60 + s;
    if m < 100 {
      ClockWithinAMinute(m, s);
    } else {
      LongClock(seconds);
    }
  }

  lemma LongClock(seconds: nat)
    requires seconds / 60 >= 100
    ensures Less("01:00", FormatTime(seconds))
  {
    var mm, ss := Field(seconds / 60), Field(seconds % 60);
    Joined(mm, ss);
    assert FormatTime(seconds)[0] == mm[0] && IsDigit(mm[0]);
  }

  /** `obterCor(valor)`: the palette entry (`CORES` of motor.js) when there is a non-empty one,
      otherwise grey. */
  function ColorOf(palette: map<int, string>, value: int): (color: string)
    ensures color != []
    ensures value in palette && palette[value] != [] ==> color == palette[value]
    ensures value !in palette || palette[value] == [] ==> color == FALLBACK_COLOR
  {
    if value in palette && palette[value] != [] then palette[value] else FALLBACK_COLOR
  }

  /** A painted block: its cell coordinates on the board and the value that picks its colour. */
  datatype Cell = Cell(x: int, y: int, value: int)

  /** `c` is painted from entry `c.x - x0` of `values`, on row `y`. */
  predicate InRow(values: seq<int>, x0: int, y: int, c: Cell) {
    c.y == y && 0 <= c.x - x0 < |values| && c.value == values[c.x - x0] && c.value != 0
  }

  /** One row of cells, its first entry at column `x0`: the non-zero entries, left to right. */
  function RowCells(values: seq<int>, x0: int, y: int): (r: seq<Cell>)
    ensures forall c :: c in r <==> InRow(values, x0, y, c)
    ensures forall i, j :: 0 <= i < j < |r| ==> r[i].x < r[j].x
    decreases |values|
  {
    if values == [] then []
    else
      var n := |values| - 1;
      var init := RowCells(values[..n], x0, y);
      assert forall c :: InRow(values[..n], x0, y, c) ==> InRow(values, x0, y, c);
      assert forall i :: 0 <= i < |init| ==> init[i] in init;
      assert forall i :: 0 <= i < |init| ==> InRow(values[..n], x0, y, init[i]);
      init + (if values[n] != 0 then [Cell(x0 + n, y, values[n])] else [])
  }

  /** The first `n` entries of a row, or the whole row if it is shorter (`tabuleiro[y][x]` for
      `x` past the row's end is `undefined`, which is not painted). */
  function Prefix(row: seq<int>, n: nat): (r: seq<int>)
    ensures |r| == (if |row| <= n then |row| else n) && r == row[..|r|]
  {
    if |row| <= n then row else row[..n]
  }

  /** A board cell that `desenharJogo` paints: inside LINHAS x COLUNAS, holding a non-zero value. */
  predicate OnBoard(board: Matrix, rows: nat, columns: nat, c: Cell)
    requires |board| >= rows
  {
    0 <= c.y < rows && 0 <= c.x < columns && c.x < |board[c.y]| && board[c.y][c.x] == c.value && c.value != 0
  }

  /** The first loop nest of `desenharJogo`, over the first `rows` rows, row by row. */
  function BoardCells(board: Matrix, rows: nat, columns: nat): (r: seq<Cell>)
    requires |board| >= rows
    ensures forall c :: c in r <==> OnBoard(board, rows, columns, c)
    decreases rows
  {
    if rows == 0 then []
    else
      var y := rows - 1;
      var init := BoardCells(board, y, columns);
      var row := RowCells(Prefix(board[y], columns), 0, y);
      assert forall c :: OnBoard(board, y, columns, c) ==> OnBoard(board, rows, columns, c);
      init + row
  }

  /** An active-piece cell that `desenharJogo` paints: a non-zero entry of the piece, placed at
      `posicao` plus its own offset, on a visible row. Columns are not clipped. */
  predicate InPiece(piece: Matrix, px: int, py: int, rows: nat, c: Cell) {
    0 <= c.y < rows && 0 <= c.y - py < |piece| && InRow(piece[c.y - py], px, c.y, c)
  }

  /** Row `i` of the piece, painted on board row `py + i` when that row is visible. */
  function PieceRow(piece: Matrix, i: nat, px: int, py: int, rows: nat): (r: seq<Cell>)
    requires i < |piece|
    ensures forall c :: c in r <==> c.y - py == i && InPiece(piece, px, py, rows, c)
  {
    if 0 <= py + i < rows then RowCells(piece[i], px, py + i) else []
  }

  /** The second loop nest of `desenharJogo`, over the first `k` rows of the piece. */
  function PieceCells(piece: Matrix, k: nat, px: int, py: int, rows: nat): (r: seq<Cell>)
    requires k <= |piece|
    ensures forall c :: c in r <==> c.y - py < k && InPiece(piece, px, py, rows, c)
    decreases k
  {
    if k == 0 then [] else PieceCells(piece, k - 1, px, py, rows) + PieceRow(piece, k - 1, px, py, rows)
  }

  /** Everything `desenharJogo` paints, in painting order: the board's blocks within LINHAS x
      COLUNAS, then the active piece's over them. */
  function DrawnCells(m: Routines, board: Matrix, piece: Matrix, px: int, py: int): (r: seq<Cell>)
    requires |board| >= m.rows
    ensures forall c :: c in r <==> OnBoard(board, m.rows, m.columns, c) || InPiece(piece, px, py, m.rows, c)
  {
    BoardCells(board, m.rows, m.columns) + PieceCells(piece, |piece|, px, py, m.rows)
  }

  /** The board's blocks come first and the piece's after them, so the piece is painted on top. */
  lemma PieceOverBoard(m: Routines, board: Matrix, piece: Matrix, px: int, py: int, i: nat)
    requires |board| >= m.rows && i < |DrawnCells(m, board, piece, px, py)|
    ensures i < |BoardCells(board, m.rows, m.columns)| ==> OnBoard(board, m.rows, m.columns, DrawnCells(m, board, piece, px, py)[i])
    ensures i >= |BoardCells(board, m.rows, m.columns)| ==> InPiece(piece, px, py, m.rows, DrawnCells(m, board, piece, px, py)[i])
  {
    var onBoard := BoardCells(board, m.rows, m.columns);
    var onPiece := PieceCells(piece, |piece|, px, py, m.rows);
    var r := DrawnCells(m, board, piece, px, py);
    assert r == onBoard + onPiece;
    if i < |onBoard| {
      assert r[i] in onBoard by {
        ConcatSides(onBoard, onPiece, i);
      }
    } else {
      assert r[i] in onPiece by {
        ConcatSides(onBoard, onPiece, i);
      }
    }
  }

  /** Where an element of a concatenation comes from. */
  lemma ConcatSides(a: seq<Cell>, b: seq<Cell>, i: nat)
    requires i < |a + b|
    ensures i < |a| ==> (a + b)[i] in a
    ensures i >= |a| ==> (a + b)[i] in b
  {
    if i < |a| {
      assert (a + b)[i] == a[i];
    } else {
      assert (a + b)[i] == b[i - |a|];
    }
  }
}
