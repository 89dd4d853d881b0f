# devtetris: a verified model of the game's core

This project models the engine core of devtetris, a falling-block game for the browser, in
Dafny, and proves properties of that model. It covers four source files:

- **pontuacao.js**: the score / level / combo tracker and the persisted top-10 ranking.
  - The four module variables are the fields of the class `Scoring.ScoreTracker`, which also
    holds the stored ranking list.
  - `processarLinhas`, `reiniciarPontuacao` and the ranking update of `guardarPontuacao` are its
    methods. Each is specified by a pure function: `Scoring.Apply` and `Ranking.Save`.
  - The classified view `obterRankingOrdenado` is a pure function, `Ranking.View`, built on a
    stable descending sort, `Ranking.SortDesc`.
- **controlos.js**: the piece primitives and the keyboard dispatch.
  - `moverPeca` and `descerPeca` move the shared position object, the class
    `Controls.Position`: they step it, try the collision routine and step back on a collision.
  - `rodarPeca` and the key `switch` are pure functions.
- **cerebro.js**: the game session.
  - Its module variables (board, current and next piece, position, the two timer handles,
    seconds) are the fields of `Game.Session`.
  - The gravity tick, hard drop, start, pause, reset and the move / rotate / soft-drop handlers
    are its methods.
  - Each method is specified by a function on `Game.Frame`, the value of all those variables
    together with the scoring state.
- **canvas.js**: the pure parts of drawing.
  - The "MM:SS" time display.
  - The colour fallback.
  - The cells `desenharJogo` paints, recast as a sequence of painted cells in painting order.

motor.js is not part of this model. Its routines are kept abstract as the fields of
`Motor.Routines`, and every property is stated relative to them:

| routine | field |
|---|---|
| `verificarColisao` | `collides` |
| `fundirPeca` | `fuse` |
| `limparLinhas` | `clearLines` |
| `rodar` | `rotate` |
| `criarMatriz` | `blank` |
| `COLUNAS` / `LINHAS` | `columns` / `rows` |

`fundirPeca` and `limparLinhas` change the board in place. The model gives them as functions
that return the new board (and, for clearing, the count of rows removed).

`gerarPeca` is random. Every operation that draws a piece takes the drawn piece as a parameter.

Several JavaScript built-ins are written out in `Text`:
- `String(n)`, `padStart` and `trim`, which removes ECMAScript white space and line terminators;
- `toLowerCase` on ASCII key codes;
- `<` / `<=` on strings, compared lexicographically by character.

Behaviour of the code worth knowing when reading the model:
- Combos count every clearing call that directly follows a clearing call, so clears of 1, 2,
  0, 3 and 1 lines give two (`Scoring.ExampleHistory`).
- The input handlers do not check whether a game is running. Keys still move, rotate and drop
  the piece while paused or after a game over, and the model's handlers have no such guard.
- Pausing stops both timers and drops their handles; the start button then starts them again,
  so it also resumes a paused game.
- On game over, the two timers are stopped with `clearInterval`, but the `intervalo` variable
  keeps the dead handle.
  - The start button therefore does nothing after a game over until pause or reset drops the
    handle (`Game.NoRestartAfterGameOver`).
  - Timers are the `Game.Timer` datatype: `Null`, `Live(period)` or `Cleared(period)`.
- cerebro.js imports `nivel` from pontuacao.js, which declares it but does not export it. As
  written, linking the modules fails with a SyntaxError and cerebro.js never runs. The model
  follows the evident intent, a live `export let nivel`: the start handler's tick period reads
  the tracker's current level.
  - The level argument of `gerarPeca` disappears together with the generator.

## Model

| member | source | states |
|---|---|---|
| `Scoring.Apply` | pontuacao.js:10-60 | with no line cleared only the combo flag changes, to false; with lines cleared the score becomes min(score + 100 * lines, 999999), the flag becomes true and the combo count rises by one exactly when the flag was already set; a consistent state (score in range, level = 1 + score / 500) stays consistent and never loses score or level |
| `Scoring.RunMonotone` | pontuacao.js:51-53 | over any sequence of calls from a consistent state, the state stays consistent and score and level never decrease |
| `Scoring.ScoreNeverDecreases` | pontuacao.js:51-52 | from the reset state, a longer call history never has a lower score than any prefix of it, and the score never exceeds 999999 |
| `Scoring.RunFromInitial` | pontuacao.js:48-53 | from the reset state: score = min(100 x lines over clearing calls, 999999), level = 1 + score / 500, combo count = number of clearing calls directly following a clearing call, combo flag = whether the last call cleared a line |
| `Scoring.ExampleHistory` | pontuacao.js:48-49 | clears of 1, 2, 0, 3, 1 lines leave 700 points, level 2, two combos, the streak active |
| `Scoring.ExampleCap` | pontuacao.js:51-52 | a four-line clear at 999950 points stops at 999999 |
| `Scoring.ScoreTracker.constructor` | pontuacao.js:2-5 | the variables start at score 0, level 1, no combo, zero combos |
| `Scoring.ScoreTracker.ProcessLines` | pontuacao.js:10-60 | the new variables are `Apply` of the old ones; the returned record is the new score, level and combo count; the ranking is untouched |
| `Scoring.ScoreTracker.Reset` | pontuacao.js:65-71 | the variables become (0, 1, false, 0); the ranking is untouched |
| `Scoring.ScoreTracker.SaveScore` | pontuacao.js:104-131 | the stored ranking becomes what `Ranking.Save` gives for the tracker's level and combos, and is untouched (false returned) when no name was given; the scoring variables do not change |
| `Ranking.Insert` | pontuacao.js:130 | one insertion step adds exactly the new entry (as a multiset) and keeps a descending list descending |
| `Ranking.SortDesc` | pontuacao.js:130 | the sort is a permutation of its input, ordered by descending points |
| `Ranking.InsertStable` | pontuacao.js:130 | inserting keeps the relative order of entries with equal points, and puts the new one after those |
| `Ranking.SplitStable` | pontuacao.js:130 | placing an entry between two parts, where the second part scores strictly lower, adds it to the entries of its score after those of the first part |
| `Ranking.SortStable` | pontuacao.js:130 | the sort is stable: for every score, the entries with that score keep their input order |
| `Ranking.SortSorted` | pontuacao.js:146 | sorting a list already in descending order returns it unchanged |
| `Ranking.Take` | pontuacao.js:131 | cutting keeps the first min(length, n) entries |
| `Ranking.NewEntry` | pontuacao.js:117-126 | the new record holds the trimmed name, final score, level, combos and date; its time is the display text, or "--:--" when the display is missing or empty |
| `Ranking.Save` | pontuacao.js:104-131 | the save is refused exactly when the name input is missing or only white space; otherwise the list has min(old length + 1, 10) entries, descending, drawn from the old entries and the new record; every record dropped scores at most as much as every record kept, and the kept records of each score are, in order, the first records of that score in the old list followed by the new one |
| `Ranking.SaveIntoSorted` | pontuacao.js:128-131 | on a descending stored list the result is the list with the new record inserted after every entry scoring at least as much (ties included) and before every lower one, cut to ten |
| `Ranking.SaveKeepsShape` | pontuacao.js:128-133 | a descending list of at most ten entries stays descending, non-empty and at most ten entries long after a save |
| `Ranking.MedalFor` | pontuacao.js:149-153 | gold from 3000 points, silver in [2000, 3000), bronze in [1000, 2000), participation below 1000, each as an if-and-only-if |
| `Ranking.MedalMonotone` | pontuacao.js:149-153 | a higher score never earns a lesser medal |
| `Ranking.HighlightFor` | pontuacao.js:155-159 | strategist from 12 combos, fast from 6 to 11, lightning below 6 when the time text is at most "01:00" as a string, resistant otherwise, each as an if-and-only-if |
| `Ranking.MissingTimeIsLightning` | pontuacao.js:155-159 | a record with the "--:--" time and fewer than 6 combos is classed lightning |
| `Game.LightningGame` | pontuacao.js:158 | with fewer than 6 combos, a record whose time came from the display of t seconds is lightning exactly when t <= 60 |
| `Ranking.ClassifyAll` | pontuacao.js:148-162 | the classification maps every record, in order |
| `Ranking.View` | pontuacao.js:142-163 | the view has min(stored length, 10) records, the first ones of the stable descending sort, each with the medal of its points and the highlight of its combos and time; points descend and every record comes from the stored list |
| `Ranking.ViewOfSorted` | pontuacao.js:145-147 | viewing a saved ranking (descending, at most ten) shows exactly the stored records in the stored order |
| `Text.Digits` | canvas.js:126-127 | `String(n)` is all digits, one digit exactly below 10, at most two below 100, three or more from 100, no leading zero |
| `Text.DigitsRoundTrip` | canvas.js:126-127 | reading the digits back gives the number |
| `Text.PadStart` | canvas.js:126-127 | `padStart` gives max(length, width) characters: the fill, then the string itself |
| `Text.PadKeepsValue` | canvas.js:126-127 | zero padding keeps a digit string's value |
| `Text.Trim` | pontuacao.js:106 | the trimmed name is a stretch of the input with only white space before and after it; it is empty exactly when the input is all white space, and otherwise starts and ends with a non-space |
| `Text.TrimIdempotent` | pontuacao.js:106 | trimming twice is trimming once |
| `Text.ToLower` | controlos.js:65 | lowering keeps the length and lowers each ASCII capital |
| `Text.LessIsLexicographic` | pontuacao.js:158 | the string `<` holds exactly when the left string is a proper prefix of the right one, or has the smaller character at the first position where they differ |
| `Text.LessTrichotomy` | pontuacao.js:158 | for any two strings exactly one of a < b, a == b, b < a holds |
| `Text.LessOrEqualMeaning` | pontuacao.js:158 | the string `<=` holds exactly when the strings are equal or the left one is smaller |
| `Text.ToLowerIdempotent` | controlos.js:65 | lowering twice is lowering once |
| `Canvas.FormatTime` | canvas.js:124-129 | the display is the minutes digits, ':', two seconds digits whose tens digit is at most 5; exactly five characters below 6000 seconds, and from 600 seconds on the minutes field has no leading zero (so 6000 seconds shows as "100:00") |
| `Canvas.Field` | canvas.js:125-126 | one padded field is at least two digits and reads back as its number; below 100 it is exactly the tens digit and the units digit, from 100 on it is the number's own digits with no leading zero |
| `Canvas.TwoDigits` | canvas.js:127 | a number below 100, padded, is its tens digit followed by its units digit |
| `Canvas.FormatTimeRoundTrip` | canvas.js:126-128 | reading the display back as minutes * 60 + seconds gives the number of seconds |
| `Canvas.WithinAMinute` | canvas.js:126-128 | the display compares at most "01:00" as a string exactly when at most 60 seconds have passed |
| `Canvas.ClockWithinAMinute` | canvas.js:125-127 | a display built from m minutes and s seconds compares at most "01:00" exactly when m is 0, or m is 1 and s is 0 |
| `Canvas.ColorOf` | canvas.js:107-109 | the palette colour when it exists and is non-empty, otherwise "#aaaaaa"; never empty |
| `Canvas.RowCells` | canvas.js:40-43 | a cell is painted from a row exactly when its value there is non-zero, at its own column; left to right |
| `Canvas.BoardCells` | canvas.js:39-44 | a board cell is painted exactly when it lies inside LINHAS x COLUNAS and holds a non-zero value |
| `Canvas.PieceCells` | canvas.js:47-58 | a piece cell is painted exactly when its value is non-zero and its row, offset by the position, is visible; columns are not clipped |
| `Canvas.DrawnCells` | canvas.js:33-59 | a cell is painted exactly when it is a painted board cell within LINHAS x COLUNAS or a painted piece cell in a visible row |
| `Canvas.PieceOverBoard` | canvas.js:38-58 | all board cells come first and all piece cells after, so the piece is painted on top |
| `Motor.Routines.SpawnX` | cerebro.js:65 | the spawn column is the left one of the two middle columns |
| `Controls.Position.constructor` | cerebro.js:65 | a position holds the given x and y |
| `Controls.MovedX` | controlos.js:20-27 | a move lands one step over when that does not collide, otherwise it stays; a non-colliding piece stays non-colliding |
| `Controls.MoveBack` | controlos.js:20-27 | a move that succeeded is undone by the opposite move |
| `Controls.Move` | controlos.js:20-27 | x becomes `MovedX` of the old position, y is unchanged |
| `Controls.DroppedY` | controlos.js:45-53 | a drop lowers by one row exactly when the row below is free, else it stays; a non-colliding piece stays non-colliding |
| `Controls.Drop` | controlos.js:45-53 | the result is true exactly when the row below collides; y becomes `DroppedY`, x is unchanged |
| `Controls.Rotate` | controlos.js:33-39 | the rotated piece when it does not collide at the position, otherwise the very same piece; a non-colliding piece stays non-colliding |
| `Controls.KeyAction` | controlos.js:64-79 | arrows left/right move by -1/+1, down drops, up rotates by +1, space hard-drops, "keyp" pauses, on the lower-cased code; a repeated key or any other code does nothing |
| `Controls.BlocksDefault` | controlos.js:66-78 | a key has its default suppressed exactly when, not held down, it moves, rotates or drops the piece (every acting key but "keyp"); held down, such a key does nothing |
| `Controls.KeyCaseInsensitive` | controlos.js:65 | the dispatch and the suppression do not depend on the letter case of the key code |
| `Game.TickPeriod` | cerebro.js:268 | the period is 600 - 20 x level, but never below 80, which it reaches exactly from level 26 |
| `Game.TickPeriodMonotone` | cerebro.js:268 | a higher level never gives a slower period |
| `Game.Cancel` | cerebro.js:96-97 | a stopped handle is never running, and is null only if it was null |
| `Game.Fresh` | cerebro.js:62-69 | an empty board, the two drawn pieces, the spawn position, no timers, zero seconds, the reset scores |
| `Game.TickFrame` | cerebro.js:74-104 | no lock: only y grows by one; lock: the board is the fused and cleared board, scores are `Apply` of the lines cleared, the next piece becomes current and the drawn one next, at the spawn position; game over exactly when the promoted piece collides there, stopping both timers and reporting the new score; otherwise timers unchanged; well-formedness kept |
| `Game.StartFrame` | cerebro.js:266-273 | with no gravity handle it installs one at the current level's period and the one-second clock; otherwise nothing changes; the timers stay paired |
| `Game.PauseFrame` | cerebro.js:127-133 | both handles become null and nothing else changes |
| `Game.MoveFrame` | cerebro.js:229 | only x changes, to `MovedX`; well-formedness kept |
| `Game.RotateFrame` | cerebro.js:230-236 | only the current piece changes, to what `Rotate` returns; well-formedness kept |
| `Game.Landing` | cerebro.js:118-120 | the hard-drop loop stops at the first row at or below y whose next row collides, given a row from which on everything collides |
| `Game.LandingIdempotent` | cerebro.js:118-120 | a second hard-drop loop from the landing row stays there |
| `Game.HardDropLocks` | cerebro.js:117-122 | the tick after the hard-drop loop always locks |
| `Game.SoftDropIsTick` | cerebro.js:237-240 | the soft-drop handler, a tick on a lock and a one-row fall otherwise, has the effect of exactly one tick |
| `Game.NoRestartAfterGameOver` | cerebro.js:94-99 | after a game over from a running game, start changes nothing, and a pause followed by start runs again |
| `Game.Session.constructor` | cerebro.js:62-69 | the session starts in `Fresh` with the stored ranking |
| `Game.Session.Tick` | cerebro.js:74-104 | the new session and the event are `TickFrame` of the old session; the ranking is untouched |
| `Game.Session.HardDrop` | cerebro.js:117-122 | the result is `TickFrame` of the session with y moved to `Landing`, and it is never a plain fall |
| `Game.Session.Pause` | cerebro.js:127-133 | the new session is `PauseFrame` of the old |
| `Game.Session.Start` | cerebro.js:265-274 | the new session is `StartFrame` of the old |
| `Game.Session.Reset` | cerebro.js:282-293 | the session becomes `Fresh` with the two drawn pieces; the ranking is untouched |
| `Game.Session.MoveHandler` | cerebro.js:229 | the new session is `MoveFrame` of the old |
| `Game.Session.RotateHandler` | cerebro.js:230-236 | the new session is `RotateFrame` of the old |
| `Game.Session.SoftDropHandler` | cerebro.js:237-240 | it reports a lock exactly when the row below collides, and the new session is that of one `TickFrame` |

## Left out

- DOM and modal updates are not modelled: score and level labels, `mostrarCelebracao`, `mostrarMensagem`, `mostrarModalFim`, the statistics and top-10 lists, and style injection. They only display state the model holds.
- Audio (`tocarSom*`, music) and vibration (`vibrar`, the tactile-mode toggle) are not modelled. They are side channels with no effect on game state.
- The choice of celebration phrase is random and only displayed.
- The date comes from `toLocaleDateString`. It is a parameter of the save.
- `localStorage` and JSON are not modelled. The ranking is a sequence of records.
  - `JSON.parse` on malformed stored data throws, and nothing catches it. The model claims no graceful handling of it.
- The name field and the time display are read from the page. They are parameters (`Option` when the element may be absent).
- Timers as time are not modelled. Only their handles and the "already running" guard of start are kept.
  - The seconds counter's growth is driven by the one-second interval and is not modelled. Reset setting it to zero is.
  - The held-button auto-repeat of controlos.js (150 ms intervals) is not modelled.
- Touch gestures are not modelled. Their classification uses floating-point angles and `Date.now`.
- Canvas sizing is not modelled, nor are pixel coordinates of painted cells.
- `desenharProxima` is not modelled: its offsets are floating point.
- `aplicarModoAutomatico` is not modelled: it depends on the wall clock and on storage.
- `adaptarLayoutPorResolucao` is not modelled: it depends on the window size.
- `partilhas.js` and `cartao.js` are not part of this model: sharing and player cards.
- The board animation on multi-line clears (`linhasFeitas > 1`) is not modelled. It is a CSS class held for 600 ms.
- motor.js is not part of this model. Collision, fusion, clearing, rotation, generation and matrix creation are abstract parameters, and no property depends on how they work.
- `Game.Session.HardDrop`: termination relies on a ghost `floor` row from which on every row collides. The source's loop ends only because the real collision routine treats the bottom of the board that way.
- `Canvas.BoardCells`: the model requires the board to have at least LINHAS rows. With fewer, the source throws a TypeError while drawing.
- Non-numeric or fractional points and combo counts (`NaN`, floats) are not modelled. Entries hold integers.
- `toLowerCase` covers ASCII letters only. Key codes are ASCII.
- String comparison is character by character. JavaScript compares UTF-16 code units, and the two differ only outside the Basic Multilingual Plane.
