/** The score / level / combo tracker of pontuacao.js. `ScoreState` is the value of its four
    module variables and `Apply` the specification of one `processarLinhas` call; the class
    `ScoreTracker` holds the variables themselves (and the stored ranking) and its methods
    change them in place. */
module Scoring {
  import opened Optional
  import Ranking
  import opened Numbers
  import Text

  const MAX_SCORE := 999999
  const POINTS_PER_LINE := 100
  const SCORE_PER_LEVEL := 500

  /** pontuacao, nivel, comboAtivo, totalCombos. */
  datatype ScoreState = ScoreState(score: int, level: int, comboActive: bool, totalCombos: int)

  /** The state at load time and after `reiniciarPontuacao`. */
  const INITIAL := ScoreState(0, 1, false, 0)

  /** What `processarLinhas` returns: `{ pontuacao, nivel, combos }`. */
  datatype Report = Report(score: int, level: int, combos: int)

  /** The invariant every reachable state keeps: the score within [0, 999999], the level
      derived from it, a non-negative combo count. */
  predicate Consistent(s: ScoreState) {
    0 <= s.score <= MAX_SCORE && s.level == 1 + s.score / SCORE_PER_LEVEL && s.totalCombos >= 0
  }

  function LevelFor(score: int): int {
    1 + score / SCORE_PER_LEVEL
  }

  /** One `processarLinhas(lines)` call. */
  function Apply(s: ScoreState, lines: int): (r: ScoreState)
    ensures lines < 1 ==> r == s.(comboActive := false)
    ensures lines >= 1 ==> r.comboActive
    ensures lines >= 1 ==> r.totalCombos == if s.comboActive then s.totalCombos + 1 else s.totalCombos
    ensures lines >= 1 ==> r.score == Min(s.score + POINTS_PER_LINE * lines, MAX_SCORE)
    ensures Consistent(s) ==> Consistent(r) && s.score <= r.score && s.level <= r.level
  {
    if lines >= 1 then
      var score := Min(s.score + lines * POINTS_PER_LINE, MAX_SCORE);
      var combos := if s.comboActive then s.totalCombos + 1 else s.totalCombos;
      ScoreState(score, LevelFor(score), true, combos)
    else
      s.(comboActive := false)
  }

  /** A sequence of `processarLinhas` calls, one per lock, in order. */
  function Run(s: ScoreState, clears: seq<int>): ScoreState
    decreases |clears|
  {
    if clears == [] then s else Apply(Run(s, clears[..|clears| - 1]), clears[|clears| - 1])
  }

  lemma {:induction false} RunConcat(s: ScoreState, xs: seq<int>, ys: seq<int>)
    ensures Run(s, xs + ys) == Run(Run(s, xs), ys)
    decreases |ys|
  {
    if ys == [] {
      assert xs + ys == xs;
    } else {
      assert (xs + ys)[..|xs + ys| - 1] == xs + ys[..|ys| - 1];
      RunConcat(s, xs, ys[..|ys| - 1]);
    }
  }

  /** From any consistent state, every call sequence keeps the state consistent and never lowers
      the score or the level. */
  lemma {:induction false} RunMonotone(s: ScoreState, clears: seq<int>)
    requires Consistent(s)
    ensures Consistent(Run(s, clears))
    ensures s.score <= Run(s, clears).score && s.level <= Run(s, clears).level
    decreases |clears|
  {
    if clears != [] {
      RunMonotone(s, clears[..|clears| - 1]);
    }
  }

  /** A longer history never has a lower score than any prefix of it. */
  lemma ScoreNeverDecreases(xs: seq<int>, ys: seq<int>)
    ensures Run(INITIAL, xs).score <= Run(INITIAL, xs + ys).score <= MAX_SCORE
  {
    RunMonotone(INITIAL, xs);
    RunConcat(INITIAL, xs, ys);
    RunMonotone(Run(INITIAL, xs), ys);
  }

  /** 100 points per cleared line over the clearing calls (those with at least one line). */
  function Earned(clears: seq<int>): nat
    decreases |clears|
  {
    if clears == [] then 0
    else
      var last := clears[|clears| - 1];
      Earned(clears[..|clears| - 1]) + (if last >= 1 then POINTS_PER_LINE * last else 0)
  }

  /** The number of clearing calls that directly follow another clearing call. */
  function Continuations(clears: seq<int>): nat
    decreases |clears|
  {
    if |clears| < 2 then 0
    else
      var n := |clears|;
      Continuations(clears[..n - 1]) + (if clears[n - 2] >= 1 && clears[n - 1] >= 1 then 1 else 0)
  }

  /** From the reset state, after any call sequence: the score is the points earned, clamped at
      999999; the level is 1 + score / 500; the combo count is the number of clearing calls that
      continue a streak; the combo flag says whether the last call cleared a line. */
  lemma {:induction false} RunFromInitial(clears: seq<int>)
    ensures Consistent(Run(INITIAL, clears))
    ensures Run(INITIAL, clears).score == Min(Earned(clears), MAX_SCORE)
    ensures Run(INITIAL, clears).level == 1 + Run(INITIAL, clears).score / SCORE_PER_LEVEL
    ensures Run(INITIAL, clears).totalCombos == Continuations(clears)
    ensures Run(INITIAL, clears).comboActive == (|clears| > 0 && clears[|clears| - 1] >= 1)
    decreases |clears|
  {
    if clears != [] {
      var init := clears[..|clears| - 1];
      RunFromInitial(init);
      RunMonotone(INITIAL, init);
      if |clears| >= 2 {
        assert init[|init| - 1] == clears[|clears| - 2];
        assert init[..|init| - 1] == clears[..|clears| - 1][..|clears| - 2];
      }
    }
  }

  /** Clears of 1, 2, 0, 3 and 1 lines: 700 points, level 2, two combos (after the second and
      after the fifth lock), streak still running. */
  lemma ExampleHistory()
    ensures Run(INITIAL, [1, 2, 0, 3, 1]) == ScoreState(700, 2, true, 2)
  {
    assert [1][..0] == [];
    assert Run(INITIAL, [1]) == ScoreState(100, 1, true, 0);
    assert [1, 2][..1] == [1];
    assert Run(INITIAL, [1, 2]) == ScoreState(300, 1, true, 1);
    assert [1, 2, 0][..2] == [1, 2];
    assert Run(INITIAL, [1, 2, 0]) == ScoreState(300, 1, false, 1);
    assert [1, 2, 0, 3][..3] == [1, 2, 0];
    assert Run(INITIAL, [1, 2, 0, 3]) == ScoreState(600, 2, true, 1);
    assert [1, 2, 0, 3, 1][..4] == [1, 2, 0, 3];
  }

  /** A four-line clear at 999950 points stops at the cap. */
  lemma ExampleCap()
    ensures Apply(ScoreState(999950, 2000, false, 0), 4) == ScoreState(MAX_SCORE, 2000, true, 0)
  {
  }

  /** The module variables of pontuacao.js, and the list stored under "rankingTop10". */
  class ScoreTracker {
    var score: int                       // pontuacao
    var level: int                       // nivel
    var comboActive: bool                // comboAtivo
    var totalCombos: int                 // totalCombos
    var ranking: seq<Ranking.Entry>      // localStorage "rankingTop10"

    function State(): ScoreState
      reads this
    {
      ScoreState(score, level, comboActive, totalCombos)
    }

    ghost predicate Valid()
      reads this
    {
      Consistent(State())
    }

    /** Module load: the variables' initialisers; `stored` is whatever the page finds stored. */
    constructor (stored: seq<Ranking.Entry>)
      ensures Valid() && State() == INITIAL && ranking == stored
    {
      score, level, comboActive, totalCombos := 0, 1, false, 0;
      ranking := stored;
    }

    /** `processarLinhas(linhasFeitas)`. */
    method ProcessLines(lines: int) returns (report: Report)
      requires Valid()
      modifies this
      ensures Valid()
      ensures State() == Apply(old(State()), lines)
      ensures report == Report(score, level, totalCombos)
      ensures ranking == old(ranking)
    {
      var gained := 0;
      if lines >= 1 {
        gained := lines * POINTS_PER_LINE;
        if comboActive {
          totalCombos := totalCombos + 1;
        }
        comboActive := true;
        score := score + gained;
        score := Min(score, MAX_SCORE);
        level := 1 + score / SCORE_PER_LEVEL;
      } else {
        comboActive := false;
      }
      report := Report(score, level, totalCombos);
    }

    /** `reiniciarPontuacao()`. */
    method Reset()
      modifies this
      ensures Valid() && State() == INITIAL
      ensures ranking == old(ranking)
    {
      score := 0;
      level := 1;
      comboActive := false;
      totalCombos := 0;
    }

    /** The ranking update of `guardarPontuacao(pontuacaoFinal)`: `nameInput` is the name field
        (None when the page has none), `timeText` the text of the time display, `date` the
        formatted current date. Returns false when the save was refused for want of a name. */
    method SaveScore(nameInput: Option<string>, finalScore: int, timeText: Option<string>, date: string)
      returns (saved: bool)
      modifies this
      ensures State() == old(State())
      ensures match Ranking.Save(old(ranking), nameInput, finalScore, level, totalCombos, timeText, date)
              case NameRequired => !saved && ranking == old(ranking)
              case Saved(r) => saved && ranking == r
    {
      if nameInput.None? || Text.Trim(nameInput.value) == [] {
        return false;
      }
      var entry := Ranking.NewEntry(Text.Trim(nameInput.value), finalScore, level, totalCombos, timeText, date);
      ranking := ranking + [entry];
      ranking := Ranking.SortDesc(ranking);
      ranking := Ranking.Take(ranking, Ranking.CAPACITY);
      saved := true;
    }
  }
}
