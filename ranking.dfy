/** The persisted top-10 ranking of pontuacao.js: the list stored under "rankingTop10",
    the update `guardarPontuacao` makes to it, and the classified view `obterRankingOrdenado`
    returns. The stored list is a sequence of records; serialisation is not modelled. */
module Ranking {
  import opened Optional
  import opened Text
  import opened Numbers

  const CAPACITY := 10
  const GOLD := 3000
  const SILVER := 2000
  const BRONZE := 1000
  const STRATEGIST_COMBOS := 12
  const FAST_COMBOS := 6
  const LIGHTNING_TIME := "01:00"
  const NO_TIME := "--:--"

  /** One stored record: nome, pontos, nivel, tempo, combos, data. */
  datatype Entry = Entry(name: string, points: int, level: int, time: string, combos: int, date: string)

  predicate Descending(s: seq<Entry>) {
    forall i, j :: 0 <= i < j < |s| ==> s[i].points >= s[j].points
  }

  /** The entries of `s` scoring exactly `points`, in their order in `s`. */
  function WithPoints(s: seq<Entry>, points: int): (r: seq<Entry>)
    ensures |r| <= |s|
  {
    if s == [] then []
    else WithPoints(s[..|s| - 1], points) + (if s[|s| - 1].points == points then [s[|s| - 1]] else [])
  }

  lemma {:induction false} WithPointsAppend(a: seq<Entry>, b: seq<Entry>, points: int)
    ensures WithPoints(a + b, points) == WithPoints(a, points) + WithPoints(b, points)
    decreases |b|
  {
    if b == [] {
      assert a + b == a;
    } else {
      assert (a + b)[..|a + b| - 1] == a + b[..|b| - 1];
      WithPointsAppend(a, b[..|b| - 1], points);
    }
  }

  /** Where a stable descending sort puts `e` behind an already sorted `t`: after every entry
      scoring at least as much, that is after the last such one. */
  function Slot(t: seq<Entry>, e: Entry): (k: nat)
    ensures k <= |t|
  {
    if t == [] || t[|t| - 1].points >= e.points then |t| else Slot(t[..|t| - 1], e)
  }

  /** Every entry behind the slot scores less than `e`; the one just before it scores at least as much. */
  lemma {:induction false} SlotBounds(t: seq<Entry>, e: Entry)
    ensures forall i :: Slot(t, e) <= i < |t| ==> t[i].points < e.points
    ensures Slot(t, e) > 0 ==> t[Slot(t, e) - 1].points >= e.points
    decreases |t|
  {
    if t != [] && t[|t| - 1].points < e.points {
      var init := t[..|t| - 1];
      SlotBounds(init, e);
      assert forall i :: Slot(t, e) <= i < |init| ==> t[i] == init[i];
    }
  }

  /** One insertion step of a stable sort, descending by points. */
  function Insert(t: seq<Entry>, e: Entry): (r: seq<Entry>)
    ensures |r| == |t| + 1
    ensures multiset(r) == multiset(t) + multiset{e}
    ensures Descending(t) ==> Descending(r)
  {
    var k := Slot(t, e);
    var r := t[..k] + [e] + t[k..];
    SlotBounds(t, e);
    InsertFacts(t, e, k, r);
    r
  }

  lemma InsertFacts(t: seq<Entry>, e: Entry, k: nat, r: seq<Entry>)
    requires k <= |t| && r == t[..k] + [e] + t[k..]
    requires forall i :: k <= i < |t| ==> t[i].points < e.points
    requires k > 0 ==> t[k - 1].points >= e.points
    ensures multiset(r) == multiset(t) + multiset{e}
    ensures Descending(t) ==> Descending(r)
  {
    InsertMultiset(t, e, k, r);
    InsertAt(t, e, k, r);
    if Descending(t) {
      InsertDescending(t, e, k, r);
    }
  }

  lemma InsertMultiset(t: seq<Entry>, e: Entry, k: nat, r: seq<Entry>)
    requires k <= |t| && r == t[..k] + [e] + t[k..]
    ensures multiset(r) == multiset(t) + multiset{e}
  {
    var a, b := t[..k], t[k..];
    assert t == a + b;
    calc {
      multiset(r);
      multiset(a + [e]) + multiset(b);
      multiset(a) + multiset{e} + multiset(b);
      multiset(t) + multiset{e};
    }
  }

  /** Where each entry of `t[..k] + [e] + t[k..]` comes from. */
  lemma InsertAt(t: seq<Entry>, e: Entry, k: nat, r: seq<Entry>)
    requires k <= |t| && r == t[..k] + [e] + t[k..]
    ensures |r| == |t| + 1 && r[k] == e
    ensures forall i :: 0 <= i < k ==> r[i] == t[i]
    ensures forall i :: k < i < |r| ==> r[i] == t[i - 1]
  {
  }

  lemma InsertDescending(t: seq<Entry>, e: Entry, k: nat, r: seq<Entry>)
    requires Descending(t) && k <= |t| && |r| == |t| + 1 && r[k] == e
    requires forall i :: 0 <= i < k ==> r[i] == t[i]
    requires forall i :: k < i < |r| ==> r[i] == t[i - 1]
    requires forall i :: k <= i < |t| ==> t[i].points < e.points
    requires k > 0 ==> t[k - 1].points >= e.points
    ensures Descending(r)
  {
    forall i, j | 0 <= i < j < |r| ensures r[i].points >= r[j].points {
      if j < k {
        assert r[i] == t[i] && r[j] == t[j];
      } else if j == k {
        assert r[i] == t[i] && t[i].points >= t[k - 1].points;
      } else if i < k {
        assert r[i] == t[i] && r[j] == t[j - 1];
        assert t[i].points >= t[k - 1].points;
      } else if i == k {
        assert r[j] == t[j - 1];
      } else {
        assert r[i] == t[i - 1] && r[j] == t[j - 1];
      }
    }
  }

  /** `Array.prototype.sort` with comparator `(a, b) => b.pontos - a.pontos`: a stable sort,
      descending by points. */
  function SortDesc(s: seq<Entry>): (r: seq<Entry>)
    ensures |r| == |s|
    ensures multiset(r) == multiset(s)
    ensures Descending(r)
  {
    if s == [] then []
    else
      assert s == s[..|s| - 1] + [s[|s| - 1]];
      Insert(SortDesc(s[..|s| - 1]), s[|s| - 1])
  }

  /** Inserting keeps the relative order of the entries that tie on any score. */
  lemma InsertStable(t: seq<Entry>, e: Entry, points: int)
    ensures WithPoints(Insert(t, e), points)
         == WithPoints(t, points) + (if e.points == points then [e] else [])
  {
    var k := Slot(t, e);
    var a, b := t[..k], t[k..];
    assert Insert(t, e) == a + [e] + b by {
      InsertIs(t, e);
    }
    assert t == a + b;
    assert forall i :: 0 <= i < |b| ==> b[i].points < e.points by {
      SlotBounds(t, e);
    }
    SplitStable(a, e, b, points);
  }

  /** Putting `e` between `a` and `b` adds it to the entries with its score, after those of `a`,
      when no entry of `b` has that score. */
  lemma SplitStable(a: seq<Entry>, e: Entry, b: seq<Entry>, points: int)
    requires forall i :: 0 <= i < |b| ==> b[i].points < e.points
    ensures WithPoints(a + [e] + b, points) == WithPoints(a + b, points) + (if e.points == points then [e] else [])
  {
    var wa, wb, we := WithPoints(a, points), WithPoints(b, points), WithPoints([e], points);
    assert WithPoints(a + [e] + b, points) == wa + we + wb by {
      WithPointsAppend(a + [e], b, points);
      WithPointsAppend(a, [e], points);
    }
    assert WithPoints(a + b, points) == wa + wb by {
      WithPointsAppend(a, b, points);
    }
    assert we == (if e.points == points then [e] else []) by {
      WithPointsSingle(e, points);
    }
    assert e.points == points ==> wb == [] by {
      if e.points == points {
        WithPointsNone(b, points, e.points);
      }
    }
    Rearrange(wa, we, wb, if e.points == points then [e] else []);
  }

  /** `wa + we + wb == wa + wb + we` when `we` or `wb` is empty. */
  lemma Rearrange(wa: seq<Entry>, we: seq<Entry>, wb: seq<Entry>, extra: seq<Entry>)
    requires we == extra && (extra != [] ==> wb == [])
    ensures wa + we + wb == wa + wb + extra
  {
    if extra == [] {
      assert we == [];
    } else {
      assert wb == [];
    }
  }

  lemma InsertIs(t: seq<Entry>, e: Entry)
    ensures Insert(t, e) == t[..Slot(t, e)] + [e] + t[Slot(t, e)..]
  {
  }

  lemma WithPointsSingle(e: Entry, points: int)
    ensures WithPoints([e], points) == if e.points == points then [e] else []
  {
    assert [e][..0] == [];
  }

  lemma {:induction false} WithPointsNone(s: seq<Entry>, points: int, bound: int)
    requires forall i :: 0 <= i < |s| ==> s[i].points < bound
    requires points >= bound
    ensures WithPoints(s, points) == []
    decreases |s|
  {
    if s != [] {
      WithPointsNone(s[..|s| - 1], points, bound);
    }
  }

  /** The sort is stable: entries that tie keep the order they had. */
  lemma {:induction false} SortStable(s: seq<Entry>, points: int)
    ensures WithPoints(SortDesc(s), points) == WithPoints(s, points)
    decreases |s|
  {
    if s != [] {
      var init := s[..|s| - 1];
      SortStable(init, points);
      InsertStable(SortDesc(init), s[|s| - 1], points);
    }
  }

  /** Sorting a list that is already in order changes nothing. */
  lemma {:induction false} SortSorted(s: seq<Entry>)
    requires Descending(s)
    ensures SortDesc(s) == s
    decreases |s|
  {
    if s != [] {
      var init := s[..|s| - 1];
      SortSorted(init);
      assert Slot(init, s[|s| - 1]) == |init|;
      assert init[..|init|] + [s[|s| - 1]] + init[|init|..] == s;
    }
  }

  /** `ranking.splice(n)` / `.slice(0, n)`: the first `n` entries, or all of them if fewer. */
  function Take(s: seq<Entry>, n: nat): (r: seq<Entry>)
    ensures |r| == Min(|s|, n)
    ensures r == s[..|r|]
  {
    if |s| <= n then s else s[..n]
  }

  /** The record `guardarPontuacao` builds: the trimmed name, the final score, the tracker's
      level and combo count, the text of the time display (or "--:--" when it is missing or
      empty) and the date. */
  function NewEntry(name: string, points: int, level: int, combos: int, timeText: Option<string>, date: string): (e: Entry)
    ensures e.name == name && e.points == points && e.level == level && e.combos == combos && e.date == date
    ensures e.time != []
    ensures timeText.Some? && timeText.value != [] ==> e.time == timeText.value
    ensures timeText.None? || timeText.value == [] ==> e.time == NO_TIME
  {
    var time := if timeText.None? || timeText.value == [] then NO_TIME else timeText.value;
    Entry(name, points, level, time, combos, date)
  }

  datatype SaveResult = Saved(ranking: seq<Entry>) | NameRequired

  /** The ranking update of `guardarPontuacao`: no name (the input is missing, or empty or white
      space once trimmed) refuses the save; otherwise the new record is pushed, the list is
      sorted and cut to ten. */
  function Save(stored: seq<Entry>, nameInput: Option<string>, points: int, level: int, combos: int,
                timeText: Option<string>, date: string): (r: SaveResult)
    ensures r.NameRequired? <==> nameInput.None? || AllSpace(nameInput.value)
    ensures r.Saved? ==> |r.ranking| == Min(|stored| + 1, CAPACITY) && Descending(r.ranking)
    ensures r.Saved? ==> multiset(r.ranking) <= multiset(stored) + multiset{NewEntry(Trim(nameInput.value), points, level, combos, timeText, date)}
    ensures r.Saved? ==>
      var all := stored + [NewEntry(Trim(nameInput.value), points, level, combos, timeText, date)];
      && (forall x, y :: x in multiset(all) - multiset(r.ranking) && y in r.ranking ==> y.points >= x.points)
      && (forall p :: WithPoints(r.ranking, p) <= WithPoints(all, p))
  {
    if nameInput.None? || Trim(nameInput.value) == [] then NameRequired
    else
      var e := NewEntry(Trim(nameInput.value), points, level, combos, timeText, date);
      var sorted := SortDesc(stored + [e]);
      var r := Take(sorted, CAPACITY);
      TakeSub(sorted, CAPACITY);
      SaveKeepsBest(stored + [e]);
      Saved(r)
  }

  /** Sorting and cutting to ten keeps the best entries: every entry dropped scores at most as
      much as every entry kept, and the entries of each score keep their order, a prefix of
      that score's entries. */
  lemma SaveKeepsBest(all: seq<Entry>)
    ensures var r := Take(SortDesc(all), CAPACITY);
            && (forall x, y :: x in multiset(all) - multiset(r) && y in r ==> y.points >= x.points)
            && (forall p :: WithPoints(r, p) <= WithPoints(all, p))
  {
    var sorted := SortDesc(all);
    TakeKeepsTop(sorted, CAPACITY);
    forall p ensures WithPoints(Take(sorted, CAPACITY), p) <= WithPoints(all, p) {
      SortStable(all, p);
      TakeKeepsTieOrder(sorted, CAPACITY, p);
    }
  }

  /** Cutting a list in order drops no entry scoring more than one it keeps. */
  lemma TakeKeepsTop(s: seq<Entry>, n: nat)
    requires Descending(s)
    ensures forall x, y :: x in multiset(s) - multiset(Take(s, n)) && y in Take(s, n) ==> y.points >= x.points
  {
    if |s| > n {
      var kept, dropped := s[..n], s[n..];
      assert multiset(s) - multiset(Take(s, n)) == multiset(dropped) by {
        assert s == kept + dropped;
      }
      forall x, y | x in multiset(dropped) && y in kept ensures y.points >= x.points {
        DescendingSplit(s, n, x, y);
      }
    } else {
      assert multiset(s) - multiset(Take(s, n)) == multiset{};
    }
  }

  /** In a list in order, an entry before position `n` scores at least as much as one from `n` on. */
  lemma DescendingSplit(s: seq<Entry>, n: nat, x: Entry, y: Entry)
    requires Descending(s) && n <= |s| && x in s[n..] && y in s[..n]
    ensures y.points >= x.points
  {
    var j :| n <= j < |s| && s[j] == x;
    var i :| 0 <= i < n && s[i] == y;
  }

  /** The entries of each score in a cut list are a prefix of that score's entries. */
  lemma TakeKeepsTieOrder(s: seq<Entry>, n: nat, points: int)
    ensures WithPoints(Take(s, n), points) <= WithPoints(s, points)
  {
    if |s| > n {
      assert s == s[..n] + s[n..];
      WithPointsAppend(s[..n], s[n..], points);
    }
  }

  lemma TakeSub(s: seq<Entry>, n: nat)
    ensures multiset(Take(s, n)) <= multiset(s)
  {
    if |s| > n {
      assert s == s[..n] + s[n..];
    }
  }

  /** On a list that is already in order (every list this save writes is) the new entry lands
      right after every entry with at least its score, ties included, before every entry with a
      lower score, and the list is then cut to ten entries. */
  lemma SaveIntoSorted(stored: seq<Entry>, name: string, points: int, level: int, combos: int,
                       timeText: Option<string>, date: string)
    requires Descending(stored)
    requires !AllSpace(name)
    ensures var e := NewEntry(Trim(name), points, level, combos, timeText, date);
            var k := Slot(stored, e);
            && Save(stored, Some(name), points, level, combos, timeText, date)
               == Saved(Take(stored[..k] + [e] + stored[k..], CAPACITY))
            && (forall i :: 0 <= i < k ==> stored[i].points >= points)
            && (forall i :: k <= i < |stored| ==> stored[i].points < points)
  {
    var e := NewEntry(Trim(name), points, level, combos, timeText, date);
    var k := Slot(stored, e);
    assert Save(stored, Some(name), points, level, combos, timeText, date)
        == Saved(Take(SortDesc(stored + [e]), CAPACITY)) by {
      SaveNamed(stored, name, points, level, combos, timeText, date);
    }
    assert SortDesc(stored + [e]) == stored[..k] + [e] + stored[k..] by {
      SortAppendSorted(stored, e);
    }
    assert forall i :: 0 <= i < k ==> stored[i].points >= points by {
      SlotBounds(stored, e);
      DescendingPrefix(stored, k, e.points);
    }
    SlotBounds(stored, e);
  }

  /** With a name that is not blank, the save sorts the list with the new entry and cuts it. */
  lemma SaveNamed(stored: seq<Entry>, name: string, points: int, level: int, combos: int,
                  timeText: Option<string>, date: string)
    requires !AllSpace(name)
    ensures Save(stored, Some(name), points, level, combos, timeText, date)
         == Saved(Take(SortDesc(stored + [NewEntry(Trim(name), points, level, combos, timeText, date)]), CAPACITY))
  {
    assert Trim(name) != [];
  }

  /** Sorting a list that is in order with one more entry at its end inserts that entry. */
  lemma SortAppendSorted(stored: seq<Entry>, e: Entry)
    requires Descending(stored)
    ensures SortDesc(stored + [e]) == stored[..Slot(stored, e)] + [e] + stored[Slot(stored, e)..]
  {
    SortSorted(stored);
    assert (stored + [e])[..|stored|] == stored;
    assert (stored + [e])[|stored|] == e;
    InsertIs(stored, e);
  }

  /** In a list in order, every entry before a position whose predecessor has at least `bound`
      points also has at least `bound` points. */
  lemma DescendingPrefix(s: seq<Entry>, k: nat, bound: int)
    requires Descending(s) && k <= |s|
    requires k > 0 ==> s[k - 1].points >= bound
    ensures forall i :: 0 <= i < k ==> s[i].points >= bound
  {
    forall i | 0 <= i < k ensures s[i].points >= bound {
      assert s[i].points >= s[k - 1].points;
    }
  }

  /** A stored ranking that is in order and holds at most ten entries stays so after any save. */
  lemma SaveKeepsShape(stored: seq<Entry>, nameInput: Option<string>, points: int, level: int, combos: int,
                       timeText: Option<string>, date: string)
    requires Descending(stored) && |stored| <= CAPACITY
    ensures match Save(stored, nameInput, points, level, combos, timeText, date)
            case NameRequired => true
            case Saved(r) => Descending(r) && 0 < |r| <= CAPACITY
  {
  }

  datatype Medal = Ouro | Prata | Bronze | Participacao
  datatype Highlight = Estratega | Rapido | Relampago | Resistente

  /** The medal a score earns: gold from 3000, silver from 2000, bronze from 1000. */
  function MedalFor(points: int): (m: Medal)
    ensures m == Ouro <==> points >= GOLD
    ensures m == Prata <==> SILVER <= points < GOLD
    ensures m == Bronze <==> BRONZE <= points < SILVER
    ensures m == Participacao <==> points < BRONZE
  {
    if points >= GOLD then Ouro
    else if points >= SILVER then Prata
    else if points >= BRONZE then Bronze
    else Participacao
  }

  function MedalRank(m: Medal): nat {
    match m
    case Participacao => 0
    case Bronze => 1
    case Prata => 2
    case Ouro => 3
  }

  /** A higher score never earns a lesser medal. */
  lemma MedalMonotone(p: int, q: int)
    requires p <= q
    ensures MedalRank(MedalFor(p)) <= MedalRank(MedalFor(q))
  {
  }

  /** The highlight of a record: by combos first, then by its time text compared as a string. */
  function HighlightFor(combos: int, time: string): (h: Highlight)
    ensures h == Estratega <==> combos >= STRATEGIST_COMBOS
    ensures h == Rapido <==> FAST_COMBOS <= combos < STRATEGIST_COMBOS
    ensures h == Relampago <==> combos < FAST_COMBOS && LessOrEqual(time, LIGHTNING_TIME)
    ensures h == Resistente <==> combos < FAST_COMBOS && !LessOrEqual(time, LIGHTNING_TIME)
  {
    if combos >= STRATEGIST_COMBOS then Estratega
    else if combos >= FAST_COMBOS then Rapido
    else if LessOrEqual(time, LIGHTNING_TIME) then Relampago
    else Resistente
  }

  /** A record saved while the time display was missing ("--:--") sorts before "01:00" as a
      string, so with few combos it is classed as a lightning game. */
  lemma MissingTimeIsLightning(combos: int)
    requires combos < FAST_COMBOS
    ensures HighlightFor(combos, NO_TIME) == Relampago
  {
    assert NO_TIME[0] < LIGHTNING_TIME[0];
  }

  /** A record of the view: every stored field plus `medalha` and `destaque`. */
  datatype Ranked = Ranked(entry: Entry, medal: Medal, highlight: Highlight)

  function Classify(e: Entry): (r: Ranked)
    ensures r.entry == e
    ensures r.medal == MedalFor(e.points) && r.highlight == HighlightFor(e.combos, e.time)
  {
    Ranked(e, MedalFor(e.points), HighlightFor(e.combos, e.time))
  }

  function ClassifyAll(s: seq<Entry>): (r: seq<Ranked>)
    ensures |r| == |s|
    ensures forall i :: 0 <= i < |s| ==> r[i] == Classify(s[i])
  {
    if s == [] then [] else [Classify(s[0])] + ClassifyAll(s[1..])
  }

  /** `obterRankingOrdenado`: sorted, cut to ten, each record classified. */
  function View(stored: seq<Entry>): (r: seq<Ranked>)
    ensures |r| == Min(|stored|, CAPACITY)
    ensures forall i :: 0 <= i < |r| ==> r[i].entry == SortDesc(stored)[i]
    ensures forall i :: 0 <= i < |r| ==> r[i].medal == MedalFor(r[i].entry.points)
    ensures forall i :: 0 <= i < |r| ==> r[i].highlight == HighlightFor(r[i].entry.combos, r[i].entry.time)
    ensures forall i, j :: 0 <= i < j < |r| ==> r[i].entry.points >= r[j].entry.points
    ensures forall i :: 0 <= i < |r| ==> r[i].entry in multiset(stored)
  {
    var sorted := SortDesc(stored);
    var top := sorted[..Min(|sorted|, CAPACITY)];
    assert sorted == top + sorted[|top|..];
    ClassifyAll(top)
  }

  /** Viewing a saved ranking shows exactly what was stored, in the stored order. */
  lemma ViewOfSorted(stored: seq<Entry>)
    requires Descending(stored) && |stored| <= CAPACITY
    ensures |View(stored)| == |stored|
    ensures forall i :: 0 <= i < |stored| ==> View(stored)[i].entry == stored[i]
  {
    SortSorted(stored);
  }
}
