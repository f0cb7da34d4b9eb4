/** The day-extraction pipeline of crawler.py: every table of the page, in
    document order, is classified, its raw tails are extracted and
    normalised, days with too few tails are dropped, the rest are keyed by
    their date (or a synthetic `day_NN`), and the crawl stops at max_days. */
module Crawler {
  import opened Text

  datatype Option<T> = None | Some(value: T)

  datatype CellKind = Th | Td

  /** One `<th>`/`<td>` cell with its text (`get_text(" ", strip=True)`). */
  datatype Cell = Cell(kind: CellKind, text: string)

  /** One `<table>`: its `<tr>` rows of cells in document order, and the date
      text found nearest above it on the page, if any. */
  datatype Table = Table(rows: seq<seq<Cell>>, date: Option<string>)

  /** One accepted day: its key and its tails. */
  type Day = (string, seq<string>)

  datatype TableKind = LotoTable | ResultTable | Unrelated

  /** At most this many tails per day: one drawing has 27 prizes. */
  const MaxTails: nat := 27
  /** Days with fewer tails than this are taken for mis-parses and dropped. */
  const MinTails: nat := 20

  /** "đầu" (head) and "loto": the header labels of a loto table. */
  const HeadLabel: string := "\U{0111}\U{1EA7}u"
  const LotoLabel: string := "loto"

  // ---------------------------------------------------------------------
  // Classification
  // ---------------------------------------------------------------------

  /** The header row holds a cell mentioning "đầu" and a cell mentioning "loto". */
  predicate IsLotoTable(t: Table) {
    |t.rows| > 0 &&
    (exists c :: c in t.rows[0] && Contains(Lower(c.text), HeadLabel)) &&
    (exists c :: c in t.rows[0] && Contains(Lower(c.text), LotoLabel))
  }

  /** The two header rows hold the same cell texts up to case, whatever
      the cell kinds and the rows below. */
  predicate SameHeaderText(t: Table, u: Table) {
    (t.rows == []) == (u.rows == []) &&
    (t.rows != [] ==>
      |t.rows[0]| == |u.rows[0]| &&
      forall i :: 0 <= i < |t.rows[0]| ==> Lower(t.rows[0][i].text) == Lower(u.rows[0][i].text))
  }

  lemma HeaderLabelTransfer(r1: seq<Cell>, r2: seq<Cell>, word: string)
    requires |r1| == |r2|
    requires forall i :: 0 <= i < |r1| ==> Lower(r1[i].text) == Lower(r2[i].text)
    requires exists c :: c in r1 && Contains(Lower(c.text), word)
    ensures exists c :: c in r2 && Contains(Lower(c.text), word)
  {
    var c :| c in r1 && Contains(Lower(c.text), word);
    var i :| 0 <= i < |r1| && r1[i] == c;
    assert r2[i] in r2;
  }

  /** The loto test reads only the header row's cell texts, ignoring case and
      cell kind; a table without rows is never a loto table. */
  lemma IsLotoTableReadsHeader(t: Table, u: Table)
    requires SameHeaderText(t, u)
    ensures IsLotoTable(t) <==> IsLotoTable(u)
    ensures t.rows == [] ==> !IsLotoTable(t)
  {
    if t.rows != [] {
      var h1, h2 := t.rows[0], u.rows[0];
      if IsLotoTable(t) {
        HeaderLabelTransfer(h1, h2, HeadLabel);
        HeaderLabelTransfer(h1, h2, LotoLabel);
      }
      if IsLotoTable(u) {
        HeaderLabelTransfer(h2, h1, HeadLabel);
        HeaderLabelTransfer(h2, h1, LotoLabel);
      }
    }
  }

  /** The texts of the cells of a row, left to right; only those of `<td>`
      cells when tdOnly. */
  function RowTexts(row: seq<Cell>, tdOnly: bool): seq<string> {
    if row == [] then []
    else
      var last := row[|row| - 1];
      RowTexts(row[..|row| - 1], tdOnly) + (if !tdOnly || last.kind == Td then [last.text] else [])
  }

  /** The texts of the cells of rows, row by row. */
  function RowsTexts(rows: seq<seq<Cell>>, tdOnly: bool): seq<string> {
    if rows == [] then [] else RowsTexts(rows[..|rows| - 1], tdOnly) + RowTexts(rows[|rows| - 1], tdOnly)
  }

  /** The whole text of a table, `tbl.get_text(" ", strip=True)`. */
  function TableText(t: Table): string {
    Join(RowsTexts(t.rows, false))
  }

  /** "g.đb", "g.db", "giải đặc biệt" (special prize) or "g.1" occurs in txt. */
  predicate HasPrizeLabel(txt: string) {
    Contains(txt, "g.\U{0111}b") || Contains(txt, "g.db")
    || Contains(txt, "gi\U{1EA3}i \U{0111}\U{1EB7}c bi\U{1EC7}t") || Contains(txt, "g.1")
  }

  /** A prize label, or at least 20 numbers of 2 to 5 digits, in the lower-cased text. */
  predicate LooksLikeResultTable(t: Table) {
    var txt := Lower(TableText(t));
    HasPrizeLabel(txt) || |NumberTokens(txt, 2, 5)| >= 20
  }

  /** The loto test first; the result heuristic only when it fails. */
  function Classify(t: Table): TableKind {
    if IsLotoTable(t) then LotoTable
    else if LooksLikeResultTable(t) then ResultTable
    else Unrelated
  }

  // ---------------------------------------------------------------------
  // Extraction
  // ---------------------------------------------------------------------

  /** The two-digit numbers in the last cell of a row of at least two cells. */
  function LotoRowPairs(row: seq<Cell>): seq<string> {
    if |row| < 2 then [] else NumberTokens(row[|row| - 1].text, 2, 2)
  }

  function LotoPairsOfRows(rows: seq<seq<Cell>>): seq<string> {
    if rows == [] then [] else LotoPairsOfRows(rows[..|rows| - 1]) + LotoRowPairs(rows[|rows| - 1])
  }

  lemma LotoPairsOfPrefix(rows: seq<seq<Cell>>, i: nat)
    requires i < |rows|
    ensures LotoPairsOfRows(rows[..i + 1]) == LotoPairsOfRows(rows[..i]) + LotoRowPairs(rows[i])
  {
    assert rows[..i + 1][..i] == rows[..i];
  }

  /** What the loto extractor reads: every row after the header. */
  function LotoPairs(t: Table): seq<string> {
    if t.rows == [] then [] else LotoPairsOfRows(t.rows[1..])
  }

  /** `m[-2:]` of every m, in order. */
  function LastTwoAll(ws: seq<string>): (r: seq<string>)
    ensures |r| == |ws|
  {
    if ws == [] then [] else LastTwoAll(ws[..|ws| - 1]) + [LastTwo(ws[|ws| - 1])]
  }

  lemma {:induction false} LastTwoAllAt(ws: seq<string>, k: nat)
    requires k < |ws|
    ensures LastTwoAll(ws)[k] == LastTwo(ws[k])
  {
    if k < |ws| - 1 {
      LastTwoAllAt(ws[..|ws| - 1], k);
    }
  }

  /** The tails of one cell: the last two digits of each 2-to-5-digit number of a `<td>`. */
  function CellTails(c: Cell): seq<string> {
    if c.kind == Td then LastTwoAll(NumberTokens(c.text, 2, 5)) else []
  }

  function TailsOfCells(cells: seq<Cell>): seq<string> {
    if cells == [] then [] else TailsOfCells(cells[..|cells| - 1]) + CellTails(cells[|cells| - 1])
  }

  function TailsOfRows(rows: seq<seq<Cell>>): seq<string> {
    if rows == [] then [] else TailsOfRows(rows[..|rows| - 1]) + TailsOfCells(rows[|rows| - 1])
  }

  lemma TailsOfCellsPrefix(cells: seq<Cell>, j: nat)
    requires j < |cells|
    ensures TailsOfCells(cells[..j + 1]) == TailsOfCells(cells[..j]) + CellTails(cells[j])
  {
    assert cells[..j + 1][..j] == cells[..j];
  }

  lemma TailsOfRowsPrefix(rows: seq<seq<Cell>>, i: nat)
    requires i < |rows|
    ensures TailsOfRows(rows[..i + 1]) == TailsOfRows(rows[..i]) + TailsOfCells(rows[i])
  {
    assert rows[..i + 1][..i] == rows[..i];
  }

  /** What the result extractor reads: every `<td>` of the table. */
  function ResultTails(t: Table): seq<string> {
    TailsOfRows(t.rows)
  }

  /** One row of the loto extractor: a row of at least two cells gives the
      two-digit numbers of its last cell. */
  method AppendLotoRow(pairs: seq<string>, tds: seq<Cell>) returns (out: seq<string>)
    ensures out == pairs + LotoRowPairs(tds)
  {
    out := pairs;
    if |tds| >= 2 {
      var right := tds[|tds| - 1].text;
      out := out + NumberTokens(right, 2, 2);
    }
  }

  /** `_extract_pairs_from_loto_table`. */
  method ExtractLotoPairs(t: Table) returns (pairs: seq<string>)
    ensures pairs == LotoPairs(t)
  {
    pairs := [];
    var rows := if |t.rows| == 0 then [] else t.rows[1..];
    for i := 0 to |rows|
      invariant pairs == LotoPairsOfRows(rows[..i])
    {
      LotoPairsOfPrefix(rows, i);
      pairs := AppendLotoRow(pairs, rows[i]);
    }
    assert rows[..|rows|] == rows;
  }

  /** The innermost loop of `_extract_pairs_from_result_table`: append the
      last two digits of each 2-to-5-digit number of one cell's text. */
  method AppendCellTails(tails: seq<string>, text: string) returns (out: seq<string>)
    ensures out == tails + LastTwoAll(NumberTokens(text, 2, 5))
  {
    out := tails;
    var tokens := NumberTokens(text, 2, 5);
    for k := 0 to |tokens|
      invariant out == tails + LastTwoAll(tokens[..k])
    {
      assert tokens[..k + 1][..k] == tokens[..k];
      out := out + [LastTwo(tokens[k])];
    }
    assert tokens[..|tokens|] == tokens;
  }

  /** One cell of the middle loop: only a `<td>` cell is read. */
  method AppendCell(tails: seq<string>, c: Cell) returns (out: seq<string>)
    ensures out == tails + CellTails(c)
  {
    out := tails;
    if c.kind == Td {
      out := AppendCellTails(out, c.text);
    }
  }

  /** The middle loop of `_extract_pairs_from_result_table`: the cells of one row. */
  method AppendRowTails(tails: seq<string>, row: seq<Cell>) returns (out: seq<string>)
    ensures out == tails + TailsOfCells(row)
  {
    out := tails;
    for j := 0 to |row|
      invariant out == tails + TailsOfCells(row[..j])
    {
      TailsOfCellsPrefix(row, j);
      out := AppendCell(out, row[j]);
    }
    assert row[..|row|] == row;
  }

  /** `_extract_pairs_from_result_table`: every `<td>`, row by row. */
  method ExtractResultTails(t: Table) returns (tails: seq<string>)
    ensures tails == ResultTails(t)
  {
    tails := [];
    for i := 0 to |t.rows|
      invariant tails == TailsOfRows(t.rows[..i])
    {
      TailsOfRowsPrefix(t.rows, i);
      tails := AppendRowTails(tails, t.rows[i]);
    }
    assert t.rows[..|t.rows|] == t.rows;
  }

  // ---------------------------------------------------------------------
  // Normalisation
  // ---------------------------------------------------------------------

  /** `[p.zfill(2)[-2:] for p in pairs if p.isdigit()]`. */
  function CleanPairs(pairs: seq<string>): (r: seq<string>)
    ensures |r| <= |pairs|
    ensures forall k :: 0 <= k < |r| ==> IsTwoDigits(r[k])
  {
    if pairs == [] then []
    else if IsDigits(pairs[0]) then
      TailValue(pairs[0]);
      [LastTwo(ZFill2(pairs[0]))] + CleanPairs(pairs[1..])
    else CleanPairs(pairs[1..])
  }

  /** `_normalize_day_pairs`: the clean tails, cut after the first 27. */
  function NormalizeDayPairs(pairs: seq<string>): (r: seq<string>)
    ensures r <= CleanPairs(pairs) && |r| <= MaxTails
    ensures r == CleanPairs(pairs) || |r| == MaxTails
  {
    var clean := CleanPairs(pairs);
    if |clean| > MaxTails then clean[..MaxTails] else clean
  }

  // ---------------------------------------------------------------------
  // Day keys
  // ---------------------------------------------------------------------

  function Keys(days: seq<Day>): (r: seq<string>)
    ensures |r| == |days|
  {
    seq(|days|, i requires 0 <= i < |days| => days[i].0)
  }

  function Values(days: seq<Day>): (r: seq<seq<string>>)
    ensures |r| == |days|
  {
    seq(|days|, i requires 0 <= i < |days| => days[i].1)
  }

  /** The key tried at attempt s: the base itself, then `base#2`, `base#3`, … */
  function Suffixed(base: string, s: nat): string {
    if s <= 1 then base else base + "#" + NatToString(s)
  }

  function MaxKeyLength(days: seq<Day>): (m: nat)
    ensures forall i :: 0 <= i < |days| ==> |days[i].0| <= m
  {
    if days == [] then 0
    else
      var m := MaxKeyLength(days[..|days| - 1]);
      if |days[|days| - 1].0| > m then |days[|days| - 1].0| else m
  }

  lemma {:induction false} Pow10Monotone(a: nat, b: nat)
    requires a <= b
    ensures Pow10(a) <= Pow10(b)
    decreases b
  {
    if a < b {
      Pow10Monotone(a, b - 1);
    }
  }

  /** An attempt whose key is already taken lies below 10^(longest key). */
  lemma TakenAttemptBound(days: seq<Day>, base: string, s: nat)
    requires s >= 1 && Suffixed(base, s) in Keys(days)
    ensures s <= Pow10(MaxKeyLength(days))
  {
    if s >= 2 {
      var i :| 0 <= i < |days| && days[i].0 == Suffixed(base, s);
      NatToStringBelow(s);
      Pow10Monotone(|NatToString(s)|, MaxKeyLength(days));
    }
  }

  /** The first attempt, from s on, whose key is free. */
  function FreeSuffix(days: seq<Day>, base: string, s: nat): (j: nat)
    requires s >= 1
    ensures s <= j
    decreases Pow10(MaxKeyLength(days)) + 1 - s
  {
    if Suffixed(base, s) !in Keys(days) then s
    else
      TakenAttemptBound(days, base, s);
      FreeSuffix(days, base, s + 1)
  }

  /** The search ends at a free key, and every attempt before it was taken. */
  lemma {:induction false} FreeSuffixSound(days: seq<Day>, base: string, s: nat)
    requires s >= 1
    ensures Suffixed(base, FreeSuffix(days, base, s)) !in Keys(days)
    ensures forall i :: s <= i < FreeSuffix(days, base, s) ==> Suffixed(base, i) in Keys(days)
    decreases Pow10(MaxKeyLength(days)) + 1 - s
  {
    if Suffixed(base, s) in Keys(days) {
      TakenAttemptBound(days, base, s);
      FreeSuffixSound(days, base, s + 1);
    }
  }

  /** The key a day with base key `base` receives: `base`, else the first free `base#n`. */
  function UniqueKey(days: seq<Day>, base: string): string {
    Suffixed(base, FreeSuffix(days, base, 1))
  }

  /** The `while key in results` loop of `crawl`. */
  method ResolveKey(results: seq<Day>, base: string) returns (key: string)
    ensures key == UniqueKey(results, base)
  {
    key := base;
    var suffix := 1;
    while key in Keys(results)
      invariant suffix >= 1 && key == Suffixed(base, suffix)
      invariant FreeSuffix(results, base, suffix) == FreeSuffix(results, base, 1)
      decreases Pow10(MaxKeyLength(results)) + 1 - suffix
    {
      TakenAttemptBound(results, base, suffix);
      suffix := suffix + 1;
      key := base + "#" + NatToString(suffix);
    }
  }

  /** `f"day_{day_idx:02d}"`. */
  function SyntheticKey(dayIdx: nat): string {
    "day_" + Format02(dayIdx)
  }

  /** A date text was found above the table (an empty text counts as none). */
  predicate HasDate(date: Option<string>) {
    date.Some? && date.value != ""
  }

  // ---------------------------------------------------------------------
  // The crawl
  // ---------------------------------------------------------------------

  /** The raw tails of a table, by the strategy its kind calls for. */
  function RawPairs(t: Table): seq<string> {
    match Classify(t)
    case LotoTable => LotoPairs(t)
    case ResultTable => ResultTails(t)
    case Unrelated => []
  }

  function DayPairs(t: Table): seq<string> {
    NormalizeDayPairs(RawPairs(t))
  }

  /** The table passes both guards of the loop: some raw tails, and at least 20 after normalising. */
  predicate Accepted(t: Table) {
    RawPairs(t) != [] && |DayPairs(t)| >= MinTails
  }

  /** What the loop body learns from one table before it touches the result:
      whether the table passes both guards, the date text above it, and its
      normalised tails. */
  datatype Sighting = Sighting(accepted: bool, date: Option<string>, pairs: seq<string>)

  function Observe(t: Table): Sighting {
    Sighting(Accepted(t), t.date, DayPairs(t))
  }

  /** f applied to every element of s, in order. */
  function Map<A, B>(f: A -> B, s: seq<A>): (r: seq<B>)
    ensures |r| == |s|
  {
    seq(|s|, i requires 0 <= i < |s| => f(s[i]))
  }

  lemma MapAppend<A, B>(f: A -> B, a: seq<A>, b: seq<A>)
    ensures Map(f, a + b) == Map(f, a) + Map(f, b)
  {
    forall i | 0 <= i < |a + b|
      ensures Map(f, a + b)[i] == (Map(f, a) + Map(f, b))[i]
    {
      if i >= |a| {
        assert (a + b)[i] == b[i - |a|];
      }
    }
  }

  /** The sightings of the tables, in document order. */
  function Observations(ts: seq<Table>): (os: seq<Sighting>)
    ensures |os| == |ts|
  {
    Map(Observe, ts)
  }

  /** What the loop carries from one table to the next. */
  datatype CrawlState = CrawlState(results: seq<Day>, dayIdx: nat)

  /** One pass of the loop body, without the max_days check. */
  function Step(st: CrawlState, o: Sighting): CrawlState {
    if !o.accepted then st
    else if HasDate(o.date) then
      CrawlState(st.results + [(UniqueKey(st.results, o.date.value), o.pairs)], st.dayIdx)
    else
      var idx := st.dayIdx + 1;
      CrawlState(st.results + [(UniqueKey(st.results, SyntheticKey(idx)), o.pairs)], idx)
  }

  /** The loop from state st over the sightings os, breaking once an
      insertion brings the result to max_days entries. */
  function CrawlFrom(st: CrawlState, os: seq<Sighting>, maxDays: int): seq<Day>
    decreases |os|
  {
    if os == [] then st.results
    else
      var next := Step(st, os[0]);
      if os[0].accepted && |next.results| >= maxDays then next.results
      else CrawlFrom(next, os[1..], maxDays)
  }

  function CrawlSpec(tables: seq<Table>, maxDays: int): seq<Day> {
    CrawlFrom(CrawlState([], 0), Observations(tables), maxDays)
  }

  /** The classify-and-extract head of the loop body. */
  method TablePairs(t: Table) returns (pairs: seq<string>)
    ensures pairs == RawPairs(t)
  {
    pairs := [];
    if IsLotoTable(t) {
      pairs := ExtractLotoPairs(t);
    } else if LooksLikeResultTable(t) {
      pairs := ExtractResultTails(t);
    }
  }

  /** The tail of the loop body for an accepted table: pick the base key
      (the date, else the next `day_NN`), make it unique, store the day. */
  method StoreDay(results: seq<Day>, dayIdx: nat, date: Option<string>, pairs: seq<string>)
    returns (results': seq<Day>, dayIdx': nat)
    ensures CrawlState(results', dayIdx') == Step(CrawlState(results, dayIdx), Sighting(true, date, pairs))
  {
    var base: string;
    dayIdx' := dayIdx;
    if HasDate(date) {
      base := date.value;
    } else {
      dayIdx' := dayIdx + 1;
      base := SyntheticKey(dayIdx');
    }
    var key := ResolveKey(results, base);
    results' := results + [(key, pairs)];
  }

  /** One pass of the loop body of `crawl` over table t: classify and
      extract, skip the table (`continue`) when it yields no tails or fewer
      than 20 after normalising, else store it as a day. `stop` is the
      max_days check that breaks the loop. */
  method CrawlBody(results: seq<Day>, dayIdx: nat, t: Table, maxDays: int)
    returns (results': seq<Day>, dayIdx': nat, stop: bool)
    ensures CrawlState(results', dayIdx') == Step(CrawlState(results, dayIdx), Observe(t))
    ensures stop == (Accepted(t) && |results'| >= maxDays)
  {
    results', dayIdx', stop := results, dayIdx, false;
    var pairs := TablePairs(t);
    if pairs == [] {
      return;
    }
    pairs := NormalizeDayPairs(pairs);
    if |pairs| < MinTails {
      return;
    }
    results', dayIdx' := StoreDay(results, dayIdx, t.date, pairs);
    stop := |results'| >= maxDays;
  }

  /** The part of `crawl` after the page is fetched and parsed: the tables of
      the page, in document order, become the ordered day mapping. */
  method Crawl(tables: seq<Table>, maxDays: int) returns (results: seq<Day>)
    ensures results == CrawlSpec(tables, maxDays)
  {
    ghost var os := Observations(tables);
    results := [];
    var dayIdx: nat := 0;
    var i := 0;
    while i < |tables|
      invariant 0 <= i <= |tables|
      invariant CrawlFrom(CrawlState(results, dayIdx), os[i..], maxDays) == CrawlFrom(CrawlState([], 0), os, maxDays)
    {
      assert os[i..][0] == os[i] && os[i..][1..] == os[i + 1..];
      var stop;
      results, dayIdx, stop := CrawlBody(results, dayIdx, tables[i], maxDays);
      if stop {
        break;
      }
      i := i + 1;
    }
    assert os[|tables|..] == [];
  }

  // ---------------------------------------------------------------------
  // Properties of normalisation
  // ---------------------------------------------------------------------

  lemma {:induction false} CleanPairsAppend(a: seq<string>, b: seq<string>)
    ensures CleanPairs(a + b) == CleanPairs(a) + CleanPairs(b)
  {
    if a == [] {
      assert a + b == b;
    } else {
      assert (a + b)[0] == a[0];
      assert (a + b)[1..] == a[1..] + b;
      CleanPairsAppend(a[1..], b);
    }
  }

  /** What one raw token becomes: dropped unless all digits, a single digit
      padded with '0', a longer number cut to its last two digits. */
  lemma CleanPairsOne(p: string)
    ensures !IsDigits(p) ==> CleanPairs([p]) == []
    ensures IsDigits(p) && |p| == 1 ==> CleanPairs([p]) == ["0" + p]
    ensures IsDigits(p) && |p| >= 2 ==> CleanPairs([p]) == [p[|p| - 2..]]
    ensures IsTwoDigits(p) ==> CleanPairs([p]) == [p]
  {
    assert [p][1..] == [];
  }

  /** A list of tails is already clean. */
  lemma {:induction false} CleanPairsOfTails(ps: seq<string>)
    requires forall k :: 0 <= k < |ps| ==> IsTwoDigits(ps[k])
    ensures CleanPairs(ps) == ps
  {
    if ps != [] {
      var p := ps[0];
      assert ZFill2(p) == p && LastTwo(p) == p[0..] == p;
      assert CleanPairs(ps) == [p] + CleanPairs(ps[1..]);
      CleanPairsOfTails(ps[1..]);
    }
  }

  /** `_normalize_day_pairs` keeps the first min(27, n) clean tails, in order. */
  lemma NormalizeDayPairsShape(pairs: seq<string>)
    ensures var r := NormalizeDayPairs(pairs);
      var clean := CleanPairs(pairs);
      |r| == (if |clean| > MaxTails then MaxTails else |clean|) &&
      r == clean[..|r|] &&
      (forall k :: 0 <= k < |r| ==> IsTwoDigits(r[k]))
  {
  }

  /** A day of tails that is already normalised stays as it is. */
  lemma NormalizeDayPairsIdempotent(pairs: seq<string>)
    ensures NormalizeDayPairs(NormalizeDayPairs(pairs)) == NormalizeDayPairs(pairs)
  {
    CleanPairsOfTails(NormalizeDayPairs(pairs));
  }

  // ---------------------------------------------------------------------
  // Properties of extraction
  // ---------------------------------------------------------------------

  lemma {:induction false} LotoPairsOfRowsTwoDigits(rows: seq<seq<Cell>>)
    ensures forall k :: 0 <= k < |LotoPairsOfRows(rows)| ==> IsTwoDigits(LotoPairsOfRows(rows)[k])
  {
    if rows != [] {
      LotoPairsOfRowsTwoDigits(rows[..|rows| - 1]);
      var row := rows[|rows| - 1];
      if |row| >= 2 {
        NumberTokensSound(row[|row| - 1].text, 2, 2);
      }
    }
  }

  /** The loto extractor yields tails only. */
  lemma LotoPairsTwoDigits(t: Table)
    ensures forall k :: 0 <= k < |LotoPairs(t)| ==> IsTwoDigits(LotoPairs(t)[k])
  {
    if t.rows != [] {
      LotoPairsOfRowsTwoDigits(t.rows[1..]);
    }
  }

  /** What the loto extractor reads of a row: whether it has two cells, and
      the text of its last cell. */
  predicate SameLotoView(r1: seq<Cell>, r2: seq<Cell>) {
    (|r1| < 2 <==> |r2| < 2) && (|r1| >= 2 ==> r1[|r1| - 1].text == r2[|r2| - 1].text)
  }

  lemma {:induction false} LotoPairsOfRowsFrame(rs1: seq<seq<Cell>>, rs2: seq<seq<Cell>>)
    requires |rs1| == |rs2|
    requires forall i :: 0 <= i < |rs1| ==> SameLotoView(rs1[i], rs2[i])
    ensures LotoPairsOfRows(rs1) == LotoPairsOfRows(rs2)
  {
    if rs1 != [] {
      var n := |rs1|;
      var init1, init2 := rs1[..n - 1], rs2[..n - 1];
      forall i | 0 <= i < |init1|
        ensures SameLotoView(init1[i], init2[i])
      {
        assert init1[i] == rs1[i] && init2[i] == rs2[i];
      }
      LotoPairsOfRowsFrame(init1, init2);
      LotoRowPairsFrame(rs1[n - 1], rs2[n - 1]);
    }
  }

  lemma LotoRowPairsFrame(r1: seq<Cell>, r2: seq<Cell>)
    requires SameLotoView(r1, r2)
    ensures LotoRowPairs(r1) == LotoRowPairs(r2)
  {
  }

  /** The loto extractor ignores the header row, the rows of fewer than two
      cells and every cell but the last: tables that agree on those agree on
      their tails. */
  lemma LotoPairsReadsLastCells(t: Table, u: Table)
    requires |t.rows| == |u.rows|
    requires forall i :: 1 <= i < |t.rows| ==> SameLotoView(t.rows[i], u.rows[i])
    ensures LotoPairs(t) == LotoPairs(u)
  {
    if t.rows != [] {
      LotoPairsOfRowsFrame(t.rows[1..], u.rows[1..]);
    }
  }

  lemma {:induction false} LastTwoAllAppend(a: seq<string>, b: seq<string>)
    ensures LastTwoAll(a + b) == LastTwoAll(a) + LastTwoAll(b)
  {
    if b == [] {
      assert a + b == a;
    } else {
      var init := b[..|b| - 1];
      assert (a + b)[..|a + b| - 1] == a + init;
      LastTwoAllAppend(a, init);
    }
  }

  lemma {:induction false} TailsOfCellsAsTokens(cells: seq<Cell>)
    ensures TailsOfCells(cells) == LastTwoAll(NumberTokensOfAll(RowTexts(cells, true), 2, 5))
  {
    if cells != [] {
      var init, last := cells[..|cells| - 1], cells[|cells| - 1];
      TailsOfCellsAsTokens(init);
      var extra := if last.kind == Td then [last.text] else [];
      NumberTokensOfAllAppend(RowTexts(init, true), extra, 2, 5);
      assert NumberTokensOfAll(extra, 2, 5) == if last.kind == Td then NumberTokens(last.text, 2, 5) else [];
      LastTwoAllAppend(NumberTokensOfAll(RowTexts(init, true), 2, 5), NumberTokensOfAll(extra, 2, 5));
    }
  }

  lemma {:induction false} TailsOfRowsAsTokens(rows: seq<seq<Cell>>)
    ensures TailsOfRows(rows) == LastTwoAll(NumberTokensOfAll(RowsTexts(rows, true), 2, 5))
  {
    if rows != [] {
      var init, last := rows[..|rows| - 1], rows[|rows| - 1];
      TailsOfRowsAsTokens(init);
      TailsOfCellsAsTokens(last);
      NumberTokensOfAllAppend(RowsTexts(init, true), RowTexts(last, true), 2, 5);
      LastTwoAllAppend(NumberTokensOfAll(RowsTexts(init, true), 2, 5), NumberTokensOfAll(RowTexts(last, true), 2, 5));
    }
  }

  /** The result extractor emits one tail per 2-to-5-digit number of the
      `<td>` cells, in cell order then number order, duplicates kept; each
      tail is the number's last two digits, that is its value modulo 100. */
  lemma ResultTailsAsTokens(t: Table)
    ensures var tokens := NumberTokensOfAll(RowsTexts(t.rows, true), 2, 5);
      |ResultTails(t)| == |tokens| &&
      forall k :: 0 <= k < |tokens| ==>
        IsNumberToken(tokens[k], 2, 5) &&
        ResultTails(t)[k] == tokens[k][|tokens[k]| - 2..] &&
        IsTwoDigits(ResultTails(t)[k]) &&
        DigitsValue(ResultTails(t)[k]) == DigitsValue(tokens[k]) % 100
  {
    TailsOfRowsAsTokens(t.rows);
    var tokens := NumberTokensOfAll(RowsTexts(t.rows, true), 2, 5);
    forall k | 0 <= k < |tokens|
      ensures IsNumberToken(tokens[k], 2, 5)
    {
      NumberTokensOfAllSound(RowsTexts(t.rows, true), 2, 5, k);
    }
    forall k | 0 <= k < |tokens|
      ensures ResultTails(t)[k] == tokens[k][|tokens[k]| - 2..]
      ensures IsTwoDigits(ResultTails(t)[k])
      ensures DigitsValue(ResultTails(t)[k]) == DigitsValue(tokens[k]) % 100
    {
      LastTwoAllAt(tokens, k);
      TailValue(tokens[k]);
    }
  }

  lemma {:induction false} NumberTokensOfAllSound(xs: seq<string>, lo: nat, hi: nat, k: nat)
    requires k < |NumberTokensOfAll(xs, lo, hi)|
    ensures IsNumberToken(NumberTokensOfAll(xs, lo, hi)[k], lo, hi)
  {
    var first := NumberTokens(xs[0], lo, hi);
    NumberTokensSound(xs[0], lo, hi);
    if k >= |first| {
      NumberTokensOfAllSound(xs[1..], lo, hi, k - |first|);
    }
  }

  /** Every tail the result extractor yields is two digits. */
  lemma ResultTailsTwoDigits(t: Table)
    ensures forall k :: 0 <= k < |ResultTails(t)| ==> IsTwoDigits(ResultTails(t)[k])
  {
    ResultTailsAsTokens(t);
  }

  // ---------------------------------------------------------------------
  // Properties of classification
  // ---------------------------------------------------------------------

  /** A table the loto test accepts is read by the loto extractor even when it
      also looks like a result table; the result extractor runs only on
      tables that fail the loto test and pass the heuristic. */
  lemma ClassifyPrecedence(t: Table)
    ensures IsLotoTable(t) ==> RawPairs(t) == LotoPairs(t)
    ensures Classify(t) == ResultTable <==>
      !IsLotoTable(t) &&
      (HasPrizeLabel(Lower(TableText(t))) || |NumberTokens(Lower(TableText(t)), 2, 5)| >= 20)
    ensures Classify(t) == Unrelated ==> RawPairs(t) == [] && !Accepted(t)
  {
  }

  predicate AllTd(t: Table) {
    forall i, j :: 0 <= i < |t.rows| && 0 <= j < |t.rows[i]| ==> t.rows[i][j].kind == Td
  }

  lemma {:induction false} RowTextsAllTd(row: seq<Cell>)
    requires forall j :: 0 <= j < |row| ==> row[j].kind == Td
    ensures RowTexts(row, true) == RowTexts(row, false)
  {
    if row != [] {
      RowTextsAllTd(row[..|row| - 1]);
    }
  }

  lemma {:induction false} RowsTextsAllTd(rows: seq<seq<Cell>>)
    requires forall i, j :: 0 <= i < |rows| && 0 <= j < |rows[i]| ==> rows[i][j].kind == Td
    ensures RowsTexts(rows, true) == RowsTexts(rows, false)
  {
    if rows != [] {
      RowsTextsAllTd(rows[..|rows| - 1]);
      RowTextsAllTd(rows[|rows| - 1]);
    }
  }

  /** Without a prize label, the number count the heuristic takes over the
      whole text of a `<td>`-only table is the number of tails the result
      extractor then yields. */
  lemma ResultHeuristicCountsTails(t: Table)
    requires AllTd(t)
    requires !HasPrizeLabel(Lower(TableText(t)))
    ensures LooksLikeResultTable(t) <==> |ResultTails(t)| >= 20
  {
    NumberTokensLower(TableText(t), 2, 5);
    NumberTokensOfJoin(RowsTexts(t.rows, false), 2, 5);
    RowsTextsAllTd(t.rows);
    ResultTailsAsTokens(t);
  }

  /** So such a table, when it is not a loto table, is kept as a day exactly
      when it is classified as a result table. */
  lemma TdTableAcceptedIffResult(t: Table)
    requires AllTd(t) && !IsLotoTable(t)
    requires !HasPrizeLabel(Lower(TableText(t)))
    ensures Accepted(t) <==> Classify(t) == ResultTable
  {
    ResultHeuristicCountsTails(t);
    if Classify(t) == ResultTable {
      var tails := ResultTails(t);
      assert RawPairs(t) == tails;
      ResultTailsTwoDigits(t);
      CleanPairsOfTails(tails);
      assert DayPairs(t) == if |tails| > MaxTails then tails[..MaxTails] else tails;
      assert |tails| >= 20;
    } else {
      assert Classify(t) == Unrelated;
      assert RawPairs(t) == [];
    }
  }

  // ---------------------------------------------------------------------
  // Properties of day keys
  // ---------------------------------------------------------------------

  /** The key a day receives is not yet taken; it is its base key exactly
      when that one is free. */
  lemma UniqueKeyFresh(days: seq<Day>, base: string)
    ensures UniqueKey(days, base) !in Keys(days)
    ensures UniqueKey(days, base) == base <==> base !in Keys(days)
  {
    var j := FreeSuffix(days, base, 1);
    FreeSuffixSound(days, base, 1);
    if j > 1 {
      assert Suffixed(base, 1) in Keys(days);
    }
  }

  /** A repeated base key D becomes D#2 while D#2 is free. */
  lemma SecondKeyGetsSuffix(days: seq<Day>, base: string)
    requires base in Keys(days) && base + "#2" !in Keys(days)
    ensures UniqueKey(days, base) == base + "#2"
  {
    assert NatToString(2) == "2";
    assert Suffixed(base, 2) == base + "#2";
    var j := FreeSuffix(days, base, 1);
    FreeSuffixSound(days, base, 1);
    assert Suffixed(base, 1) in Keys(days);
    assert Suffixed(base, 2) !in Keys(days);
  }

  /** `day_NN` carries the counter in at least two digits: exactly two below
      100, and all of its digits from 100 on (`day_100`). */
  lemma SyntheticKeyShape(n: nat)
    ensures |SyntheticKey(n)| >= 6 && SyntheticKey(n)[..4] == "day_"
    ensures IsDigits(SyntheticKey(n)[4..]) && DigitsValue(SyntheticKey(n)[4..]) == n
    ensures n < 100 <==> |SyntheticKey(n)| == 6
  {
    var k := SyntheticKey(n);
    assert k[4..] == Format02(n);
    if n < 100 {
      Format02RoundTrip(n);
    } else {
      var m := n / 10;
      assert m >= 10;
      assert NatToString(m) == NatToString(m / 10) + [DigitChar(m % 10)];
      assert NatToString(n) == NatToString(m) + [DigitChar(n % 10)];
      assert Format02(n) == NatToString(n);
      NatToStringValue(n);
    }
  }

  /** The synthetic counter moves only for an accepted table without a date. */
  lemma StepCounter(st: CrawlState, o: Sighting)
    ensures Step(st, o).dayIdx == st.dayIdx + (if o.accepted && !HasDate(o.date) then 1 else 0)
    ensures !o.accepted ==> Step(st, o) == st
    ensures o.accepted ==>
      (|Step(st, o).results| == |st.results| + 1 &&
       Step(st, o).results[..|st.results|] == st.results &&
       Step(st, o).results[|st.results|].1 == o.pairs)
  {
  }

  // ---------------------------------------------------------------------
  // Properties of the crawl
  // ---------------------------------------------------------------------

  /** The tails of the accepted sightings, in order. */
  function AcceptedPairs(os: seq<Sighting>): seq<seq<string>> {
    if os == [] then [] else (if os[0].accepted then [os[0].pairs] else []) + AcceptedPairs(os[1..])
  }

  /** The normalised tails of the accepted tables, in document order. */
  function AcceptedDays(ts: seq<Table>): seq<seq<string>> {
    if ts == [] then [] else (if Accepted(ts[0]) then [DayPairs(ts[0])] else []) + AcceptedDays(ts[1..])
  }

  lemma {:induction false} AcceptedPairsObserved(ts: seq<Table>)
    ensures AcceptedPairs(Observations(ts)) == AcceptedDays(ts)
  {
    if ts != [] {
      AcceptedPairsObserved(ts[1..]);
      assert ts == [ts[0]] + ts[1..];
      MapAppend(Observe, [ts[0]], ts[1..]);
      assert Observations([ts[0]]) == [Observe(ts[0])];
    }
  }

  function Take<T>(s: seq<T>, n: nat): (r: seq<T>)
    ensures |r| == if n < |s| then n else |s|
  {
    if n < |s| then s[..n] else s
  }

  /** How many more days the loop adds before it breaks: it checks the size
      only after an insertion, so at least one. */
  function Room(filled: nat, maxDays: int): nat {
    if maxDays - filled >= 1 then maxDays - filled else 1
  }

  lemma ValuesAppend(days: seq<Day>, day: Day)
    ensures Values(days + [day]) == Values(days) + [day.1]
  {
  }

  lemma TakeCons<T>(x: T, s: seq<T>, n: nat)
    ensures Take([x] + s, n + 1) == [x] + Take(s, n)
  {
  }

  lemma {:induction false} CrawlFromValues(st: CrawlState, os: seq<Sighting>, maxDays: int)
    ensures Values(CrawlFrom(st, os, maxDays)) ==
            Values(st.results) + Take(AcceptedPairs(os), Room(|st.results|, maxDays))
    decreases |os|
  {
    if os == [] {
      assert Values(st.results) + [] == Values(st.results);
    } else {
      var o := os[0];
      var next := Step(st, o);
      var rest := AcceptedPairs(os[1..]);
      if !o.accepted {
        CrawlFromValues(next, os[1..], maxDays);
      } else {
        ValuesAppend(st.results, next.results[|st.results|]);
        assert next.results == st.results + [next.results[|st.results|]];
        assert AcceptedPairs(os) == [o.pairs] + rest;
        if |next.results| >= maxDays {
          assert Take(AcceptedPairs(os), Room(|st.results|, maxDays)) == [o.pairs];
        } else {
          CrawlFromValues(next, os[1..], maxDays);
          var n := Room(|next.results|, maxDays);
          assert Room(|st.results|, maxDays) == n + 1;
          TakeCons(o.pairs, rest, n);
        }
      }
    }
  }

  /** The crawl keeps, in document order, the normalised tails of the accepted
      tables, the first max_days of them (at least the first one); every other
      table leaves the result unchanged. */
  lemma CrawlSpecValues(tables: seq<Table>, maxDays: int)
    ensures Values(CrawlSpec(tables, maxDays)) ==
            Take(AcceptedDays(tables), if maxDays >= 1 then maxDays else 1)
  {
    CrawlFromValues(CrawlState([], 0), Observations(tables), maxDays);
    AcceptedPairsObserved(tables);
    assert Values([]) == [];
  }

  /** The result holds at most max_days days (max_days >= 1), and fewer only
      when every accepted table is in it. */
  lemma CrawlSpecSize(tables: seq<Table>, maxDays: int)
    ensures maxDays >= 1 ==> |CrawlSpec(tables, maxDays)| <= maxDays
    ensures |CrawlSpec(tables, maxDays)| <= |AcceptedDays(tables)|
    ensures |CrawlSpec(tables, maxDays)| < maxDays ==>
            Values(CrawlSpec(tables, maxDays)) == AcceptedDays(tables)
  {
    CrawlSpecValues(tables, maxDays);
  }

  lemma {:induction false} AcceptedDaysShape(ts: seq<Table>)
    ensures forall d :: d in AcceptedDays(ts) ==>
      MinTails <= |d| <= MaxTails && forall k :: 0 <= k < |d| ==> IsTwoDigits(d[k])
  {
    if ts != [] {
      AcceptedDaysShape(ts[1..]);
      NormalizeDayPairsShape(RawPairs(ts[0]));
    }
  }

  /** Every stored day has 20 to 27 tails. */
  lemma CrawlSpecDayShape(tables: seq<Table>, maxDays: int)
    ensures forall i :: 0 <= i < |CrawlSpec(tables, maxDays)| ==>
      var d := CrawlSpec(tables, maxDays)[i].1;
      MinTails <= |d| <= MaxTails && forall k :: 0 <= k < |d| ==> IsTwoDigits(d[k])
  {
    CrawlSpecValues(tables, maxDays);
    AcceptedDaysShape(tables);
    var r := CrawlSpec(tables, maxDays);
    forall i | 0 <= i < |r|
      ensures r[i].1 in AcceptedDays(tables)
    {
      assert Values(r)[i] == r[i].1;
    }
  }

  predicate DistinctKeys(days: seq<Day>) {
    forall i, j :: 0 <= i < j < |days| ==> days[i].0 != days[j].0
  }

  lemma StepDistinct(st: CrawlState, o: Sighting)
    requires DistinctKeys(st.results)
    ensures DistinctKeys(Step(st, o).results)
  {
    if o.accepted {
      var base := if HasDate(o.date) then o.date.value else SyntheticKey(st.dayIdx + 1);
      UniqueKeyFresh(st.results, base);
      forall i | 0 <= i < |st.results|
        ensures st.results[i].0 in Keys(st.results)
      {
        assert Keys(st.results)[i] == st.results[i].0;
      }
    }
  }

  lemma {:induction false} CrawlFromDistinct(st: CrawlState, os: seq<Sighting>, maxDays: int)
    requires DistinctKeys(st.results)
    ensures DistinctKeys(CrawlFrom(st, os, maxDays))
    decreases |os|
  {
    if os != [] {
      StepDistinct(st, os[0]);
      CrawlFromDistinct(Step(st, os[0]), os[1..], maxDays);
    }
  }

  /** No two days share a key. */
  lemma CrawlSpecDistinctKeys(tables: seq<Table>, maxDays: int)
    ensures DistinctKeys(CrawlSpec(tables, maxDays))
  {
    CrawlFromDistinct(CrawlState([], 0), Observations(tables), maxDays);
  }

  lemma {:induction false} RejectedSightingIgnored(st: CrawlState, os1: seq<Sighting>, o: Sighting, os2: seq<Sighting>, maxDays: int)
    requires !o.accepted
    ensures CrawlFrom(st, os1 + [o] + os2, maxDays) == CrawlFrom(st, os1 + os2, maxDays)
    decreases |os1|
  {
    if os1 == [] {
      assert os1 + [o] + os2 == [o] + os2;
      assert ([o] + os2)[1..] == os2;
      assert os1 + os2 == os2;
    } else {
      assert (os1 + [o] + os2)[0] == os1[0] && (os1 + os2)[0] == os1[0];
      assert (os1 + [o] + os2)[1..] == os1[1..] + [o] + os2;
      assert (os1 + os2)[1..] == os1[1..] + os2;
      RejectedSightingIgnored(Step(st, os1[0]), os1[1..], o, os2, maxDays);
    }
  }

  /** A table that yields no tails, or fewer than 20 after normalising, can be
      taken out of the page without changing the result. */
  lemma RejectedTableIgnored(ts1: seq<Table>, t: Table, ts2: seq<Table>, maxDays: int)
    requires !Accepted(t)
    ensures CrawlSpec(ts1 + [t] + ts2, maxDays) == CrawlSpec(ts1 + ts2, maxDays)
  {
    MapAppend(Observe, ts1 + [t], ts2);
    MapAppend(Observe, ts1, [t]);
    MapAppend(Observe, ts1, ts2);
    assert Observations([t]) == [Observe(t)];
    RejectedSightingIgnored(CrawlState([], 0), Observations(ts1), Observe(t), Observations(ts2), maxDays);
  }

  /** Two accepted sightings under the same date text D are stored as D and D#2. */
  lemma SameDateTwiceFrom(o1: Sighting, o2: Sighting, d: string, maxDays: int)
    requires o1.accepted && o2.accepted
    requires o1.date == Some(d) && o2.date == Some(d) && d != ""
    requires maxDays >= 2
    ensures Keys(CrawlFrom(CrawlState([], 0), [o1, o2], maxDays)) == [d, d + "#2"]
  {
    var st1 := Step(CrawlState([], 0), o1);
    UniqueKeyFresh([], d);
    assert st1.results == [(d, o1.pairs)];
    assert Keys(st1.results) == [d];
    assert |d + "#2"| != |d|;
    SecondKeyGetsSuffix(st1.results, d);
    var st2 := Step(st1, o2);
    assert st2.results == [(d, o1.pairs), (d + "#2", o2.pairs)];
    assert [o1, o2][1..] == [o2];
    assert [o2][1..] == [];
    assert CrawlFrom(st1, [o2], maxDays) == st2.results;
  }

  /** Two accepted tables under the same date text D are stored as D and D#2. */
  lemma SameDateTwice(t1: Table, t2: Table, d: string, maxDays: int)
    requires Accepted(t1) && Accepted(t2)
    requires t1.date == Some(d) && t2.date == Some(d) && d != ""
    requires maxDays >= 2
    ensures Keys(CrawlSpec([t1, t2], maxDays)) == [d, d + "#2"]
  {
    assert [t1, t2][1..] == [t2] && [t2][1..] == [];
    assert Observations([t1, t2]) == [Observe(t1), Observe(t2)];
    SameDateTwiceFrom(Observe(t1), Observe(t2), d, maxDays);
  }
}
