/** Rendering a scorecard as tables: the cell texts of each row (colours, markers and
    score summaries), the stable sort by batting or bowling order, and the tables
    `to_table` fills in one row at a time and prints. A printed table is recorded as
    its contents; layout and the terminal are not modelled. */
module Tables {
  import opened Wrappers
  import opened PyText
  import opened Matches
  import opened PlayerInnings
  import opened Scorecards

  // ---------------------------------------------------------------------------
  // Colours

  /** The ANSI escape codes written around each batting cell. */
  const RED: string := "\U{1B}[31m"
  const RESET: string := "\U{1B}[0m"

  /** `colour_row`: every cell wrapped in the colour and a reset. */
  function ColourRow(cells: seq<string>, colour: string): (r: seq<string>)
    ensures |r| == |cells|
    ensures forall i :: 0 <= i < |r| ==>
              && |r[i]| == |colour| + |cells[i]| + |RESET|
              && r[i][..|colour|] == colour
              && r[i][|r[i]| - |RESET|..] == RESET
  {
    seq(|cells|, i requires 0 <= i < |cells| => colour + cells[i] + RESET)
  }

  /** A coloured cell with its colour and reset taken off. */
  function Uncolour(cell: string, colour: string): string
  {
    if |cell| >= |colour| + |RESET| then cell[|colour|..|cell| - |RESET|] else cell
  }

  /** Colouring loses nothing: taking the codes off again gives back every cell. */
  lemma ColourRowRoundTrip(cells: seq<string>, colour: string)
    ensures var r := ColourRow(cells, colour);
            forall i :: 0 <= i < |cells| ==> Uncolour(r[i], colour) == cells[i]
  {
    var r := ColourRow(cells, colour);
    forall i | 0 <= i < |cells| ensures Uncolour(r[i], colour) == cells[i] {
      assert r[i] == colour + cells[i] + RESET;
    }
  }

  /** A red cell never looks like a reset one: the two codes differ in their third character. */
  lemma RedIsNotReset(cell: string)
    ensures (RESET + cell + RESET)[..|RED|] != RED
  {
    assert (RESET + cell + RESET)[2] == '0';
  }

  // ---------------------------------------------------------------------------
  // Cell texts

  /** `f"{x}"` for an optional int: `None` prints as the word. */
  function OptionalText(o: Option<int>): string
  {
    match o
    case None => "None"
    case Some(i) => IntToString(i)
  }

  /** The printed optional reads back as the same optional: `int()` rejects the word
      `None` and inverts the printed number. */
  lemma OptionalTextRoundTrip(o: Option<int>)
    ensures o.None? ==> ParseInt(OptionalText(o)) == None
    ensures o.Some? ==> ParseInt(OptionalText(o)) == Some(o.value)
  {
    match o
    case None =>
      var s := "None";
      assert forall k :: 0 <= k < |s| ==> !IsDigit(s[k]);
    case Some(i) =>
      IntRoundTrip(i);
  }

  /** The runs cell: the runs, then `*` for a batter who is not out. */
  function RunsText(runs: int, notOut: bool): string
  {
    IntToString(runs) + (if notOut then "*" else "")
  }

  /** The text with one trailing `*` taken off, if it has one. */
  function Unstarred(s: string): string
  {
    if s != [] && s[|s| - 1] == '*' then s[..|s| - 1] else s
  }

  /** The runs cell ends in `*` exactly for a not-out batter, and the runs read back
      from what is left. */
  lemma RunsTextReadBack(runs: int, notOut: bool)
    ensures var s := RunsText(runs, notOut);
            && (s[|s| - 1] == '*' <==> notOut)
            && ParseInt(Unstarred(s)) == Some(runs)
  {
    var d := IntToString(runs);
    var s := RunsText(runs, notOut);
    if notOut {
      assert s[..|s| - 1] == d;
    } else {
      assert s == d;
      assert IsDigit(s[|s| - 1]);
    }
    IntRoundTrip(runs);
  }

  /** The six cells of a batting row before colouring: display name, dismissal, runs,
      balls, fours and sixes. */
  function BattingCells(b: BattingInnings): seq<string>
  {
    [PlayerDisplay(b.displayName, b.captain, b.keeper), b.dismissalText, RunsText(b.runs, b.notOut),
     OptionalText(b.ballsFaced), OptionalText(b.fours), OptionalText(b.sixes)]
  }

  /** The colour of a batting row: red for a batter who is not out. */
  function BattingColour(b: BattingInnings): string
  {
    if b.notOut then RED else RESET
  }

  /** `BattingInnings.add_to_table`'s row. */
  function BattingRow(b: BattingInnings): (r: seq<string>)
    ensures |r| == 6
  {
    ColourRow(BattingCells(b), BattingColour(b))
  }

  /** Every cell of a batting row is red exactly when the batter is not out. */
  lemma BattingRowRedIffNotOut(b: BattingInnings)
    ensures var r := BattingRow(b);
            forall i :: 0 <= i < 6 ==> (r[i][..|RED|] == RED <==> b.notOut)
  {
    var cells := BattingCells(b);
    var r := BattingRow(b);
    forall i | 0 <= i < 6 ensures r[i][..|RED|] == RED <==> b.notOut {
      if !b.notOut {
        assert r[i] == RESET + cells[i] + RESET;
        RedIsNotReset(cells[i]);
      }
    }
  }

  /** A batting row holds the display, the dismissal, the runs with the not-out
      marker, and the three optional counts, all of which read back. */
  lemma BattingRowReadBack(b: BattingInnings)
    ensures var r := BattingRow(b);
            var c := BattingColour(b);
            && Uncolour(r[0], c) == PlayerDisplay(b.displayName, b.captain, b.keeper)
            && Uncolour(r[1], c) == b.dismissalText
            && Uncolour(r[2], c) == RunsText(b.runs, b.notOut)
            && ParseInt(Uncolour(r[3], c)) == b.ballsFaced
            && ParseInt(Uncolour(r[4], c)) == b.fours
            && ParseInt(Uncolour(r[5], c)) == b.sixes
  {
    var cells := BattingCells(b);
    var r := BattingRow(b);
    var c := BattingColour(b);
    assert forall i :: 0 <= i < 6 ==> Uncolour(r[i], c) == cells[i] by {
      ColourRowRoundTrip(cells, c);
    }
    assert ParseInt(cells[3]) == b.ballsFaced by { OptionalTextRoundTrip(b.ballsFaced); }
    assert ParseInt(cells[4]) == b.fours by { OptionalTextRoundTrip(b.fours); }
    assert ParseInt(cells[5]) == b.sixes by { OptionalTextRoundTrip(b.sixes); }
  }

  /** A table cell: a string, or a number PrettyTable formats itself. */
  datatype Cell = Text(s: string) | Num(n: Number)

  /** `BowlingInnings.add_to_table`'s row: name, overs as displayed, maidens, runs,
      wickets; nothing is coloured. */
  function BowlingRow(w: BowlingInnings): (r: seq<Cell>)
    ensures |r| == 5
    ensures r[0] == Text(w.displayName)
    ensures r[1].Num? && Value(r[1].n) == Value(w.overs) && (r[1].n.Int? <==> IsWhole(Value(w.overs)))
    ensures r[2] == Num(Int(w.maidens)) && r[3] == Num(Int(w.runs)) && r[4] == Num(Int(w.wickets))
  {
    [Text(w.displayName), Num(OversDisplay(w.overs)), Num(Int(w.maidens)), Num(Int(w.runs)), Num(Int(w.wickets))]
  }

  /** A batting row's strings as table cells. */
  function BattingTableRow(b: BattingInnings): (r: seq<Cell>)
    ensures |r| == 6
    ensures forall i :: 0 <= i < 6 ==> r[i] == Text(BattingRow(b)[i])
  {
    var row := BattingRow(b);
    seq(|row|, i requires 0 <= i < |row| => Text(row[i]))
  }

  // ---------------------------------------------------------------------------
  // Score summary and innings heading

  /** `score_summary`: `"R all out"` when the description is exactly `"all out"`,
      otherwise `"R/W"`. */
  function ScoreSummary(runs: int, wickets: int, description: string): (r: string)
    ensures |IntToString(runs)| < |r| && r[|IntToString(runs)|] == (if description == "all out" then ' ' else '/')
  {
    IntToString(runs) + (if description == "all out" then " " + description else "/" + IntToString(wickets))
  }

  /** No decimal numeral holds a space, a slash or a colon. */
  lemma NumeralFree(i: int)
    ensures ' ' !in IntToString(i) && '/' !in IntToString(i) && ':' !in IntToString(i)
  {
    var s := IntToString(i);
    assert forall k :: 0 <= k < |s| ==> s[k] == '-' || IsDigit(s[k]);
  }

  /** An all-out summary splits on spaces into the runs and the words `all out`. */
  lemma AllOutSummaryReadBack(runs: int, wickets: int)
    ensures var p := Split(ScoreSummary(runs, wickets, "all out"), ' ');
            p == [IntToString(runs), "all", "out"] && ParseInt(p[0]) == Some(runs)
  {
    var r := IntToString(runs);
    assert Split("all out", ' ') == ["all", "out"] by {
      assert "all out" == "all" + [' '] + "out";
      SplitConcat("all", "out", ' ');
      SplitWithoutSeparator("all", ' ');
      SplitWithoutSeparator("out", ' ');
    }
    assert Split(ScoreSummary(runs, wickets, "all out"), ' ') == [r] + Split("all out", ' ') by {
      NumeralFree(runs);
      SplitWithoutSeparator(r, ' ');
      assert ScoreSummary(runs, wickets, "all out") == r + [' '] + "all out";
      SplitConcat(r, "all out", ' ');
    }
    IntRoundTrip(runs);
  }

  /** Any other summary splits on `/` into the runs and the wickets. */
  lemma ScoreSummaryReadBack(runs: int, wickets: int, description: string)
    requires description != "all out"
    ensures var p := Split(ScoreSummary(runs, wickets, description), '/');
            |p| == 2 && ParseInt(p[0]) == Some(runs) && ParseInt(p[1]) == Some(wickets)
  {
    var r := IntToString(runs);
    var w := IntToString(wickets);
    assert Split(ScoreSummary(runs, wickets, description), '/') == [r, w] by {
      NumeralFree(runs);
      NumeralFree(wickets);
      assert ScoreSummary(runs, wickets, description) == r + ['/'] + w;
      SplitConcat(r, w, '/');
      SplitWithoutSeparator(r, '/');
      SplitWithoutSeparator(w, '/');
    }
    IntRoundTrip(runs);
    IntRoundTrip(wickets);
  }

  function InningsSummary(inn: Innings): string
  {
    ScoreSummary(inn.battingScore, inn.wickets, inn.battingDescription)
  }

  const INNINGS_WORD: string := "Innings "

  /** The heading row: `"Innings N: team summary"`. */
  function InningsHeading(inn: Innings): string
  {
    INNINGS_WORD + IntToString(inn.number) + ": " + inn.team.displayName + " " + InningsSummary(inn)
  }

  /** The innings number reads back from the heading: the text before the first colon
      is the word and the number, whatever the team is called. */
  lemma InningsHeadingNumber(inn: Innings)
    ensures var p := Split(InningsHeading(inn), ':');
            p[0] == INNINGS_WORD + IntToString(inn.number)
            && ParseInt(p[0][|INNINGS_WORD|..]) == Some(inn.number)
  {
    var b := " " + inn.team.displayName + " " + InningsSummary(inn);
    assert InningsHeading(inn) == INNINGS_WORD + IntToString(inn.number) + [':'] + b;
    HeadingNumberReadBack(inn.number, b);
  }

  /** Whatever follows the colon, the text before it is the word and the number. */
  lemma HeadingNumberReadBack(n: int, b: string)
    ensures var p := Split(INNINGS_WORD + IntToString(n) + [':'] + b, ':');
            p[0] == INNINGS_WORD + IntToString(n)
            && ParseInt(p[0][|INNINGS_WORD|..]) == Some(n)
  {
    var a := INNINGS_WORD + IntToString(n);
    NumeralFree(n);
    assert ':' !in a;
    SplitConcat(a, b, ':');
    SplitWithoutSeparator(a, ':');
    assert a[|INNINGS_WORD|..] == IntToString(n);
    IntRoundTrip(n);
  }

  // ---------------------------------------------------------------------------
  // `sorted(items, key=lambda b: b.order)`

  predicate SortedBy<T>(xs: seq<T>, key: T -> int)
  {
    forall i, j :: 0 <= i < j < |xs| ==> key(xs[i]) <= key(xs[j])
  }

  /** The items whose key is `k`, in their order. */
  function WithKey<T>(xs: seq<T>, key: T -> int, k: int): seq<T>
  {
    if xs == [] then []
    else (if key(xs[0]) == k then [xs[0]] else []) + WithKey(xs[1..], key, k)
  }

  /** `x` placed in a sorted list before the first item whose key is not smaller. */
  function Insert<T>(x: T, xs: seq<T>, key: T -> int): (r: seq<T>)
    ensures |r| == |xs| + 1
  {
    if xs == [] || key(x) <= key(xs[0]) then [x] + xs
    else [xs[0]] + Insert(x, xs[1..], key)
  }

  /** Python's `sorted` with a key: a stable sort, here by insertion. */
  function SortBy<T>(xs: seq<T>, key: T -> int): (r: seq<T>)
    ensures |r| == |xs|
  {
    if xs == [] then [] else Insert(xs[0], SortBy(xs[1..], key), key)
  }

  /** Inserting adds exactly the one item. */
  lemma {:induction false} InsertPermutes<T>(x: T, xs: seq<T>, key: T -> int)
    ensures multiset(Insert(x, xs, key)) == multiset(xs) + multiset{x}
  {
    if xs != [] && key(x) > key(xs[0]) {
      InsertPermutes(x, xs[1..], key);
      assert xs == [xs[0]] + xs[1..];
    }
  }

  /** Every item of an insertion is `x` or an item of the list. */
  lemma InsertMembers<T>(x: T, xs: seq<T>, key: T -> int, j: nat)
    requires j < |xs| + 1
    ensures Insert(x, xs, key)[j] == x || Insert(x, xs, key)[j] in xs
  {
    InsertPermutes(x, xs, key);
    assert Insert(x, xs, key)[j] in multiset(xs) + multiset{x};
  }

  lemma {:induction false} InsertSorted<T>(x: T, xs: seq<T>, key: T -> int)
    requires SortedBy(xs, key)
    ensures SortedBy(Insert(x, xs, key), key)
  {
    if xs != [] && key(x) > key(xs[0]) {
      var tail := xs[1..];
      InsertSorted(x, tail, key);
      var ins := Insert(x, tail, key);
      var r := [xs[0]] + ins;
      forall j | 0 <= j < |ins| ensures key(xs[0]) <= key(ins[j]) {
        InsertMembers(x, tail, key, j);
      }
      forall i, j | 0 <= i < j < |r| ensures key(r[i]) <= key(r[j]) {
        assert r[j] == ins[j - 1];
        if i > 0 {
          assert r[i] == ins[i - 1];
        }
      }
    }
  }

  /** Inserting `x` puts it ahead of every item with the same key. */
  lemma {:induction false} InsertWithKey<T>(x: T, xs: seq<T>, key: T -> int, k: int)
    ensures WithKey(Insert(x, xs, key), key, k) == (if key(x) == k then [x] else []) + WithKey(xs, key, k)
  {
    var r := Insert(x, xs, key);
    if xs == [] || key(x) <= key(xs[0]) {
      assert r[1..] == xs;
    } else {
      InsertWithKey(x, xs[1..], key, k);
      assert r[1..] == Insert(x, xs[1..], key);
      assert xs[1..] == xs[1..];
    }
  }

  /** The sort is ordered and a permutation. */
  lemma {:induction false} SortSortsAndPermutes<T>(xs: seq<T>, key: T -> int)
    ensures SortedBy(SortBy(xs, key), key)
    ensures multiset(SortBy(xs, key)) == multiset(xs)
  {
    if xs != [] {
      SortSortsAndPermutes(xs[1..], key);
      InsertSorted(xs[0], SortBy(xs[1..], key), key);
      InsertPermutes(xs[0], SortBy(xs[1..], key), key);
      assert xs == [xs[0]] + xs[1..];
    }
  }

  /** The sort is stable: the items with any one key come out in the order they went in. */
  lemma {:induction false} SortStable<T>(xs: seq<T>, key: T -> int, k: int)
    ensures WithKey(SortBy(xs, key), key, k) == WithKey(xs, key, k)
  {
    if xs != [] {
      SortStable(xs[1..], key, k);
      InsertWithKey(xs[0], SortBy(xs[1..], key), key, k);
    }
  }

  /** A list already in order is left as it is. */
  lemma {:induction false} SortKeepsSorted<T>(xs: seq<T>, key: T -> int)
    requires SortedBy(xs, key)
    ensures SortBy(xs, key) == xs
  {
    if xs != [] {
      var tail := xs[1..];
      assert SortedBy(tail, key) by {
        forall i, j | 0 <= i < j < |tail| ensures key(tail[i]) <= key(tail[j]) {
          assert tail[i] == xs[i + 1] && tail[j] == xs[j + 1];
        }
      }
      SortKeepsSorted(tail, key);
      if tail != [] {
        assert key(xs[0]) <= key(xs[1]);
      }
    }
  }

  function BattingOrder(b: BattingInnings): int { b.order }

  function BowlingOrder(w: BowlingInnings): int { w.order }

  // ---------------------------------------------------------------------------
  // Tables and printing

  /** What a printed table holds: whether it has a header row, the field names, the
      alignment set per field, and its rows with a divider flag each. */
  datatype Printed = Printed(header: bool, fieldNames: seq<string>, align: map<string, char>,
                             rows: seq<seq<Cell>>, dividers: seq<bool>)

  /** A `PrettyTable` being filled in. */
  class Table {
    var header: bool
    var fieldNames: seq<string>
    var align: map<string, char>
    var rows: seq<seq<Cell>>
    var dividers: seq<bool>

    /** A new table has a header row and nothing else. */
    constructor ()
      ensures header && fieldNames == [] && align == map[] && rows == [] && dividers == []
    {
      header := true;
      fieldNames := [];
      align := map[];
      rows := [];
      dividers := [];
    }

    function Contents(): Printed
      reads this
    {
      Printed(header, fieldNames, align, rows, dividers)
    }

    method SetHeader(h: bool)
      modifies this
      ensures Contents() == old(Contents()).(header := h)
    {
      header := h;
    }

    method SetFieldNames(names: seq<string>)
      modifies this
      ensures Contents() == old(Contents()).(fieldNames := names)
    {
      fieldNames := names;
    }

    /** `table.align[name] = "l"`. */
    method AlignLeft(name: string)
      modifies this
      ensures Contents() == old(Contents()).(align := old(align)[name := 'l'])
    {
      align := align[name := 'l'];
    }

    /** `table.add_row(row, divider=...)`. */
    method AddRow(row: seq<Cell>, divider: bool)
      modifies this
      ensures Contents() == old(Contents()).(rows := old(rows) + [row], dividers := old(dividers) + [divider])
    {
      rows := rows + [row];
      dividers := dividers + [divider];
    }
  }

  /** The terminal, as the list of tables printed so far. */
  class Screen {
    var printed: seq<Printed>

    constructor ()
      ensures printed == []
    {
      printed := [];
    }

    /** `print(table)`. */
    method Print(t: Table)
      modifies this
      ensures printed == old(printed) + [t.Contents()]
    {
      printed := printed + [t.Contents()];
    }
  }

  /** The table `print_headerless_table` prints: no header row, one single-cell row per
      entry, each entry's flag as its divider. */
  function Headerless(entries: seq<(string, bool)>): (p: Printed)
    ensures !p.header && p.fieldNames == [] && p.align == map[]
    ensures |p.rows| == |p.dividers| == |entries|
    ensures forall i :: 0 <= i < |entries| ==> p.rows[i] == [Text(entries[i].0)] && p.dividers[i] == entries[i].1
  {
    Printed(false, [], map[],
            seq(|entries|, i requires 0 <= i < |entries| => [Text(entries[i].0)]),
            seq(|entries|, i requires 0 <= i < |entries| => entries[i].1))
  }

  /** One more entry adds one more row and divider at the end. */
  lemma HeaderlessSnoc(entries: seq<(string, bool)>, e: (string, bool))
    ensures var p := Headerless(entries);
            Headerless(entries + [e]) == p.(rows := p.rows + [[Text(e.0)]], dividers := p.dividers + [e.1])
  {
    var p := Headerless(entries);
    var q := Headerless(entries + [e]);
    assert q.rows == p.rows + [[Text(e.0)]];
    assert q.dividers == p.dividers + [e.1];
  }

  /** `print_headerless_table`. */
  method PrintHeaderless(screen: Screen, entries: seq<(string, bool)>)
    modifies screen
    ensures screen.printed == old(screen.printed) + [Headerless(entries)]
  {
    var t := new Table();
    t.SetHeader(false);
    for i := 0 to |entries|
      invariant t.Contents() == Headerless(entries[..i])
      invariant screen.printed == old(screen.printed)
    {
      t.AddRow([Text(entries[i].0)], entries[i].1);
      HeaderlessSnoc(entries[..i], entries[i]);
      assert entries[..i + 1] == entries[..i] + [entries[i]];
    }
    assert entries[..|entries|] == entries;
    screen.Print(t);
  }

  /** Every name in `names` aligned left, later names last. */
  function AlignAll(align: map<string, char>, names: seq<string>): (r: map<string, char>)
    ensures forall n :: n in names ==> n in r && r[n] == 'l'
    ensures forall n :: n !in names ==> (n in r <==> n in align) && (n in align ==> r[n] == align[n])
  {
    if names == [] then align else AlignAll(align, names[..|names| - 1])[names[|names| - 1] := 'l']
  }

  /** `n` divider flags, all off. */
  function NoDividers(n: nat): (r: seq<bool>)
    ensures |r| == n && forall i :: 0 <= i < n ==> !r[i]
  {
    if n == 0 then [] else NoDividers(n - 1) + [false]
  }

  /** The rows of the items, in the order given. */
  function RowsOf<T>(items: seq<T>, rowOf: T -> seq<Cell>): (r: seq<seq<Cell>>)
    ensures |r| == |items|
    ensures forall i :: 0 <= i < |items| ==> r[i] == rowOf(items[i])
  {
    seq(|items|, i requires 0 <= i < |items| => rowOf(items[i]))
  }

  /** The table `_print_player_innings_table` prints: the field names, the named fields
      aligned left, and one row per item in the stable order of the key, no dividers. */
  function PlayerInningsTable<T>(fieldNames: seq<string>, items: seq<T>, key: T -> int,
                                 rowOf: T -> seq<Cell>, leftAligned: seq<string>): Printed
  {
    var sorted := SortBy(items, key);
    Printed(true, fieldNames, AlignAll(map[], leftAligned), RowsOf(sorted, rowOf), NoDividers(|sorted|))
  }

  /** The printed rows are those of the items, ordered by key, stable, and complete:
      every item has its row, and the items with one key keep their order. */
  lemma PlayerInningsTableRows<T>(fieldNames: seq<string>, items: seq<T>, key: T -> int,
                                  rowOf: T -> seq<Cell>, leftAligned: seq<string>, k: int)
    ensures var p := PlayerInningsTable(fieldNames, items, key, rowOf, leftAligned);
            exists sorted: seq<T> ::
              && SortedBy(sorted, key)
              && multiset(sorted) == multiset(items)
              && WithKey(sorted, key, k) == WithKey(items, key, k)
              && p.rows == RowsOf(sorted, rowOf)
  {
    var sorted := SortBy(items, key);
    SortSortsAndPermutes(items, key);
    SortStable(items, key, k);
  }

  /** `_print_player_innings_table`. */
  method PrintPlayerInnings<T>(screen: Screen, fieldNames: seq<string>, items: seq<T>, key: T -> int,
                               rowOf: T -> seq<Cell>, leftAligned: seq<string>)
    modifies screen
    ensures screen.printed == old(screen.printed) + [PlayerInningsTable(fieldNames, items, key, rowOf, leftAligned)]
  {
    var t := new Table();
    t.SetFieldNames(fieldNames);
    for i := 0 to |leftAligned|
      invariant t.Contents() == Printed(true, fieldNames, AlignAll(map[], leftAligned[..i]), [], [])
      invariant screen.printed == old(screen.printed)
    {
      t.AlignLeft(leftAligned[i]);
      assert leftAligned[..i + 1][..i] == leftAligned[..i];
    }
    assert leftAligned[..|leftAligned|] == leftAligned;
    var sorted := SortBy(items, key);
    for i := 0 to |sorted|
      invariant t.Contents() == Printed(true, fieldNames, AlignAll(map[], leftAligned),
                                        RowsOf(sorted[..i], rowOf), NoDividers(i))
      invariant screen.printed == old(screen.printed)
    {
      t.AddRow(rowOf(sorted[i]), false);
      assert RowsOf(sorted[..i + 1], rowOf) == RowsOf(sorted[..i], rowOf) + [rowOf(sorted[i])];
    }
    assert sorted[..|sorted|] == sorted;
    screen.Print(t);
  }

  const BATTING_FIELDS: seq<string> := ["", "Dismissal", "Runs", "Balls", "4s", "6s"]
  const BATTING_LEFT: seq<string> := ["", "Dismissal"]
  const BOWLING_FIELDS: seq<string> := ["", "Overs", "Maidens", "Runs", "Wickets"]
  const BOWLING_LEFT: seq<string> := [""]

  /** The three tables `Innings.to_table` prints: the heading, the batters, the bowlers. */
  function InningsTables(inn: Innings): (r: seq<Printed>)
    ensures |r| == 3
  {
    [Headerless([(InningsHeading(inn), false)]),
     PlayerInningsTable(BATTING_FIELDS, inn.batters, BattingOrder, BattingTableRow, BATTING_LEFT),
     PlayerInningsTable(BOWLING_FIELDS, inn.bowlers, BowlingOrder, BowlingRow, BOWLING_LEFT)]
  }

  /** `Innings.to_table`. */
  method PrintInnings(screen: Screen, inn: Innings)
    modifies screen
    ensures screen.printed == old(screen.printed) + InningsTables(inn)
  {
    PrintHeaderless(screen, [(InningsHeading(inn), false)]);
    PrintPlayerInnings(screen, BATTING_FIELDS, inn.batters, BattingOrder, BattingTableRow, BATTING_LEFT);
    PrintPlayerInnings(screen, BOWLING_FIELDS, inn.bowlers, BowlingOrder, BowlingRow, BOWLING_LEFT);
  }

  /** The tables of the items, one group of three per item, in list order. */
  function Triples<X(!new)>(xs: seq<X>, f: X -> seq<Printed>): (r: seq<Printed>)
    requires forall x :: |f(x)| == 3
    ensures |r| == 3 * |xs|
  {
    if xs == [] then [] else Triples(xs[..|xs| - 1], f) + f(xs[|xs| - 1])
  }

  /** Item `i`'s tables are tables `3i`, `3i + 1` and `3i + 2`. */
  lemma {:induction false} TriplesAt<X(!new)>(xs: seq<X>, f: X -> seq<Printed>, i: nat)
    requires forall x :: |f(x)| == 3
    requires i < |xs|
    ensures var r := Triples(xs, f);
            r[3 * i] == f(xs[i])[0] && r[3 * i + 1] == f(xs[i])[1] && r[3 * i + 2] == f(xs[i])[2]
  {
    var init := xs[..|xs| - 1];
    if i < |xs| - 1 {
      TriplesAt(init, f, i);
      assert init[i] == xs[i];
    }
  }

  /** The tables of the innings, in list order. */
  function AllInningsTables(innings: seq<Innings>): (r: seq<Printed>)
    ensures |r| == 3 * |innings|
  {
    Triples(innings, InningsTables)
  }

  /** Printing one more innings adds its three tables at the end. */
  lemma AllInningsTablesSnoc(innings: seq<Innings>, inn: Innings)
    ensures AllInningsTables(innings + [inn]) == AllInningsTables(innings) + InningsTables(inn)
  {
    assert (innings + [inn])[..|innings|] == innings;
  }

  /** The tables `Scorecard.to_table` prints: title (with a divider) and summary, then
      each innings in turn. */
  function ScorecardTables(sc: Scorecard): seq<Printed>
  {
    [Headerless([(sc.title, true), (sc.summary, false)])] + AllInningsTables(sc.innings)
  }

  /** An innings prints its heading, a batting table with one row per batter and a
      bowling table with one row per bowler. */
  lemma InningsTablesShape(inn: Innings)
    ensures var t := InningsTables(inn);
            && t[0].rows == [[Text(InningsHeading(inn))]] && !t[0].header
            && t[1].fieldNames == BATTING_FIELDS && |t[1].rows| == |inn.batters|
            && t[2].fieldNames == BOWLING_FIELDS && |t[2].rows| == |inn.bowlers|
  {
    var h := Headerless([(InningsHeading(inn), false)]);
    assert h.rows == [[Text(InningsHeading(inn))]];
  }

  /** The scorecard's first table holds the title, with a divider under it, and the
      summary. */
  lemma ScorecardHeadingShape(sc: Scorecard)
    ensures var t := ScorecardTables(sc)[0];
            && t.rows == [[Text(sc.title)], [Text(sc.summary)]] && t.dividers == [true, false] && !t.header
  {
    var h := Headerless([(sc.title, true), (sc.summary, false)]);
    assert h.rows == [[Text(sc.title)], [Text(sc.summary)]];
    assert h.dividers == [true, false];
  }

  /** The scorecard prints one heading table, then each innings' three tables in list
      order: tables `3i + 1` to `3i + 3` are innings `i`'s. */
  lemma ScorecardTablesOrder(sc: Scorecard, i: nat)
    requires i < |sc.innings|
    ensures var ts := ScorecardTables(sc);
            var t := InningsTables(sc.innings[i]);
            && |ts| == 1 + 3 * |sc.innings|
            && ts[3 * i + 1] == t[0] && ts[3 * i + 2] == t[1] && ts[3 * i + 3] == t[2]
  {
    HeadedTriplesAt(Headerless([(sc.title, true), (sc.summary, false)]), sc.innings, InningsTables, i);
  }

  /** With one table in front, item `i`'s tables are tables `3i + 1` to `3i + 3`. */
  lemma HeadedTriplesAt<X(!new)>(head: Printed, xs: seq<X>, f: X -> seq<Printed>, i: nat)
    requires forall x :: |f(x)| == 3
    requires i < |xs|
    ensures var r := [head] + Triples(xs, f);
            r[3 * i + 1] == f(xs[i])[0] && r[3 * i + 2] == f(xs[i])[1] && r[3 * i + 3] == f(xs[i])[2]
  {
    TriplesAt(xs, f, i);
  }

  /** `Scorecard.to_table`. */
  method PrintScorecard(screen: Screen, sc: Scorecard)
    modifies screen
    ensures screen.printed == old(screen.printed) + ScorecardTables(sc)
  {
    PrintHeaderless(screen, [(sc.title, true), (sc.summary, false)]);
    ghost var head := screen.printed;
    for i := 0 to |sc.innings|
      invariant screen.printed == head + AllInningsTables(sc.innings[..i])
    {
      PrintInnings(screen, sc.innings[i]);
      AfterMoreInnings(head, sc.innings, i);
    }
    assert sc.innings[..|sc.innings|] == sc.innings;
  }

  /** Printing innings `i` after the tables of the innings before it leaves the tables
      of the innings up to and including it. */
  lemma AfterMoreInnings(head: seq<Printed>, innings: seq<Innings>, i: nat)
    requires i < |innings|
    ensures head + AllInningsTables(innings[..i]) + InningsTables(innings[i]) == head + AllInningsTables(innings[..i + 1])
  {
    var before, inn := innings[..i], innings[i];
    assert innings[..i + 1] == before + [inn];
    AllInningsTablesSnoc(before, inn);
    var x, y := AllInningsTables(before), InningsTables(inn);
    assert AllInningsTables(innings[..i + 1]) == x + y;
    assert head + x + y == head + (x + y);
  }
}
