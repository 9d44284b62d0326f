/** Incremental SQL reads, `src.db.bigquery` and `src.db.clickhouse`: each run asks
    for the rows past the last value it read, in order of the column, and stops
    at a cap. */
module IncrementalRead {
  import opened Common

  /** `value` is the incremental column's; nothing is null. */
  datatype Row = Row(id: int, value: Option<int>)

  datatype Dialect = BigQuery | ClickHouse

  datatype Settings = Settings(dialect: Dialect, start: Option<int>)

  // -------------------------------------------------------------------------
  // What a statement selects
  // -------------------------------------------------------------------------

  /** Whether a row is past where the run starts. Without a saved position or a
      `start`, BigQuery's statement leaves nulls out and ClickHouse's does not. */
  predicate Selected(settings: Settings, saved: Option<int>, row: Row) {
    match (saved, settings.start)
    case (Some(v), _) => row.value.Some? && row.value.value > v
    case (None, Some(v)) => row.value.Some? && row.value.value > v
    case (None, None) => settings.dialect.ClickHouse? || row.value.Some?
  }

  function Select(settings: Settings, saved: Option<int>, table: seq<Row>): seq<Row> {
    if table == [] then []
    else
      var n := |table| - 1;
      Select(settings, saved, table[..n]) + if Selected(settings, saved, table[n]) then [table[n]] else []
  }

  /** `ORDER BY` the column; nulls last. */
  predicate NotAfter(a: Row, b: Row) {
    b.value.None? || (a.value.Some? && a.value.value <= b.value.value)
  }

  predicate InOrder(rows: seq<Row>) {
    forall i, j :: 0 <= i < j < |rows| ==> NotAfter(rows[i], rows[j])
  }

  /** An answer without a limit: the selected rows, in some order the column
      allows. Rows with equal values may come in any. */
  predicate Answers(settings: Settings, saved: Option<int>, table: seq<Row>, rows: seq<Row>) {
    multiset(rows) == multiset(Select(settings, saved, table)) && InOrder(rows)
  }

  /** How many of `n` rows a run takes; its cap may differ from run to run. */
  function Capped(max: Option<nat>, n: nat): (k: nat)
    ensures k <= n
  {
    if max.Some? then Min(n, max.value) else n
  }

  /** A run: what it wrote of an answer, and the position it hands on. Without one
      the next run starts where this one did. */
  ghost predicate Ran(settings: Settings, max: Option<nat>, saved: Option<int>, table: seq<Row>, rows: seq<Row>, written: seq<Row>, after: Option<int>) {
    && Answers(settings, saved, table, rows)
    && written == rows[..Capped(max, |rows|)]
    && after == After(saved, written)
  }

  /** The last row's value. */
  function Highest(written: seq<Row>): Option<int> {
    if written == [] then None else written[|written| - 1].value
  }

  function After(saved: Option<int>, written: seq<Row>): Option<int> {
    if Highest(written).Some? then Highest(written) else saved
  }

  // -------------------------------------------------------------------------
  // The two readers
  // -------------------------------------------------------------------------

  function Flat(pages: seq<seq<Row>>): seq<Row> {
    if pages == [] then [] else pages[0] + Flat(pages[1..])
  }

  /** The rows of the first pages and some of the next are first of all. */
  lemma {:induction false} FlatBegins(pages: seq<seq<Row>>, p: nat, k: nat)
    requires p < |pages| && k <= |pages[p]|
    ensures Flat(pages[..p]) + pages[p][..k] <= Flat(pages)
    ensures Flat(pages[..p + 1]) == Flat(pages[..p]) + pages[p]
  {
    if p == 0 {
      assert pages[..1][1..] == [];
    } else {
      assert pages[..p][1..] == pages[1..][..p - 1] && pages[..p + 1][1..] == pages[1..][..p];
      FlatBegins(pages[1..], p - 1, k);
      Assoc(pages[0], Flat(pages[1..][..p - 1]), pages[p][..k]);
      Assoc(pages[0], Flat(pages[1..][..p - 1]), pages[p]);
    }
  }

  /** Where rows go. */
  class Flow {
    ghost var refused: bool   // a row could not be decoded, or written

    constructor ()
      ensures !refused
    {
      refused := false;
    }

    method Write(row: Row) returns (ok: bool)
      modifies this
      ensures refused == (old(refused) || !ok)
    {
      ok := *;
      refused := refused || !ok;
    }
  }

  /** The rows of one page, until the cap. */
  method ReadPage(flow: Flow, max: Option<nat>, page: seq<Row>, written: seq<Row>, highest: Option<int>)
    returns (failed: bool, k: nat, more: seq<Row>, last: Option<int>)
    requires highest == Highest(written) && (max.Some? ==> |written| <= max.value)
    modifies flow
    ensures flow.refused == (old(flow.refused) || failed)
    ensures k <= |page| && more == written + page[..k] && (max.Some? ==> |more| <= max.value)
    ensures !failed ==> last == Highest(more) && (k == |page| || max == Some(|more|))
  {
    k, more, last, failed := 0, written, highest, false;
    while k < |page| && max != Some(|more|)
      invariant k <= |page| && more == written + page[..k] && (max.Some? ==> |more| <= max.value)
      invariant last == Highest(more) && flow.refused == old(flow.refused)
    {
      last := page[k].value;
      var ok := flow.Write(page[k]);
      if !ok { return true, k, more, last; }
      Slices(page, 0, k);
      more, k := more + [page[k]], k + 1;
    }
  }

  /** Page by page, row by row, until the cap. */
  method ReadPages(flow: Flow, max: Option<nat>, saved: Option<int>, pages: seq<seq<Row>>) returns (failed: bool, written: seq<Row>, after: Option<int>)
    modifies flow
    ensures flow.refused == (old(flow.refused) || failed)
    ensures !failed ==> written == Flat(pages)[..Capped(max, |Flat(pages)|)] && after == After(saved, written)
  {
    var highest: Option<int>, k;
    written, highest, failed, after := [], None, false, saved;
    for p := 0 to |pages|
      invariant written == Flat(pages[..p]) && highest == Highest(written) && (max.Some? ==> |written| <= max.value)
      invariant flow.refused == old(flow.refused)
    {
      failed, k, written, highest := ReadPage(flow, max, pages[p], written, highest);
      if failed { return; }
      FlatBegins(pages, p, k);
      if max == Some(|written|) {
        after := if highest.Some? then highest else saved;
        return;
      }
      assert pages[p][..k] == pages[p];
    }
    assert pages[..|pages|] == pages;
    failed, after := false, if highest.Some? then highest else saved;
  }

  /** ClickHouse stops at the cap itself, and every line is a row. */
  method ReadLines(flow: Flow, saved: Option<int>, lines: seq<Row>) returns (failed: bool, written: seq<Row>, after: Option<int>)
    modifies flow
    ensures flow.refused == (old(flow.refused) || failed)
    ensures !failed ==> written == lines && after == After(saved, lines)
  {
    var k, highest;
    failed, k, written, highest := ReadPage(flow, None, lines, [], None);
    assert lines[..|lines|] == lines;
    after := if highest.Some? then highest else saved;
  }

  class Database {
    var table: seq<Row>
    ghost var refused: bool   // a query was not answered

    constructor (table: seq<Row>)
      ensures this.table == table && !refused
    {
      this.table, refused := table, false;
    }

    /** Some answer, in pages. */
    method Query(settings: Settings, saved: Option<int>) returns (r: Option<seq<seq<Row>>>)
      modifies this`refused
      ensures refused == (old(refused) || r.None?)
      ensures r.Some? ==> Answers(settings, saved, table, Flat(r.value))
    {
      var pages: seq<seq<Row>> := *;
      r := if Answers(settings, saved, table, Flat(pages)) then Some(pages) else None;
      refused := refused || r.None?;
    }
  }

  /** One run of either reader. */
  method Run(db: Database, flow: Flow, settings: Settings, max: Option<nat>, saved: Option<int>)
    returns (ok: bool, written: seq<Row>, after: Option<int>, rows: seq<Row>)
    requires !db.refused && !flow.refused
    modifies db`refused, flow
    ensures ok <==> !db.refused && !flow.refused
    ensures ok ==> Ran(settings, max, saved, db.table, rows, written, after)
  {
    ok, written, after, rows := false, [], saved, [];
    var pages := db.Query(settings, saved);
    if pages.None? { return; }
    rows := Flat(pages.value);
    var failed;
    match settings.dialect {
      case BigQuery =>
        failed, written, after := ReadPages(flow, max, saved, pages.value);
      case ClickHouse =>
        var all := Flat(pages.value);
        failed, written, after := ReadLines(flow, saved, all[..Capped(max, |all|)]);
    }
    ok := !failed;
  }

  // -------------------------------------------------------------------------
  // Values that only grow: every row, once, in order
  // -------------------------------------------------------------------------

  /** No nulls and no value twice, each row's larger than those before it. */
  ghost predicate Growing(table: seq<Row>) {
    && (forall i :: 0 <= i < |table| ==> table[i].value.Some?)
    && (forall i, j :: 0 <= i < j < |table| ==> table[i].value.value < table[j].value.value)
  }

  lemma SameLast(a: seq<Row>, b: seq<Row>)
    requires a != [] && b != [] && Growing(a) && multiset(a) == multiset(b) && InOrder(b)
    ensures a[|a| - 1] == b[|b| - 1]
  {
    var x, y := a[|a| - 1], b[|b| - 1];
    assert x in multiset(a) && y in multiset(b);
    var i :| 0 <= i < |b| && b[i] == x;
    var j :| 0 <= j < |a| && a[j] == y;
    assert i < |b| - 1 ==> NotAfter(x, y);
  }

  lemma SameParts(a: seq<Row>, b: seq<Row>)
    requires a != [] && b != [] && a[..|a| - 1] == b[..|b| - 1] && a[|a| - 1] == b[|b| - 1]
    ensures a == b
  {
    assert a == a[..|a| - 1] + [a[|a| - 1]] && b == b[..|b| - 1] + [b[|b| - 1]];
  }

  lemma DropLast(a: seq<Row>)
    requires a != []
    ensures multiset(a[..|a| - 1]) == multiset(a) - multiset{a[|a| - 1]}
  {
    assert a == a[..|a| - 1] + [a[|a| - 1]];
  }

  /** An answer made of such rows can only be in their order. */
  lemma {:induction false} OneOrder(a: seq<Row>, b: seq<Row>)
    requires Growing(a) && multiset(a) == multiset(b) && InOrder(b)
    ensures a == b
  {
    assert |multiset(a)| == |a| && |multiset(b)| == |b|;
    if a != [] {
      SameLast(a, b);
      DropLast(a);
      DropLast(b);
      OneOrder(a[..|a| - 1], b[..|b| - 1]);
      SameParts(a, b);
    }
  }

  lemma {:induction false} SelectFrom(settings: Settings, saved: Option<int>, table: seq<Row>)
    ensures forall row :: row in Select(settings, saved, table) ==> row in table && Selected(settings, saved, row)
  {
    if table != [] { SelectFrom(settings, saved, table[..|table| - 1]); }
  }

  lemma {:induction false} SelectGrows(settings: Settings, saved: Option<int>, table: seq<Row>)
    requires Growing(table)
    ensures Growing(Select(settings, saved, table))
  {
    if table != [] {
      var init, row := table[..|table| - 1], table[|table| - 1];
      SelectGrows(settings, saved, init);
      SelectFrom(settings, saved, init);
      var before := Select(settings, saved, init);
      forall i | 0 <= i < |before| ensures before[i].value.value < row.value.value {
        assert before[i] in init;
      }
    }
  }

  lemma {:induction false} SelectExtends(settings: Settings, saved: Option<int>, table: seq<Row>, more: seq<Row>)
    requires table <= more
    ensures Select(settings, saved, table) <= Select(settings, saved, more)
    decreases |more|
  {
    if |table| < |more| {
      SelectExtends(settings, saved, table, more[..|more| - 1]);
    } else {
      assert table == more;
    }
  }

  lemma {:induction false} NoneAbove(settings: Settings, v: int, table: seq<Row>)
    requires forall row :: row in table ==> row.value.Some? && row.value.value <= v
    ensures Select(settings, Some(v), table) == []
  {
    if table != [] { NoneAbove(settings, v, table[..|table| - 1]); }
  }

  /** What is past the last of the first `n` rows is the rest of them. */
  lemma {:induction false} SelectRest(settings: Settings, table: seq<Row>, n: nat)
    requires Growing(table) && 0 < n <= |Select(settings, None, table)|
    ensures Select(settings, None, table)[n - 1].value.Some?
    ensures Select(settings, Select(settings, None, table)[n - 1].value, table) == Select(settings, None, table)[n..]
  {
    var init, n0 := table[..|table| - 1], |Select(settings, None, table[..|table| - 1])|;
    if n <= n0 {
      SelectRest(settings, init, n);
      RestGrows(settings, table, n);
    } else {
      LastIsAbove(settings, table);
    }
  }

  /** One row more, larger than all before. */
  lemma {:induction false} RestGrows(settings: Settings, table: seq<Row>, n: nat)
    requires Growing(table) && table != [] && 0 < n <= |Select(settings, None, table[..|table| - 1])|
    requires var past := Select(settings, None, table[..|table| - 1]);
      past[n - 1].value.Some? && Select(settings, past[n - 1].value, table[..|table| - 1]) == past[n..]
    ensures Select(settings, None, table)[n - 1].value.Some?
    ensures Select(settings, Select(settings, None, table)[n - 1].value, table) == Select(settings, None, table)[n..]
  {
    var init, row := table[..|table| - 1], table[|table| - 1];
    var past := Select(settings, None, init);
    SelectFrom(settings, None, init);
    assert past[n - 1] in init;
    assert Select(settings, None, table)[n - 1] == past[n - 1];
  }

  /** Nothing is past the last row that is selected. */
  lemma {:induction false} LastIsAbove(settings: Settings, table: seq<Row>)
    requires Growing(table) && table != [] && Selected(settings, None, table[|table| - 1])
    ensures Select(settings, table[|table| - 1].value, table) == []
  {
    NoneAbove(settings, table[|table| - 1].value.value, table);
  }

  /** `rows` are those of the successful runs, one after another. */
  datatype History = History(table: seq<Row>, saved: Option<int>, rows: seq<Row>)

  /** New rows, with values larger than any there is. */
  ghost predicate Inserts(h: History, k: History) {
    h.table <= k.table && Growing(k.table) && k == h.(table := k.table)
  }

  ghost predicate Succeeds(settings: Settings, max: Option<nat>, h: History, k: History, answer: seq<Row>, written: seq<Row>) {
    Ran(settings, max, h.saved, h.table, answer, written, k.saved) && k == History(h.table, k.saved, h.rows + written)
  }

  ghost predicate Step(settings: Settings, h: History, k: History) {
    Inserts(h, k) || exists max, answer, written :: Succeeds(settings, max, h, k, answer, written)
  }

  ghost predicate Life(settings: Settings, life: seq<History>) {
    && |life| > 0 && life[0] == History([], None, [])
    && forall i :: 0 < i < |life| ==> Step(settings, life[i - 1], life[i])
  }

  /** Of all the rows past `start`, the first so many were delivered: each once,
      in order, up to the saved value. */
  ghost predicate InFull(settings: Settings, h: History) {
    Growing(h.table) && h.rows <= Select(settings, None, h.table) && h.saved == Highest(h.rows)
  }

  lemma {:induction false} AnswerIsRest(settings: Settings, h: History, answer: seq<Row>)
    requires InFull(settings, h) && Answers(settings, h.saved, h.table, answer)
    ensures answer == Select(settings, None, h.table)[|h.rows|..]
  {
    var past, n := Select(settings, None, h.table), |h.rows|;
    if n > 0 {
      SelectRest(settings, h.table, n);
    } else {
      assert past[0..] == past;
    }
    SelectGrows(settings, h.saved, h.table);
    OneOrder(Select(settings, h.saved, h.table), answer);
  }

  /** Taking some more of a sequence of such rows. */
  lemma TakesMore(past: seq<Row>, rows: seq<Row>, k: nat)
    requires Growing(past) && rows <= past && k <= |past| - |rows|
    ensures var written := past[|rows|..][..k];
      rows + written <= past && Highest(rows + written) == After(Highest(rows), written)
  {
    var written := past[|rows|..][..k];
    assert rows + written == past[..|rows| + k];
    if k > 0 { assert (rows + written)[|rows| + k - 1] == past[|rows| + k - 1]; }
    if k == 0 { assert rows + written == rows; }
  }

  lemma {:induction false} RunReads(settings: Settings, max: Option<nat>, h: History, k: History, answer: seq<Row>, written: seq<Row>)
    requires InFull(settings, h) && Succeeds(settings, max, h, k, answer, written)
    ensures InFull(settings, k)
    ensures |written| == Capped(max, |Select(settings, None, h.table)| - |h.rows|)
  {
    AnswerIsRest(settings, h, answer);
    SelectGrows(settings, None, h.table);
    TakesMore(Select(settings, None, h.table), h.rows, |written|);
  }

  lemma StepKeeps(settings: Settings, h: History, k: History)
    requires InFull(settings, h) && Step(settings, h, k)
    ensures InFull(settings, k)
  {
    if Inserts(h, k) {
      SelectExtends(settings, None, h.table, k.table);
    } else {
      var max, answer, written :| Succeeds(settings, max, h, k, answer, written);
      RunReads(settings, max, h, k, answer, written);
    }
  }

  /** While new rows have larger values than those there are, with no nulls and no
      ties, any runs, each with a cap of its own, deliver the rows past `start`
      exactly once and in order. */
  lemma {:induction false} DeliveredOnce(settings: Settings, life: seq<History>, i: nat)
    requires Life(settings, life) && i < |life|
    ensures InFull(settings, life[i])
  {
    if i > 0 {
      DeliveredOnce(settings, life, i - 1);
      StepKeeps(settings, life[i - 1], life[i]);
    }
  }

  /** And a run the cap did not stop has delivered them all. */
  lemma {:induction false} CaughtUp(settings: Settings, max: Option<nat>, life: seq<History>, i: nat, answer: seq<Row>, written: seq<Row>)
    requires Life(settings, life) && 0 < i < |life| && Succeeds(settings, max, life[i - 1], life[i], answer, written)
    requires max.Some? ==> |written| < max.value
    ensures life[i].rows == Select(settings, None, life[i].table)
  {
    DeliveredOnce(settings, life, i - 1);
    UncappedReads(settings, max, life[i - 1], life[i], answer, written);
  }

  lemma {:induction false} UncappedReads(settings: Settings, max: Option<nat>, h: History, k: History, answer: seq<Row>, written: seq<Row>)
    requires InFull(settings, h) && Succeeds(settings, max, h, k, answer, written)
    requires max.Some? ==> |written| < max.value
    ensures k.rows == Select(settings, None, k.table)
  {
    RunReads(settings, max, h, k, answer, written);
    var past := Select(settings, None, k.table);
    assert |k.rows| == |past| && k.rows == past[..|k.rows|];
  }

  /** What a node without a position is to read: the rows with values past `start`,
      or all that have one. */
  predicate Wanted(settings: Settings, row: Row) {
    row.value.Some? && (settings.start.Some? ==> row.value.value > settings.start.value)
  }

  lemma {:induction false} SelectTwo(settings: Settings, saved: Option<int>, a: Row, b: Row)
    ensures Select(settings, saved, [a, b]) ==
      (if Selected(settings, saved, a) then [a] else []) + if Selected(settings, saved, b) then [b] else []
  {
    assert [a, b][..1] == [a] && [a][..0] == [];
    assert Select(settings, saved, [a]) == if Selected(settings, saved, a) then [a] else [];
  }

  lemma TwoRead(settings: Settings, a: int, b: int)
    requires settings.start.None? && a < b
    ensures var x, y := Row(1, Some(a)), Row(2, Some(b));
      Ran(settings, Some(1), None, [x, y], [x, y], [x], Some(a)) && Ran(settings, Some(1), Some(a), [x, y], [y], [y], Some(b))
  {
    var x, y := Row(1, Some(a)), Row(2, Some(b));
    SelectTwo(settings, None, x, y);
    SelectTwo(settings, Some(a), x, y);
    ReadsFirst(settings, None, [x, y], [x, y]);
    ReadsFirst(settings, Some(a), [x, y], [y]);
  }

  lemma ReadsFirst(settings: Settings, saved: Option<int>, table: seq<Row>, rows: seq<Row>)
    requires Answers(settings, saved, table, rows) && rows != [] && rows[0].value.Some?
    ensures Ran(settings, Some(1), saved, table, rows, [rows[0]], rows[0].value)
  {
    assert rows[..1] == [rows[0]] && Highest([rows[0]]) == rows[0].value;
  }

  lemma LifeOfFour(settings: Settings, h: History, k: History, l: History, m: History)
    requires h == History([], None, []) && Step(settings, h, k) && Step(settings, k, l) && Step(settings, l, m)
    ensures Life(settings, [h, k, l, m])
  {
  }

  lemma Writes(settings: Settings, h: History, k: History, answer: seq<Row>, row: Row)
    requires Ran(settings, Some(1), h.saved, h.table, answer, [row], k.saved) && k.table == h.table && k.rows == h.rows + [row]
    ensures Step(settings, h, k)
  {
    assert Succeeds(settings, Some(1), h, k, answer, [row]);
  }

  /** A life, for one: two rows come in, and two runs deliver one each. */
  lemma RowByRow(settings: Settings, a: int, b: int) returns (life: seq<History>)
    requires settings.start.None? && a < b
    ensures Life(settings, life) && |life| == 4 && life[2].rows == [Row(1, Some(a))]
    ensures life[3].rows == life[3].table == [Row(1, Some(a)), Row(2, Some(b))]
  {
    var x, y := Row(1, Some(a)), Row(2, Some(b));
    var h, k, l, m := History([], None, []), History([x, y], None, []), History([x, y], Some(a), [x]), History([x, y], Some(b), [x, y]);
    TwoRead(settings, a, b);
    assert Inserts(h, k);
    Writes(settings, k, l, [x, y], x);
    Writes(settings, l, m, [y], y);
    LifeOfFour(settings, h, k, l, m);
    life := [h, k, l, m];
  }

  lemma {:induction false} SelectWanted(settings: Settings, table: seq<Row>)
    requires Growing(table)
    ensures forall row :: row in Select(settings, None, table) <==> row in table && Wanted(settings, row)
  {
    forall row ensures row in Select(settings, None, table) <==> row in table && Wanted(settings, row) {
      SelectCounts(settings, None, table, row);
      assert row in Select(settings, None, table) <==> multiset(Select(settings, None, table))[row] > 0;
      assert row in table <==> multiset(table)[row] > 0;
      assert row in table ==> row.value.Some?;
    }
  }

  /** Every row delivered is one of the table's that was wanted, none is delivered
      twice, and they come in the order of their values. */
  lemma {:induction false} DeliversWanted(settings: Settings, life: seq<History>, i: nat)
    requires Life(settings, life) && i < |life|
    ensures Growing(life[i].rows)
    ensures forall row :: row in life[i].rows ==> row in life[i].table && Wanted(settings, row)
  {
    DeliveredOnce(settings, life, i);
    SelectWanted(settings, life[i].table);
    SelectGrows(settings, None, life[i].table);
    Firsts(Select(settings, None, life[i].table), life[i].rows);
  }

  lemma Firsts(all: seq<Row>, some: seq<Row>)
    requires some <= all && Growing(all)
    ensures Growing(some) && forall row :: row in some ==> row in all
  {
    assert forall i :: 0 <= i < |some| ==> some[i] == all[i];
  }

  /** After a run that its cap did not stop, every wanted row has been delivered. */
  lemma {:induction false} AllWantedDelivered(settings: Settings, max: Option<nat>, life: seq<History>, i: nat, answer: seq<Row>, written: seq<Row>)
    requires Life(settings, life) && 0 < i < |life| && Succeeds(settings, max, life[i - 1], life[i], answer, written)
    requires max.Some? ==> |written| < max.value
    ensures forall row :: row in life[i].table && Wanted(settings, row) ==> row in life[i].rows
  {
    CaughtUp(settings, max, life, i, answer, written);
    DeliveredOnce(settings, life, i);
    SelectWanted(settings, life[i].table);
  }

  // -------------------------------------------------------------------------
  // Ties and nulls
  // -------------------------------------------------------------------------

  lemma {:induction false} SelectCounts(settings: Settings, saved: Option<int>, table: seq<Row>, row: Row)
    ensures multiset(Select(settings, saved, table))[row] == if Selected(settings, saved, row) then multiset(table)[row] else 0
  {
    if table != [] {
      SelectCounts(settings, saved, table[..|table| - 1], row);
      assert table == table[..|table| - 1] + [table[|table| - 1]];
    }
  }

  lemma AnswerSelected(settings: Settings, saved: Option<int>, table: seq<Row>, answer: seq<Row>, row: Row)
    requires Answers(settings, saved, table, answer)
    ensures multiset(answer)[row] == if Selected(settings, saved, row) then multiset(table)[row] else 0
    ensures row in answer ==> Selected(settings, saved, row)
  {
    SelectCounts(settings, saved, table, row);
    assert row in answer ==> row in multiset(answer);
  }

  /** The cap does not fall between equal values, and there are no nulls. */
  predicate CleanCut(answer: seq<Row>, k: nat)
    requires k <= |answer|
  {
    k == 0 || (answer[|answer| - 1].value.Some? && (k == |answer| || answer[k - 1].value != answer[k].value))
  }

  lemma Splits(answer: seq<Row>, k: nat)
    requires k <= |answer|
    ensures multiset(answer) == multiset(answer[..k]) + multiset(answer[k..])
  {
    assert answer == answer[..k] + answer[k..];
  }

  lemma CleanOrder(answer: seq<Row>, k: nat, i: nat)
    requires InOrder(answer) && 0 < k <= |answer| && CleanCut(answer, k) && i < |answer|
    ensures answer[k - 1].value.Some? && answer[i].value.Some?
    ensures i < k <==> answer[i].value.value <= answer[k - 1].value.value
  {
    var last := |answer| - 1;
    assert i < last ==> NotAfter(answer[i], answer[last]);
    assert k - 1 < last ==> NotAfter(answer[k - 1], answer[last]) && NotAfter(answer[k - 1], answer[k]);
    assert k < last ==> NotAfter(answer[k], answer[last]);
    assert i < k - 1 ==> NotAfter(answer[i], answer[k - 1]);
    assert i > k ==> NotAfter(answer[k], answer[i]);
  }

  /** How often a row is in what a clean cut leaves. */
  lemma CleanCounts(answer: seq<Row>, k: nat, row: Row)
    requires InOrder(answer) && 0 < k <= |answer| && CleanCut(answer, k)
    ensures answer[k - 1].value.Some?
    ensures multiset(answer[k..])[row]
         == if row.value.Some? && row.value.value > answer[k - 1].value.value then multiset(answer)[row] else 0
  {
    CleanOrder(answer, k, 0);
    Splits(answer, k);
    forall i | 0 <= i < k ensures answer[..k][i].value.Some? && answer[..k][i].value.value <= answer[k - 1].value.value {
      CleanOrder(answer, k, i);
    }
    forall i | 0 <= i < |answer| - k ensures answer[k..][i].value.Some? && answer[k..][i].value.value > answer[k - 1].value.value {
      CleanOrder(answer, k, k + i);
    }
  }

  lemma {:induction false} CleanLeavesRest(settings: Settings, saved: Option<int>, table: seq<Row>, answer: seq<Row>, k: nat, row: Row)
    requires Answers(settings, saved, table, answer) && 0 < k <= |answer| && CleanCut(answer, k)
    ensures multiset(Select(settings, answer[k - 1].value, table))[row] == multiset(answer[k..])[row]
  {
    CleanCounts(answer, k, row);
    AnswerSelected(settings, saved, table, answer, row);
    AnswerSelected(settings, saved, table, answer, answer[k - 1]);
    SelectCounts(settings, answer[k - 1].value, table, row);
  }

  /** The next run's statement selects exactly what a run left unread, if and only
      if the run's cut was clean: among rows that share the last value read, those
      past the cap are skipped. */
  lemma {:induction false} RestComesNext(settings: Settings, max: Option<nat>, saved: Option<int>, table: seq<Row>, answer: seq<Row>, written: seq<Row>, after: Option<int>)
    requires Ran(settings, max, saved, table, answer, written, after)
    ensures multiset(Select(settings, after, table)) == multiset(answer[|written|..]) <==> CleanCut(answer, |written|)
  {
    var k := |written|;
    if k > 0 { assert written[k - 1] == answer[k - 1]; }
    if k == 0 {
      assert answer[0..] == answer;
    } else if CleanCut(answer, k) {
      CutKeeps(settings, saved, table, answer, k);
      CleanOrder(answer, k, k - 1);
    } else {
      CutLoses(settings, saved, table, answer, k, after);
    }
  }

  lemma {:induction false} CutKeeps(settings: Settings, saved: Option<int>, table: seq<Row>, answer: seq<Row>, k: nat)
    requires Answers(settings, saved, table, answer) && 0 < k <= |answer| && CleanCut(answer, k)
    ensures multiset(Select(settings, answer[k - 1].value, table)) == multiset(answer[k..])
  {
    forall row ensures multiset(Select(settings, answer[k - 1].value, table))[row] == multiset(answer[k..])[row] {
      CleanLeavesRest(settings, saved, table, answer, k, row);
    }
  }

  lemma {:induction false} CutLoses(settings: Settings, saved: Option<int>, table: seq<Row>, answer: seq<Row>, k: nat, after: Option<int>)
    requires Answers(settings, saved, table, answer) && 0 < k <= |answer| && !CleanCut(answer, k)
    requires after == if answer[k - 1].value.Some? then answer[k - 1].value else saved
    ensures multiset(Select(settings, after, table)) != multiset(answer[k..])
  {
    if answer[k - 1].value.None? {
      assert |multiset(Select(settings, after, table))| == |multiset(answer)| == |answer|;
      assert |multiset(answer[k..])| == |answer| - k;
    } else {
      var lost := if answer[|answer| - 1].value.None? then answer[|answer| - 1] else answer[k];
      SelectCounts(settings, after, table, lost);
      assert lost in answer[k..];
    }
  }

  /** A saved position, and what the run that saved it wrote. */
  datatype Saved = Saved(value: Option<int>, written: seq<Row>)

  /** Runs one after another, of whatever the table holds at the time, under
      whatever settings and cap. */
  ghost predicate Runs(runs: seq<Saved>) {
    forall i :: 0 < i < |runs| ==> Follows(runs[i - 1], runs[i])
  }

  ghost predicate Follows(before: Saved, after: Saved) {
    exists settings, max, table, answer :: RanOn(settings, max, before, after, table, answer)
  }

  ghost predicate RanOn(settings: Settings, max: Option<nat>, before: Saved, after: Saved, table: seq<Row>, answer: seq<Row>) {
    Ran(settings, max, before.value, table, answer, after.written, after.value)
  }

  /** A row that a saved position is past: no statement selects it. */
  predicate Passed(saved: Option<int>, row: Row) {
    saved.Some? && (row.value.None? || row.value.value <= saved.value)
  }

  /** What a saved position is past is not read again, by any later run: what was
      skipped is skipped for good. */
  lemma {:induction false} SkippedForGood(runs: seq<Saved>, i: nat, row: Row)
    requires Runs(runs) && i < |runs| && Passed(runs[0].value, row)
    ensures Passed(runs[i].value, row) && (i > 0 ==> row !in runs[i].written)
  {
    if i > 0 {
      SkippedForGood(runs, i - 1, row);
      StaysPassed(runs[i - 1], runs[i], row);
    }
  }

  /** Two such runs, to begin with: the second has nothing to write. */
  lemma TwoRuns(settings: Settings, v: int)
    requires settings.start.Some? ==> settings.start.value < v
    ensures Runs([Saved(None, []), Saved(Some(v), [Row(1, Some(v))]), Saved(Some(v), [])])
  {
    var table := [Row(1, Some(v)), Row(2, Some(v))];
    var runs := [Saved(None, []), Saved(Some(v), [Row(1, Some(v))]), Saved(Some(v), [])];
    TieRead(settings, v);
    assert RanOn(settings, Some(1), runs[0], runs[1], table, table);
    assert RanOn(settings, Some(1), runs[1], runs[2], table, []);
  }

  lemma {:induction false} TieSelected(settings: Settings, v: int)
    requires settings.start.Some? ==> settings.start.value < v
    ensures var table := [Row(1, Some(v)), Row(2, Some(v))]; Select(settings, None, table) == table && Select(settings, Some(v), table) == []
  {
    var a, b := Row(1, Some(v)), Row(2, Some(v));
    assert Selected(settings, None, a) && Selected(settings, None, b) && !Selected(settings, Some(v), a) && !Selected(settings, Some(v), b);
    SelectTwo(settings, None, a, b);
    SelectTwo(settings, Some(v), a, b);
    assert [a] + [b] == [a, b];
  }

  lemma TieRead(settings: Settings, v: int)
    requires settings.start.Some? ==> settings.start.value < v
    ensures var table := [Row(1, Some(v)), Row(2, Some(v))];
      Ran(settings, Some(1), None, table, table, [table[0]], Some(v)) && Ran(settings, Some(1), Some(v), table, [], [], Some(v))
  {
    var a, b := Row(1, Some(v)), Row(2, Some(v));
    TieSelected(settings, v);
    ReadsFirst(settings, None, [a, b], [a, b]);
    ReadsNothing(settings, Some(v), [a, b]);
  }

  lemma {:induction false} ReadsNothing(settings: Settings, saved: Option<int>, table: seq<Row>)
    requires Select(settings, saved, table) == []
    ensures Ran(settings, Some(1), saved, table, [], [], saved)
  {
  }

  /** And a row is skipped so: of two with one value the cap lets the first through,
      and no later run, whatever its cap, reads the second. */
  lemma TieSkipped(settings: Settings, v: int, runs: seq<Saved>, i: nat)
    requires settings.start.Some? ==> settings.start.value < v
    requires Runs(runs) && 0 < i < |runs| && runs[0] == Saved(Some(v), [Row(1, Some(v))])
    ensures var table := [Row(1, Some(v)), Row(2, Some(v))];
      Ran(settings, Some(1), None, table, table, runs[0].written, runs[0].value) && Row(2, Some(v)) in table
    ensures Row(2, Some(v)) !in runs[i].written
  {
    TieRead(settings, v);
    SkippedForGood(runs, i, Row(2, Some(v)));
  }

  lemma StaysPassed(before: Saved, after: Saved, row: Row)
    requires Follows(before, after) && Passed(before.value, row)
    ensures Passed(after.value, row) && row !in after.written
  {
    var settings, max, table, answer :| RanOn(settings, max, before, after, table, answer);
    AnswerSelected(settings, before.value, table, answer, row);
    assert forall x :: x in after.written ==> x in answer;
    if after.written != [] { AnswerSelected(settings, before.value, table, answer, after.written[|after.written| - 1]); }
  }

  /** The rows that are not null. */
  function Valued(rows: seq<Row>): seq<Row> {
    Select(Settings(BigQuery, None), None, rows)
  }

  lemma {:induction false} ValuedFirst(rows: seq<Row>)
    requires InOrder(rows)
    ensures |Valued(rows)| <= |rows| && forall i :: 0 <= i < |rows| ==> (rows[i].value.Some? <==> i < |Valued(rows)|)
  {
    if rows != [] {
      var n := |rows| - 1;
      ValuedFirst(rows[..n]);
      assert forall i :: 0 <= i < n ==> rows[..n][i] == rows[i] && NotAfter(rows[i], rows[n]);
    }
  }

  lemma SameValued(a: seq<Row>, b: seq<Row>)
    requires multiset(a) == multiset(b)
    ensures |Valued(a)| == |Valued(b)|
  {
    forall row ensures multiset(Valued(a))[row] == multiset(Valued(b))[row] {
      SelectCounts(Settings(BigQuery, None), None, a, row);
      SelectCounts(Settings(BigQuery, None), None, b, row);
    }
    assert multiset(Valued(a)) == multiset(Valued(b));
    assert |multiset(Valued(a))| == |Valued(a)| && |multiset(Valued(b))| == |Valued(b)|;
  }

  /** A first run that writes rows and yet hands on no position, so that the next
      reads them all again: ClickHouse's statement without a `start`, when the
      cap lets a null through. BigQuery's leaves nulls out and always hands one
      on. */
  lemma NullsStartOver(settings: Settings, max: Option<nat>, table: seq<Row>, answer: seq<Row>, written: seq<Row>, after: Option<int>)
    requires Ran(settings, max, None, table, answer, written, after)
    ensures written != [] && after.None? <==>
            settings.dialect.ClickHouse? && settings.start.None? && |Valued(table)| < Capped(max, |table|)
  {
    if written != [] { AnswerSelected(settings, None, table, answer, written[|written| - 1]); }
    if settings.dialect.ClickHouse? && settings.start.None? {
      SelectsAll(settings, table);
      assert |multiset(answer)| == |answer| && |multiset(table)| == |table|;
      SameValued(answer, table);
      ValuedFirst(answer);
    }
  }

  lemma {:induction false} SelectsAll(settings: Settings, table: seq<Row>)
    requires settings.dialect.ClickHouse? && settings.start.None?
    ensures Select(settings, None, table) == table
  {
    if table != [] {
      SelectsAll(settings, table[..|table| - 1]);
      assert table == table[..|table| - 1] + [table[|table| - 1]];
    }
  }
}
