/** Kraken2 reports: loading one report, doubling the paired and unpaired
    read counts, grouping the rows of both reports by taxon, and the class
    totals the summary row takes from the grouped table. */
module Kraken {
  import opened Wrappers
  import opened Text
  import opened Table

  /** The four count columns that grouping sums. */
  datatype Counts = Counts(readsClade: int, readsTaxon: int, minimizersCount: int, minimizersDistinct: int) {
    function Plus(other: Counts): Counts {
      Counts(readsClade + other.readsClade, readsTaxon + other.readsTaxon,
             minimizersCount + other.minimizersCount, minimizersDistinct + other.minimizersDistinct)
    }
  }

  const Zero := Counts(0, 0, 0, 0)

  /** The grouping key: stripped name, numeric taxon id and rank. */
  datatype TaxonKey = TaxonKey(name: string, taxId: int, rank: string)

  /** One report row after loading: `pct_reads` is recomputed later and not
      kept. A missing name or rank stays missing (NaN). */
  datatype ReportRow = ReportRow(name: Cell, taxId: int, rank: Cell, counts: Counts) {
    /** The row's group, or None when `groupby` drops it for a missing key. */
    function Key(): Option<TaxonKey>
    {
      if name.Some? && rank.Some? then Some(TaxonKey(name.value, taxId, rank.value)) else None
    }
  }

  /** One line of the grouped table. */
  datatype TaxonCount = TaxonCount(key: TaxonKey, counts: Counts)

  /** Why merging the reports fails: neither report exists
      (`FileNotFoundError`), a report has fewer than 8 columns, or the table
      reader rejects a report. */
  datatype KrakenError =
    | NoReports
    | MalformedReport(width: nat)
    | UnreadableReport(cause: TableError)

  // ---------------------------------------------------------------- loading

  /** The KRAKEN2_COLS assignment for one record of at least 8 cells. */
  function RowOf(cells: seq<Cell>): ReportRow
    requires |cells| >= 8
  {
    var name := match cells[7] case None => None case Some(t) => Some(Strip(t));
    ReportRow(name, ToNumeric(cells[6], 0), cells[5],
              Counts(ToNumeric(cells[1], 0), ToNumeric(cells[2], 0),
                     ToNumeric(cells[3], 0), ToNumeric(cells[4], 0)))
  }

  /** `load_kraken_report`: an empty file is an empty table; otherwise the
      file must read as a table of at least 8 columns, and each record
      becomes one row. */
  function LoadReport(lines: seq<string>): (r: Result<seq<ReportRow>, KrakenError>)
    ensures |lines| == 0 ==> r == Success([])
    ensures |lines| > 0 && ReadTable(lines, None).Failure? ==> r == Failure(UnreadableReport(ReadTable(lines, None).error))
    ensures |lines| > 0 && ReadTable(lines, None).Success? ==>
              var frame := ReadTable(lines, None).value;
              && (frame.width < 8 <==> r == Failure(MalformedReport(frame.width)))
              && (frame.width >= 8 ==>
                    && r.Success? && |r.value| == |frame.rows|
                    && forall i :: 0 <= i < |frame.rows| ==> r.value[i] == RowOf(frame.rows[i]))
  {
    if |lines| == 0 then Success([])
    else
      var frame :- ReadTable(lines, None).MapFailure(e => UnreadableReport(e));
      if frame.width < 8 then Failure(MalformedReport(frame.width))
      else
        Success(seq(|frame.rows|, i requires 0 <= i < |frame.rows| => RowOf(frame.rows[i])))
  }

  /** The report line a row is written as; the percentage column is a
      placeholder the loader discards. */
  function ReportLine(pct: string, row: TaxonCount): string {
    var c := row.counts;
    Join([pct, ShowInt(c.readsClade), ShowInt(c.readsTaxon), ShowInt(c.minimizersCount),
          ShowInt(c.minimizersDistinct), row.key.rank, ShowInt(row.key.taxId), row.key.name], '\t')
  }

  /** A rendered integer is a non-empty field without a tab. */
  lemma ShowIntIsField(i: int)
    ensures ShowInt(i) != "" && '\t' !in ShowInt(i)
  {
    var d := ShowNat(if i < 0 then -i else i);
    assert IsDigits(d);
    assert '\t' !in d by {
      forall j | 0 <= j < |d| ensures d[j] != '\t' {
        assert IsDigit(d[j]);
      }
    }
  }

  /** A grouped line written out as a report line loads back as one row
      with the same key and counts, provided its name and rank are
      non-empty, tab-free and the name is already stripped. */
  lemma ReportLineRoundTrip(pct: string, t: TaxonCount)
    requires pct != "" && '\t' !in pct
    requires t.key.rank != "" && '\t' !in t.key.rank
    requires t.key.name != "" && '\t' !in t.key.name && Strip(t.key.name) == t.key.name
    ensures LoadReport([ReportLine(pct, t)]).Success?
    ensures |LoadReport([ReportLine(pct, t)]).value| == 1
    ensures LoadReport([ReportLine(pct, t)]).value[0].Key() == Some(t.key)
    ensures LoadReport([ReportLine(pct, t)]).value[0].counts == t.counts
  {
    var c := t.counts;
    var parts := [pct, ShowInt(c.readsClade), ShowInt(c.readsTaxon), ShowInt(c.minimizersCount),
                  ShowInt(c.minimizersDistinct), t.key.rank, ShowInt(t.key.taxId), t.key.name];
    ShowIntIsField(c.readsClade);
    ShowIntIsField(c.readsTaxon);
    ShowIntIsField(c.minimizersCount);
    ShowIntIsField(c.minimizersDistinct);
    ShowIntIsField(t.key.taxId);
    var line := ReportLine(pct, t);
    SplitJoin(parts, '\t');
    assert Split(line, '\t') == parts;
    assert |Split(line, '\t')| > 1;
    assert Records([line], None) == [parts];
    var frame := ReadTable([line], None).value;
    assert frame.width == 8 && |frame.rows| == 1;
    forall j | 0 <= j < 8 ensures frame.rows[0][j] == Some(parts[j]) {
      assert CellAt(parts, j) == Some(parts[j]);
    }
    ParseIntShowInt(c.readsClade);
    ParseIntShowInt(c.readsTaxon);
    ParseIntShowInt(c.minimizersCount);
    ParseIntShowInt(c.minimizersDistinct);
    ParseIntShowInt(t.key.taxId);
  }

  // ---------------------------------------------------------------- doubling

  /** Counts with both read columns doubled and the minimizer columns kept. */
  function DoubleReads(c: Counts): Counts {
    Counts(2 * c.readsClade, 2 * c.readsTaxon, c.minimizersCount, c.minimizersDistinct)
  }

  /** Reads are counted per mate: both read columns are doubled, the
      minimizer columns are not. */
  function Doubled(row: ReportRow): (d: ReportRow)
    ensures d.Key() == row.Key()
  {
    ReportRow(row.name, row.taxId, row.rank, DoubleReads(row.counts))
  }

  function DoubledAll(rows: seq<ReportRow>): seq<ReportRow>
  {
    seq(|rows|, i requires 0 <= i < |rows| => Doubled(rows[i]))
  }

  // ---------------------------------------------------------------- grouping

  /** The first index at or after `from` whose key is `k`. */
  function IndexOf(g: seq<TaxonCount>, k: TaxonKey, from: nat): (r: Option<nat>)
    requires from <= |g|
    ensures r.Some? ==> from <= r.value < |g| && g[r.value].key == k
    ensures r.Some? ==> forall j :: from <= j < r.value ==> g[j].key != k
    ensures r.None? ==> forall j :: from <= j < |g| ==> g[j].key != k
    decreases |g| - from
  {
    if from == |g| then None
    else if g[from].key == k then Some(from)
    else IndexOf(g, k, from + 1)
  }

  /** The counts the grouped table holds for `k`. */
  function Find(g: seq<TaxonCount>, k: TaxonKey): Option<Counts> {
    match IndexOf(g, k, 0)
    case Some(i) => Some(g[i].counts)
    case None => None
  }

  predicate KeysUnique(g: seq<TaxonCount>) {
    forall i, j :: 0 <= i < j < |g| ==> g[i].key != g[j].key
  }

  /** One row folded into the grouped table: added to its group's counts,
      or a new group when its key is new. */
  function AddRow(g: seq<TaxonCount>, k: TaxonKey, c: Counts): seq<TaxonCount> {
    match IndexOf(g, k, 0)
    case Some(i) => g[i := TaxonCount(k, g[i].counts.Plus(c))]
    case None => g + [TaxonCount(k, c)]
  }

  /** The groups of the first `n` rows, in order of first appearance. */
  function GroupPrefix(rows: seq<ReportRow>, n: nat): seq<TaxonCount>
    requires n <= |rows|
  {
    if n == 0 then []
    else
      var g := GroupPrefix(rows, n - 1);
      match rows[n - 1].Key()
      case None => g
      case Some(k) => AddRow(g, k, rows[n - 1].counts)
  }

  /** `groupby(['name','tax_id','rank']).sum()` on the four count columns. */
  function GroupRows(rows: seq<ReportRow>): seq<TaxonCount> {
    GroupPrefix(rows, |rows|)
  }

  /** The sum of the counts of the first `n` rows whose key is `k`. */
  function CountsPrefix(rows: seq<ReportRow>, k: TaxonKey, n: nat): Counts
    requires n <= |rows|
  {
    if n == 0 then Zero
    else
      var c := CountsPrefix(rows, k, n - 1);
      if rows[n - 1].Key() == Some(k) then c.Plus(rows[n - 1].counts) else c
  }

  /** Whether some of the first `n` rows has key `k`. */
  predicate SeenPrefix(rows: seq<ReportRow>, k: TaxonKey, n: nat)
    requires n <= |rows|
  {
    exists j :: 0 <= j < n && rows[j].Key() == Some(k)
  }

  /** With unique keys, the line holding `k` is the one `IndexOf` finds. */
  lemma IndexOfUnique(g: seq<TaxonCount>, k: TaxonKey, i: nat)
    requires KeysUnique(g) && i < |g| && g[i].key == k
    ensures IndexOf(g, k, 0) == Some(i)
  {
  }

  /** Folding a row in changes only its own group, by exactly its counts,
      and keeps the keys unique. */
  lemma FindAddRow(g: seq<TaxonCount>, k: TaxonKey, c: Counts, k': TaxonKey)
    requires KeysUnique(g)
    ensures KeysUnique(AddRow(g, k, c))
    ensures Find(AddRow(g, k, c), k')
         == if k' == k then Some(Find(g, k).GetOr(Zero).Plus(c)) else Find(g, k')
  {
    var g' := AddRow(g, k, c);
    match IndexOf(g, k, 0)
    case Some(i) =>
      assert KeysUnique(g');
      IndexOfUnique(g', k, i);
      if k' != k {
        match IndexOf(g, k', 0)
        case Some(j) =>
          IndexOfUnique(g', k', j);
        case None =>
          assert forall j :: 0 <= j < |g'| ==> g'[j].key != k';
      }
    case None =>
      assert KeysUnique(g');
      IndexOfUnique(g', k, |g|);
      if k' != k {
        match IndexOf(g, k', 0)
        case Some(j) =>
          IndexOfUnique(g', k', j);
        case None =>
          assert forall j :: 0 <= j < |g'| ==> g'[j].key != k';
      }
  }

  /** The grouped table has one line per key that some kept row carries,
      holding the sum of those rows' counts. */
  lemma {:induction false} GroupPrefixContents(rows: seq<ReportRow>, n: nat, k: TaxonKey)
    requires n <= |rows|
    ensures KeysUnique(GroupPrefix(rows, n))
    ensures Find(GroupPrefix(rows, n), k)
         == if SeenPrefix(rows, k, n) then Some(CountsPrefix(rows, k, n)) else None
  {
    if n > 0 {
      var g := GroupPrefix(rows, n - 1);
      GroupPrefixContents(rows, n - 1, k);
      match rows[n - 1].Key()
      case None =>
        assert SeenPrefix(rows, k, n) == SeenPrefix(rows, k, n - 1);
      case Some(k0) =>
        FindAddRow(g, k0, rows[n - 1].counts, k);
        if k == k0 {
          assert SeenPrefix(rows, k, n);
          if !SeenPrefix(rows, k, n - 1) {
            ZeroCountsUnseen(rows, k, n - 1);
          }
        } else {
          assert SeenPrefix(rows, k, n) == SeenPrefix(rows, k, n - 1);
        }
    }
  }

  /** A key no row carries sums to zero. */
  lemma {:induction false} ZeroCountsUnseen(rows: seq<ReportRow>, k: TaxonKey, n: nat)
    requires n <= |rows| && !SeenPrefix(rows, k, n)
    ensures CountsPrefix(rows, k, n) == Zero
  {
    if n > 0 {
      ZeroCountsUnseen(rows, k, n - 1);
    }
  }

  /** `GroupRows` in full: unique keys; a key is present exactly when a row
      with that complete key exists, and its counts are the sum over those
      rows. */
  lemma GroupRowsContents(rows: seq<ReportRow>, k: TaxonKey)
    ensures KeysUnique(GroupRows(rows))
    ensures Find(GroupRows(rows), k).Some? <==> exists j :: 0 <= j < |rows| && rows[j].Key() == Some(k)
    ensures Find(GroupRows(rows), k).Some? ==> Find(GroupRows(rows), k).value == CountsPrefix(rows, k, |rows|)
  {
    GroupPrefixContents(rows, |rows|, k);
  }

  /** The first `m` rows of a longer sequence sum as they do alone. */
  lemma {:induction false} CountsPrefixOfLonger(a: seq<ReportRow>, b: seq<ReportRow>, k: TaxonKey, m: nat)
    requires m <= |a|
    ensures CountsPrefix(a + b, k, m) == CountsPrefix(a, k, m)
  {
    if m > 0 {
      CountsPrefixOfLonger(a, b, k, m - 1);
      assert (a + b)[m - 1] == a[m - 1];
    }
  }

  /** The per-key sum over two concatenated tables is the sum of the two. */
  lemma {:induction false} CountsPrefixAppend(a: seq<ReportRow>, b: seq<ReportRow>, k: TaxonKey, n: nat)
    requires n <= |b|
    ensures CountsPrefix(a + b, k, |a| + n) == CountsPrefix(a, k, |a|).Plus(CountsPrefix(b, k, n))
  {
    if n == 0 {
      CountsPrefixOfLonger(a, b, k, |a|);
    } else {
      CountsPrefixAppend(a, b, k, n - 1);
      var ab, m := a + b, |a| + n - 1;
      var r := b[n - 1];
      assert ab[m] == r;
      var x, y := CountsPrefix(a, k, |a|), CountsPrefix(b, k, n - 1);
      assert CountsPrefix(ab, k, m) == x.Plus(y);
      if r.Key() == Some(k) {
        calc {
          CountsPrefix(ab, k, m + 1);
          CountsPrefix(ab, k, m).Plus(r.counts);
          x.Plus(y).Plus(r.counts);
          x.Plus(y.Plus(r.counts));
          x.Plus(CountsPrefix(b, k, n));
        }
      } else {
        assert CountsPrefix(ab, k, m + 1) == CountsPrefix(ab, k, m);
        assert CountsPrefix(b, k, n) == y;
      }
    }
  }

  /** Doubling the rows doubles the per-key read sums and keeps the
      per-key minimizer sums. */
  lemma {:induction false} CountsPrefixDoubled(rows: seq<ReportRow>, k: TaxonKey, n: nat)
    requires n <= |rows|
    ensures CountsPrefix(DoubledAll(rows), k, n) == DoubleReads(CountsPrefix(rows, k, n))
  {
    if n > 0 {
      CountsPrefixDoubled(rows, k, n - 1);
      assert DoubledAll(rows)[n - 1] == Doubled(rows[n - 1]);
    }
  }

  /** The merge keeps exactly the taxa of the two reports: a taxon appears
      when one of them has a row for it. */
  lemma MergedKeyPresent(p: seq<ReportRow>, u: seq<ReportRow>, k: TaxonKey)
    ensures Find(GroupRows(DoubledAll(p) + DoubledAll(u)), k).Some?
        <==> ((exists j :: 0 <= j < |p| && p[j].Key() == Some(k))
              || (exists j :: 0 <= j < |u| && u[j].Key() == Some(k)))
  {
    var rows := DoubledAll(p) + DoubledAll(u);
    GroupRowsContents(rows, k);
    if exists j :: 0 <= j < |rows| && rows[j].Key() == Some(k) {
      var j :| 0 <= j < |rows| && rows[j].Key() == Some(k);
      if j < |p| {
        assert rows[j] == Doubled(p[j]);
      } else {
        assert rows[j] == Doubled(u[j - |p|]);
      }
    }
    if exists j :: 0 <= j < |p| && p[j].Key() == Some(k) {
      var j :| 0 <= j < |p| && p[j].Key() == Some(k);
      assert rows[j] == Doubled(p[j]);
    }
    if exists j :: 0 <= j < |u| && u[j].Key() == Some(k) {
      var j :| 0 <= j < |u| && u[j].Key() == Some(k);
      assert rows[|p| + j] == Doubled(u[j]);
    }
  }

  /** The per-key sum over the doubled rows of both reports. */
  lemma CountsPrefixMerged(p: seq<ReportRow>, u: seq<ReportRow>, k: TaxonKey)
    ensures CountsPrefix(DoubledAll(p) + DoubledAll(u), k, |DoubledAll(p) + DoubledAll(u)|)
         == DoubleReads(CountsPrefix(p, k, |p|)).Plus(DoubleReads(CountsPrefix(u, k, |u|)))
  {
    assert |DoubledAll(p) + DoubledAll(u)| == |DoubledAll(p)| + |u|;
    CountsPrefixAppend(DoubledAll(p), DoubledAll(u), k, |u|);
    CountsPrefixDoubled(p, k, |p|);
    CountsPrefixDoubled(u, k, |u|);
  }

  /** The merge row by row: a taxon's read columns are twice the sum of
      the matching rows of both reports, and its minimizer columns the plain
      sum. */
  lemma MergedKeyCounts(p: seq<ReportRow>, u: seq<ReportRow>, k: TaxonKey)
    ensures var g := GroupRows(DoubledAll(p) + DoubledAll(u));
      var cp, cu := CountsPrefix(p, k, |p|), CountsPrefix(u, k, |u|);
      Find(g, k).Some? ==>
        && Find(g, k).value.readsClade == 2 * (cp.readsClade + cu.readsClade)
        && Find(g, k).value.readsTaxon == 2 * (cp.readsTaxon + cu.readsTaxon)
        && Find(g, k).value.minimizersCount == cp.minimizersCount + cu.minimizersCount
        && Find(g, k).value.minimizersDistinct == cp.minimizersDistinct + cu.minimizersDistinct
  {
    var v := Find(GroupRows(DoubledAll(p) + DoubledAll(u)), k);
    if v.Some? {
      MergedKeyValue(p, u, k);
      SumOfDoubled(v.value, CountsPrefix(p, k, |p|), CountsPrefix(u, k, |u|));
    }
  }

  /** The grouped line of a key is the doubled per-key sums of both reports added. */
  lemma MergedKeyValue(p: seq<ReportRow>, u: seq<ReportRow>, k: TaxonKey)
    ensures Find(GroupRows(DoubledAll(p) + DoubledAll(u)), k).Some? ==>
      Find(GroupRows(DoubledAll(p) + DoubledAll(u)), k).value
        == DoubleReads(CountsPrefix(p, k, |p|)).Plus(DoubleReads(CountsPrefix(u, k, |u|)))
  {
    GroupRowsValue(DoubledAll(p) + DoubledAll(u), k);
    CountsPrefixMerged(p, u, k);
  }

  lemma GroupRowsValue(rows: seq<ReportRow>, k: TaxonKey)
    ensures Find(GroupRows(rows), k).Some? ==> Find(GroupRows(rows), k).value == CountsPrefix(rows, k, |rows|)
  {
    GroupRowsContents(rows, k);
  }

  lemma SumOfDoubled(c: Counts, x: Counts, y: Counts)
    requires c == DoubleReads(x).Plus(DoubleReads(y))
    ensures c.readsClade == 2 * (x.readsClade + y.readsClade)
    ensures c.readsTaxon == 2 * (x.readsTaxon + y.readsTaxon)
    ensures c.minimizersCount == x.minimizersCount + y.minimizersCount
    ensures c.minimizersDistinct == x.minimizersDistinct + y.minimizersDistinct
  {
  }

  // ---------------------------------------------------------------- class totals

  /** The clade reads of one grouped line when its taxon id is in `ids`. */
  function Share(t: TaxonCount, ids: set<int>): int {
    if t.key.taxId in ids then t.counts.readsClade else 0
  }

  /** `df.loc[df['tax_id'].isin(ids), 'reads_clade'].sum()` on the grouped table. */
  function ClassReads(g: seq<TaxonCount>, ids: set<int>): int {
    if |g| == 0 then 0 else ClassReads(g[..|g| - 1], ids) + Share(g[|g| - 1], ids)
  }

  /** The clade reads of one loaded row that grouping keeps, when its
      taxon id is in `ids`. */
  function RowShare(r: ReportRow, ids: set<int>): int {
    if r.Key().Some? && r.taxId in ids then r.counts.readsClade else 0
  }

  /** The same total taken over the loaded rows before grouping. */
  function RowClassReads(rows: seq<ReportRow>, ids: set<int>): int {
    if |rows| == 0 then 0 else RowClassReads(rows[..|rows| - 1], ids) + RowShare(rows[|rows| - 1], ids)
  }

  /** Replacing one grouped line changes the total by the difference of
      the two lines' shares. */
  lemma {:induction false} ClassReadsUpdate(g: seq<TaxonCount>, i: nat, t: TaxonCount, ids: set<int>)
    requires i < |g|
    ensures ClassReads(g[i := t], ids) == ClassReads(g, ids) - Share(g[i], ids) + Share(t, ids)
  {
    var last := |g| - 1;
    if i == last {
      assert g[i := t][..last] == g[..last];
    } else {
      assert g[i := t][..last] == g[..last][i := t];
      ClassReadsUpdate(g[..last], i, t, ids);
    }
  }

  lemma ClassReadsAppend(g: seq<TaxonCount>, t: TaxonCount, ids: set<int>)
    ensures ClassReads(g + [t], ids) == ClassReads(g, ids) + Share(t, ids)
  {
    assert (g + [t])[..|g|] == g;
  }

  /** Grouping neither loses nor invents clade reads for any set of ids. */
  lemma {:induction false} GroupPrefixClassReads(rows: seq<ReportRow>, n: nat, ids: set<int>)
    requires n <= |rows|
    ensures ClassReads(GroupPrefix(rows, n), ids) == RowClassReads(rows[..n], ids)
  {
    if n > 0 {
      GroupPrefixClassReads(rows, n - 1, ids);
      assert rows[..n][..n - 1] == rows[..n - 1];
      var g := GroupPrefix(rows, n - 1);
      var r := rows[n - 1];
      match r.Key()
      case None =>
      case Some(k) =>
        match IndexOf(g, k, 0)
        case Some(i) =>
          ClassReadsUpdate(g, i, TaxonCount(k, g[i].counts.Plus(r.counts)), ids);
        case None =>
          ClassReadsAppend(g, TaxonCount(k, r.counts), ids);
    }
  }

  lemma GroupRowsClassReads(rows: seq<ReportRow>, ids: set<int>)
    ensures ClassReads(GroupRows(rows), ids) == RowClassReads(rows, ids)
  {
    GroupPrefixClassReads(rows, |rows|, ids);
    assert rows[..|rows|] == rows;
  }

  lemma {:induction false} RowClassReadsConcat(a: seq<ReportRow>, b: seq<ReportRow>, ids: set<int>)
    ensures RowClassReads(a + b, ids) == RowClassReads(a, ids) + RowClassReads(b, ids)
    decreases |b|
  {
    if |b| == 0 {
      assert a + b == a;
    } else {
      assert (a + b)[..|a + b| - 1] == a + b[..|b| - 1];
      RowClassReadsConcat(a, b[..|b| - 1], ids);
    }
  }

  /** Doubling a report doubles every class total. */
  lemma {:induction false} RowClassReadsDoubled(rows: seq<ReportRow>, ids: set<int>)
    ensures RowClassReads(DoubledAll(rows), ids) == 2 * RowClassReads(rows, ids)
  {
    if |rows| > 0 {
      var last := |rows| - 1;
      assert DoubledAll(rows)[..last] == DoubledAll(rows[..last]);
      RowClassReadsDoubled(rows[..last], ids);
    }
  }

  /** Ids in two disjoint sets are counted once each: the total over their
      union is the sum of the two totals. */
  lemma {:induction false} ClassReadsUnion(g: seq<TaxonCount>, a: set<int>, b: set<int>)
    requires a !! b
    ensures ClassReads(g, a + b) == ClassReads(g, a) + ClassReads(g, b)
  {
    if |g| > 0 {
      ClassReadsUnion(g[..|g| - 1], a, b);
    }
  }

  // ---------------------------------------------------------------- merging

  /** The rows a report contributes, or none when the file is absent. */
  function LoadIfPresent(report: Option<seq<string>>): Result<seq<ReportRow>, KrakenError> {
    match report
    case None => Success([])
    case Some(lines) => LoadReport(lines)
  }

  /** `merge_kraken_reports`: fails when neither report exists; otherwise
      loads the paired then the unpaired report (a load error wins in that
      order), doubles both, and groups their rows together. */
  function MergeReports(paired: Option<seq<string>>, unpaired: Option<seq<string>>): (r: Result<seq<TaxonCount>, KrakenError>)
    ensures r == Failure(NoReports) <==> paired.None? && unpaired.None?
    ensures r.Success? <==> (paired.Some? || unpaired.Some?)
                            && LoadIfPresent(paired).Success? && LoadIfPresent(unpaired).Success?
    ensures r.Success? ==>
              r.value == GroupRows(DoubledAll(LoadIfPresent(paired).value) + DoubledAll(LoadIfPresent(unpaired).value))
  {
    if paired.None? && unpaired.None? then Failure(NoReports)
    else
      var p :- LoadIfPresent(paired);
      var u :- LoadIfPresent(unpaired);
      Success(GroupRows(DoubledAll(p) + DoubledAll(u)))
  }

  /** Every class total of the merged table (the grouping of the doubled
      paired rows followed by the doubled unpaired rows, as `MergeReports`
      promises) is twice the sum of the two reports' totals. */
  lemma MergedClassReads(p: seq<ReportRow>, u: seq<ReportRow>, ids: set<int>)
    ensures ClassReads(GroupRows(DoubledAll(p) + DoubledAll(u)), ids)
         == 2 * (RowClassReads(p, ids) + RowClassReads(u, ids))
  {
    GroupRowsClassReads(DoubledAll(p) + DoubledAll(u), ids);
    RowClassReadsConcat(DoubledAll(p), DoubledAll(u), ids);
    RowClassReadsDoubled(p, ids);
    RowClassReadsDoubled(u, ids);
  }

  // ---------------------------------------------------------------- totals

  const UnclassifiedIds: set<int> := {0}
  const ClassifiedIds: set<int> := {1}
  const TestedIds: set<int> := {0, 1}
  /** Bacteria, Fungi, Archaea, Viruses. */
  const MicrobialIds: set<int> := {2, 4751, 2157, 10239}
  const HumanIds: set<int> := {9606}

  /** The five Kraken2 figures of the summary row. */
  datatype KrakenTotals = KrakenTotals(tested: int, unclassified: int, classified: int, microbial: int, human: int)

  function Totals(g: seq<TaxonCount>): KrakenTotals {
    KrakenTotals(ClassReads(g, TestedIds), ClassReads(g, UnclassifiedIds), ClassReads(g, ClassifiedIds),
                 ClassReads(g, MicrobialIds), ClassReads(g, HumanIds))
  }

  /** Reads tested are exactly the unclassified plus the classified reads. */
  lemma TestedSplits(g: seq<TaxonCount>)
    ensures Totals(g).tested == Totals(g).unclassified + Totals(g).classified
  {
    assert TestedIds == UnclassifiedIds + ClassifiedIds;
    ClassReadsUnion(g, UnclassifiedIds, ClassifiedIds);
  }
}
