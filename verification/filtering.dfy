/** The filtering half of the summary row: primary read counts from the
    flagstat files, the PathSeq filter metrics of the unaligned and excluded
    runs, their QC-filter sums, and the reindexing into the fixed 28-column
    layout. */
module Filtering {
  import opened Wrappers
  import opened Table
  import opened Metrics
  import Flagstat

  /** A directory as the summarize step sees it: file name to file lines. */
  type Directory = map<string, seq<string>>

  /** The first data row of a PathSeq filter-metrics table, column name to
      cell, as the table reader leaves it before numeric coercion. */
  type MetricsRow = map<string, Cell>

  /** The flagstat file name suffix (after the sample id) that supplies a
      metric; None for metrics that do not come from a flagstat file. */
  function FlagstatSuffix(m: Metric): Option<string> {
    if m == PrimaryReads then Some(".flagstat.tsv")
    else if m == T2TAlignedPairedPrimary then Some(".qcfilt_paired.t2t_aln.flagstat.tsv")
    else if m == T2TUnalignedPairedPrimary then Some(".qcfilt_paired.t2t_unaln.flagstat.tsv")
    else if m == T2TAlignedUnpairedPrimary then Some(".qcfilt_unpaired.t2t_aln.flagstat.tsv")
    else if m == T2TUnalignedUnpairedPrimary then Some(".qcfilt_unpaired.t2t_unaln.flagstat.tsv")
    else None
  }

  const FlagstatMetrics: set<Metric> :=
    {PrimaryReads, T2TAlignedPairedPrimary, T2TUnalignedPairedPrimary,
     T2TAlignedUnpairedPrimary, T2TUnalignedUnpairedPrimary}

  /** The primary count of the flagstat file behind `m`: None when the file
      is absent or reports no primary count. */
  function ReadPrimary(dir: Directory, sample: string, m: Metric): Option<nat> {
    match FlagstatSuffix(m)
    case None => None
    case Some(suffix) =>
      var name := sample + suffix;
      if name in dir then Flagstat.ParsePrimary(dir[name]) else None
  }

  /** The primary counts of the five flagstat files of a sample. */
  datatype FlagstatCounts = FlagstatCounts(
    primary: Option<nat>,
    alignedPaired: Option<nat>,
    unalignedPaired: Option<nat>,
    alignedUnpaired: Option<nat>,
    unalignedUnpaired: Option<nat>)
  {
    /** The count of the file behind `m`; None for other metrics. */
    function Count(m: Metric): Option<nat> {
      match m
      case PrimaryReads => primary
      case T2TAlignedPairedPrimary => alignedPaired
      case T2TUnalignedPairedPrimary => unalignedPaired
      case T2TAlignedUnpairedPrimary => alignedUnpaired
      case T2TUnalignedUnpairedPrimary => unalignedUnpaired
      case _ => None
    }
  }

  /** The five flagstat files read from a directory. */
  function ReadFlagstats(dir: Directory, sample: string): FlagstatCounts {
    FlagstatCounts(ReadPrimary(dir, sample, PrimaryReads),
                   ReadPrimary(dir, sample, T2TAlignedPairedPrimary),
                   ReadPrimary(dir, sample, T2TUnalignedPairedPrimary),
                   ReadPrimary(dir, sample, T2TAlignedUnpairedPrimary),
                   ReadPrimary(dir, sample, T2TUnalignedUnpairedPrimary))
  }

  /** `collect_primary_reads`: one entry per flagstat file that exists and
      reports a primary count, plus the unaligned T2T total, which counts an
      absent paired or unpaired entry as 0. */
  function CollectPrimaryReads(fc: FlagstatCounts): (rs: map<Metric, int>)
    ensures forall m :: m in rs <==> m == T2TUnalignedTotalReads || fc.Count(m).Some?
    ensures forall m :: m in rs && m != T2TUnalignedTotalReads ==> rs[m] == fc.Count(m).value
    ensures rs[T2TUnalignedTotalReads] == fc.unalignedPaired.GetOr(0) + fc.unalignedUnpaired.GetOr(0)
  {
    var found := map m | m in FlagstatMetrics && fc.Count(m).Some? :: fc.Count(m).value as int;
    found[T2TUnalignedTotalReads :=
            Get(found, T2TUnalignedPairedPrimary).GetOr(0)
          + Get(found, T2TUnalignedUnpairedPrimary).GetOr(0)]
  }

  /** `int(s.get(col, 0))` on a coerced metrics row: a missing table, a
      missing column and a non-numeric cell all give 0. */
  function ColumnValue(table: Option<MetricsRow>, c: PathSeqCol): int
  {
    match table
    case None => 0
    case Some(row) => if ColName(c) in row then ToNumeric(row[ColName(c)], 0) else 0
  }

  /** The value of a PathSeq metric computed from the two metrics tables. */
  function PathSeqValue(unaligned: Option<MetricsRow>, excluded: Option<MetricsRow>, k: Kind, c: PathSeqCol): int {
    match k
    case Unaligned => ColumnValue(unaligned, c)
    case Excluded => ColumnValue(excluded, c)
    case QcFilter => ColumnValue(unaligned, c) + ColumnValue(excluded, c)
  }

  /** `collect_pathseq_metrics`: every kind/column pair gets a value, the
      QC-filter one being the sum of the unaligned and excluded ones. */
  function CollectPathSeqMetrics(unaligned: Option<MetricsRow>, excluded: Option<MetricsRow>): (rs: map<Metric, int>)
    ensures forall m :: m in rs <==> m.PathSeq?
    ensures forall c :: rs[PathSeq(Unaligned, c)] == ColumnValue(unaligned, c)
    ensures forall c :: rs[PathSeq(Excluded, c)] == ColumnValue(excluded, c)
    ensures forall c :: rs[PathSeq(QcFilter, c)] == rs[PathSeq(Unaligned, c)] + rs[PathSeq(Excluded, c)]
  {
    ListsComplete();
    map k, c | k in SummaryKinds && c in PathSeqCols :: PathSeq(k, c) := PathSeqValue(unaligned, excluded, k, c)
  }

  /** The inputs of the filtering summary: the flagstat counts and the two
      PathSeq metrics rows. */
  datatype FilterInputs = FilterInputs(
    flagstats: FlagstatCounts,
    unalignedMetrics: Option<MetricsRow>,
    excludedMetrics: Option<MetricsRow>)

  /** What each filtering column holds, stated metric by metric from the
      inputs; metrics the layout does not list are 0. */
  function ExpectedFilterValue(inp: FilterInputs, m: Metric): int {
    var fc := inp.flagstats;
    match m
    case PrimaryReads => fc.primary.GetOr(0)
    case T2TUnalignedPairedPrimary => fc.unalignedPaired.GetOr(0)
    case T2TUnalignedUnpairedPrimary => fc.unalignedUnpaired.GetOr(0)
    case T2TUnalignedTotalReads => fc.unalignedPaired.GetOr(0) + fc.unalignedUnpaired.GetOr(0)
    case PathSeq(k, c) => PathSeqValue(inp.unalignedMetrics, inp.excludedMetrics, k, c)
    case _ => 0
  }

  /** The two collections merged, as `{**flagstat, **pathseq}` does. */
  function Merged(inp: FilterInputs): map<Metric, int> {
    CollectPrimaryReads(inp.flagstats) + CollectPathSeqMetrics(inp.unalignedMetrics, inp.excludedMetrics)
  }

  /** The merge never lets one collection override the other: their keys are
      disjoint. */
  lemma MergedKeysDisjoint(inp: FilterInputs)
    ensures CollectPrimaryReads(inp.flagstats).Keys
         !! CollectPathSeqMetrics(inp.unalignedMetrics, inp.excludedMetrics).Keys
  {
  }

  /** After filling missing entries with 0, the merged collection holds the
      value `ExpectedFilterValue` states for every filtering metric. */
  lemma MergedAgrees(inp: FilterInputs, m: Metric)
    requires IsFilterMetric(m)
    ensures Get(Merged(inp), m).GetOr(0) == ExpectedFilterValue(inp, m)
  {
    var flagstat := CollectPrimaryReads(inp.flagstats);
    var pathseq := CollectPathSeqMetrics(inp.unalignedMetrics, inp.excludedMetrics);
    if m.PathSeq? {
      assert m in pathseq;
      assert Get(Merged(inp), m) == Some(pathseq[m]);
      match m.kind
      case QcFilter =>
        assert pathseq[m] == pathseq[PathSeq(Unaligned, m.col)] + pathseq[PathSeq(Excluded, m.col)];
      case Unaligned =>
      case Excluded =>
    } else {
      assert m !in pathseq;
      assert Get(Merged(inp), m) == Get(flagstat, m);
    }
  }

  lemma MergedAgreesAll(inp: FilterInputs)
    ensures forall m :: IsFilterMetric(m) ==> Get(Merged(inp), m).GetOr(0) == ExpectedFilterValue(inp, m)
  {
    forall m | IsFilterMetric(m)
      ensures Get(Merged(inp), m).GetOr(0) == ExpectedFilterValue(inp, m)
    {
      MergedAgrees(inp, m);
    }
  }

  /** `filtering_summary`: the two collections concatenated, reindexed into
      `FILTER_SUMMARY_ORDER` with missing entries filled with 0. The row has
      exactly the 28 layout keys in layout order, and each value is the one
      `ExpectedFilterValue` states. */
  function FilteringSummary(inp: FilterInputs): (row: seq<(Metric, int)>)
    ensures |row| == |FilterSummaryOrder()| == 28
    ensures forall i :: 0 <= i < 28 ==> row[i].0 == FilterSummaryOrder()[i]
    ensures forall i :: 0 <= i < 28 ==> row[i].1 == ExpectedFilterValue(inp, FilterSummaryOrder()[i])
  {
    FilterSummaryOrderLayout();
    MergedAgreesAll(inp);
    var merged := Merged(inp);
    seq(28, i => (LayoutAt(i), Get(merged, LayoutAt(i)).GetOr(0)))
  }

  /** The value a row holds for `m` at or after index `from`, or 0. */
  function RowValueFrom(row: seq<(Metric, int)>, m: Metric, from: nat): int
    requires from <= |row|
    decreases |row| - from
  {
    if from == |row| then 0
    else if row[from].0 == m then row[from].1
    else RowValueFrom(row, m, from + 1)
  }

  /** The value a row holds for `m`, or 0 (`row.get(key, 0)`). */
  function RowValue(row: seq<(Metric, int)>, m: Metric): int {
    RowValueFrom(row, m, 0)
  }

  /** The first entry with key `m` supplies the value. */
  lemma {:induction false} RowValueFromAt(row: seq<(Metric, int)>, m: Metric, from: nat, i: nat)
    requires from <= i < |row| && row[i].0 == m
    requires forall j :: from <= j < i ==> row[j].0 != m
    ensures RowValueFrom(row, m, from) == row[i].1
    decreases i - from
  {
    if from < i {
      RowValueFromAt(row, m, from + 1, i);
    }
  }

  /** Reading the row back gives the value `ExpectedFilterValue` states for
      every filtering metric. */
  lemma FilteringRowValues(inp: FilterInputs, m: Metric)
    requires IsFilterMetric(m)
    ensures RowValue(FilteringSummary(inp), m) == ExpectedFilterValue(inp, m)
  {
    FilterSummaryOrderLayout();
    var row := FilteringSummary(inp);
    var i := LayoutIndex(m);
    forall j | 0 <= j < i
      ensures row[j].0 != m
    {
      assert LayoutIndex(row[j].0) == j;
    }
    RowValueFromAt(row, m, 0, i);
  }

  /** The QC-filter value the row keeps for column `c` is the sum of the
      unaligned and excluded values. */
  lemma QcFilterSum(inp: FilterInputs, c: PathSeqCol)
    ensures RowValue(FilteringSummary(inp), PathSeq(QcFilter, c))
         == RowValue(FilteringSummary(inp), PathSeq(Unaligned, c))
          + RowValue(FilteringSummary(inp), PathSeq(Excluded, c))
  {
    FilteringRowValues(inp, PathSeq(QcFilter, c));
    FilteringRowValues(inp, PathSeq(Unaligned, c));
    FilteringRowValues(inp, PathSeq(Excluded, c));
    assert ExpectedFilterValue(inp, PathSeq(QcFilter, c))
        == ExpectedFilterValue(inp, PathSeq(Unaligned, c)) + ExpectedFilterValue(inp, PathSeq(Excluded, c));
  }

  /** The unaligned T2T total the row keeps is the sum of the paired and
      unpaired unaligned counts. */
  lemma T2TTotalSum(inp: FilterInputs)
    ensures RowValue(FilteringSummary(inp), T2TUnalignedTotalReads)
         == RowValue(FilteringSummary(inp), T2TUnalignedPairedPrimary)
          + RowValue(FilteringSummary(inp), T2TUnalignedUnpairedPrimary)
  {
    FilteringRowValues(inp, T2TUnalignedTotalReads);
    FilteringRowValues(inp, T2TUnalignedPairedPrimary);
    FilteringRowValues(inp, T2TUnalignedUnpairedPrimary);
    assert ExpectedFilterValue(inp, T2TUnalignedTotalReads)
        == ExpectedFilterValue(inp, T2TUnalignedPairedPrimary) + ExpectedFilterValue(inp, T2TUnalignedUnpairedPrimary);
  }

  /** The aligned T2T flagstat files are read but never reach the row: two
      sets of counts that agree on the other three files give the same
      filtering summary. */
  lemma AlignedCountsDropped(inp: FilterInputs, other: FlagstatCounts)
    requires other.primary == inp.flagstats.primary
    requires other.unalignedPaired == inp.flagstats.unalignedPaired
    requires other.unalignedUnpaired == inp.flagstats.unalignedUnpaired
    ensures FilteringSummary(FilterInputs(other, inp.unalignedMetrics, inp.excludedMetrics)) == FilteringSummary(inp)
  {
    var moved := FilterInputs(other, inp.unalignedMetrics, inp.excludedMetrics);
    var a, b := FilteringSummary(moved), FilteringSummary(inp);
    forall i | 0 <= i < 28
      ensures a[i] == b[i]
    {
      ExpectedIgnoresAligned(inp, other, LayoutAt(i));
    }
  }

  lemma ExpectedIgnoresAligned(inp: FilterInputs, other: FlagstatCounts, m: Metric)
    requires other.primary == inp.flagstats.primary
    requires other.unalignedPaired == inp.flagstats.unalignedPaired
    requires other.unalignedUnpaired == inp.flagstats.unalignedUnpaired
    ensures ExpectedFilterValue(FilterInputs(other, inp.unalignedMetrics, inp.excludedMetrics), m)
         == ExpectedFilterValue(inp, m)
  {
  }
}
