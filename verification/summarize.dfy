/** The summarize step for one sample: the combined summary row (the
    filtering row followed by the classifier totals) and the normalized
    Kraken2 and MetaPhlAn tables. */
module Summarize {
  import opened Wrappers
  import opened Metrics
  import opened Filtering
  import Kraken
  import Metaphlan

  function PairedReportName(sample: string): string { sample + ".paired.kraken.report.txt" }
  function UnpairedReportName(sample: string): string { sample + ".unpaired.kraken.report.txt" }
  function MpaReportName(sample: string): string { sample + ".metaphlan.report.txt" }

  /** The errors that end the run: a Kraken2 report that cannot be merged
      (other than both being absent), or a MetaPhlAn report whose header
      scan raises or whose table cannot be loaded. */
  datatype SummaryError =
    | KrakenFailed(kraken: Kraken.KrakenError)
    | MetaphlanFailed(metaphlan: Metaphlan.MpaError)

  /** The Kraken2 totals as summary entries, in insertion order. */
  function KrakenEntries(t: Kraken.KrakenTotals): seq<(Metric, int)> {
    [(TotalReadsTested, t.tested), (UnclassifiedTotalK2, t.unclassified), (ClassifiedTotalK2, t.classified),
     (MicrobialTotalK2, t.microbial), (HumanTotalK2, t.human)]
  }

  /** The MetaPhlAn totals as summary entries, in insertion order. */
  function MpaEntries(t: Metaphlan.MpaTotals): seq<(Metric, int)> {
    [(TotalReadsMpa, t.total), (ClassifiedReadsMpa, t.classified), (UnclassifiedReadsMpa, t.unclassified),
     (BacterialReadsMpa, t.bacterial), (ArchaealReadsMpa, t.archaeal)]
  }

  /** The merged Kraken2 table of a classification directory. */
  function KrakenMerge(classif: Directory, sample: string): Result<seq<Kraken.TaxonCount>, Kraken.KrakenError> {
    Kraken.MergeReports(Get(classif, PairedReportName(sample)), Get(classif, UnpairedReportName(sample)))
  }

  /** The Kraken2 part of the summary from the merge result: nothing when
      neither report exists. */
  function KrakenPart(merge: Result<seq<Kraken.TaxonCount>, Kraken.KrakenError>): Result<seq<(Metric, int)>, SummaryError> {
    match merge
    case Failure(e) => if e.NoReports? then Success([]) else Failure(KrakenFailed(e))
    case Success(g) => Success(KrakenEntries(Kraken.Totals(g)))
  }

  /** The MetaPhlAn totals of a classification directory; None when the
      report is absent. */
  function MpaResult(classif: Directory, sample: string): Option<Result<Metaphlan.MpaTotals, Metaphlan.MpaError>> {
    match Get(classif, MpaReportName(sample))
    case None => None
    case Some(lines) => Some(Metaphlan.MpaSummary(lines))
  }

  /** The MetaPhlAn part of the summary: nothing when the report is absent. */
  function MpaPart(totals: Option<Result<Metaphlan.MpaTotals, Metaphlan.MpaError>>): Result<seq<(Metric, int)>, SummaryError> {
    match totals
    case None => Success([])
    case Some(Failure(e)) => Failure(MetaphlanFailed(e))
    case Some(Success(t)) => Success(MpaEntries(t))
  }

  /** Whether either Kraken2 report exists. */
  predicate HasKraken(classif: Directory, sample: string) {
    PairedReportName(sample) in classif || UnpairedReportName(sample) in classif
  }

  /** `summarize_classification`: the Kraken2 entries when a report exists,
      then the MetaPhlAn entries when its report exists. A Kraken2 error is
      raised before the MetaPhlAn report is looked at. */
  function ClassificationSummary(classif: Directory, sample: string): (r: Result<seq<(Metric, int)>, SummaryError>)
    ensures KrakenPart(KrakenMerge(classif, sample)).Failure? ==> r == KrakenPart(KrakenMerge(classif, sample)).PropagateFailure()
    ensures KrakenPart(KrakenMerge(classif, sample)).Success? && MpaPart(MpaResult(classif, sample)).Failure? ==>
              r == MpaPart(MpaResult(classif, sample)).PropagateFailure()
    ensures r.Success? ==> r.value == KrakenPart(KrakenMerge(classif, sample)).value + MpaPart(MpaResult(classif, sample)).value
  {
    var k :- KrakenPart(KrakenMerge(classif, sample));
    var m :- MpaPart(MpaResult(classif, sample));
    Success(k + m)
  }

  /** A present Kraken2 report contributes exactly the five Kraken2
      entries, an absent pair none; a present MetaPhlAn report contributes
      exactly the five MetaPhlAn entries, an absent one none. */
  lemma ClassificationShape(classif: Directory, sample: string)
    requires ClassificationSummary(classif, sample).Success?
    ensures var row := ClassificationSummary(classif, sample).value;
      && (HasKraken(classif, sample) ==> row[..5] == KrakenEntries(Kraken.Totals(KrakenMerge(classif, sample).value)))
      && |row| == (if HasKraken(classif, sample) then 5 else 0)
                + (if MpaReportName(sample) in classif then 5 else 0)
  {
  }

  /** In the Kraken2 entries of a merged pair of reports (`p` paired, `u`
      unpaired), the reads tested equal the unclassified plus the classified
      reads, and are twice the tested reads of the two reports together. */
  lemma KrakenEntriesConsistent(p: seq<Kraken.ReportRow>, u: seq<Kraken.ReportRow>)
    ensures var e := KrakenEntries(Kraken.Totals(Kraken.GroupRows(Kraken.DoubledAll(p) + Kraken.DoubledAll(u))));
      && e[0].0 == TotalReadsTested && e[1].0 == UnclassifiedTotalK2 && e[2].0 == ClassifiedTotalK2
      && e[0].1 == e[1].1 + e[2].1
      && e[0].1 == 2 * (Kraken.RowClassReads(p, Kraken.TestedIds) + Kraken.RowClassReads(u, Kraken.TestedIds))
  {
    var g := Kraken.GroupRows(Kraken.DoubledAll(p) + Kraken.DoubledAll(u));
    Kraken.TestedSplits(g);
    Kraken.MergedClassReads(p, u, Kraken.TestedIds);
  }

  // ---------------------------------------------------------------- normalized tables

  /** The normalized tables: each count is divided by `perMillionOf`
      millions of reads (the division itself is floating point and not
      part of the model). */
  datatype Tables = Tables(
    perMillionOf: int,
    kraken: Option<seq<Kraken.TaxonCount>>,
    metaphlan: Option<seq<Metaphlan.MpaRow>>)

  /** `write_normalized_tables`: nothing without positive primary reads;
      otherwise a Kraken2 table when a report exists and merges, and a
      MetaPhlAn table when the report exists and loads. A failure only
      skips its table. */
  function NormalizedTables(classif: Directory, sample: string, primaryReads: int): (t: Tables)
    ensures t.perMillionOf == primaryReads
    ensures primaryReads <= 0 ==> t.kraken.None? && t.metaphlan.None?
    ensures primaryReads > 0 ==>
              && (t.kraken.Some? <==> HasKraken(classif, sample) && KrakenMerge(classif, sample).Success?)
              && (t.kraken.Some? ==> t.kraken.value == KrakenMerge(classif, sample).value)
    ensures primaryReads > 0 ==>
              && (t.metaphlan.Some? <==> MpaReportName(sample) in classif
                                         && Metaphlan.LoadTable(classif[MpaReportName(sample)]).Success?)
              && (t.metaphlan.Some? ==> t.metaphlan.value == Metaphlan.LoadTable(classif[MpaReportName(sample)]).value)
  {
    if primaryReads <= 0 then Tables(primaryReads, None, None)
    else
      var kraken :=
        if HasKraken(classif, sample) then
          match KrakenMerge(classif, sample)
          case Success(g) => Some(g)
          case Failure(_) => None
        else None;
      var metaphlan :=
        match Get(classif, MpaReportName(sample))
        case None => None
        case Some(lines) =>
          match Metaphlan.LoadTable(lines)
          case Success(rows) => Some(rows)
          case Failure(_) => None;
      Tables(primaryReads, kraken, metaphlan)
  }

  // ---------------------------------------------------------------- main

  /** Everything the step reads for one sample. The PathSeq metrics rows
      are given as already read from their files. */
  datatype SampleInputs = SampleInputs(
    sample: string,
    filterStats: Directory,
    unalignedMetrics: Option<MetricsRow>,
    excludedMetrics: Option<MetricsRow>,
    classification: Directory)

  function FilterInputsOf(inp: SampleInputs): FilterInputs {
    FilterInputs(ReadFlagstats(inp.filterStats, inp.sample), inp.unalignedMetrics, inp.excludedMetrics)
  }

  /** What the step writes: the summary row and the normalized tables. */
  datatype Outputs = Outputs(summary: seq<(Metric, int)>, tables: Tables)

  /** `main`: the filtering row, its PRIMARY_READS value as the
      normalization denominator, the classification entries appended, then
      the tables. A classification error ends the run with nothing written. */
  function Run(inp: SampleInputs): (r: Result<Outputs, SummaryError>)
    ensures r.Success? <==> ClassificationSummary(inp.classification, inp.sample).Success?
    ensures r.Failure? ==> r.error == ClassificationSummary(inp.classification, inp.sample).error
  {
    var filt := FilteringSummary(FilterInputsOf(inp));
    var primary := RowValue(filt, PrimaryReads);
    var cls :- ClassificationSummary(inp.classification, inp.sample);
    Success(Outputs(filt + cls, NormalizedTables(inp.classification, inp.sample, primary)))
  }

  /** The summary row is the 28-column filtering row followed by the
      classification entries, and the tables are normalized by the
      PRIMARY_READS count of the sample's flagstat file (0 when absent). */
  lemma RunOutputs(inp: SampleInputs)
    ensures Run(inp).Success? ==>
              && Run(inp).value.summary[..28] == FilteringSummary(FilterInputsOf(inp))
              && Run(inp).value.summary[28..] == ClassificationSummary(inp.classification, inp.sample).value
              && Run(inp).value.tables.perMillionOf == ReadPrimary(inp.filterStats, inp.sample, PrimaryReads).GetOr(0)
  {
    FilteringRowValues(FilterInputsOf(inp), PrimaryReads);
  }

  /** Once the summary is written, every classifier report present yields
      its normalized table (given positive primary reads): the merges that
      could fail have already succeeded. */
  lemma TablesForPresentReports(inp: SampleInputs)
    ensures Run(inp).Success? && Run(inp).value.tables.perMillionOf > 0 ==>
              && (Run(inp).value.tables.kraken.Some? <==> HasKraken(inp.classification, inp.sample))
              && (Run(inp).value.tables.metaphlan.Some? <==> MpaReportName(inp.sample) in inp.classification)
  {
    var classif, sample := inp.classification, inp.sample;
    if Run(inp).Success? {
      assert ClassificationSummary(classif, sample).Success?;
      KrakenPartMerged(classif, sample);
      MpaPartLoaded(classif, sample);
    }
  }

  /** A Kraken2 part that did not fail comes from a merge that succeeded
      whenever a report exists. */
  lemma KrakenPartMerged(classif: Directory, sample: string)
    ensures KrakenPart(KrakenMerge(classif, sample)).Success? && HasKraken(classif, sample) ==>
              KrakenMerge(classif, sample).Success?
  {
  }

  /** A MetaPhlAn part that did not fail comes from a table that loads
      whenever the report exists. */
  lemma MpaPartLoaded(classif: Directory, sample: string)
    ensures MpaPart(MpaResult(classif, sample)).Success? && MpaReportName(sample) in classif ==>
              Metaphlan.LoadTable(classif[MpaReportName(sample)]).Success?
  {
  }

  predicate IsKrakenMetric(m: Metric) {
    m.TotalReadsTested? || m.UnclassifiedTotalK2? || m.ClassifiedTotalK2? || m.MicrobialTotalK2? || m.HumanTotalK2?
  }

  predicate IsMpaMetric(m: Metric) {
    m.TotalReadsMpa? || m.ClassifiedReadsMpa? || m.UnclassifiedReadsMpa? || m.BacterialReadsMpa? || m.ArchaealReadsMpa?
  }

  predicate IsClassificationMetric(m: Metric) {
    IsKrakenMetric(m) || IsMpaMetric(m)
  }

  /** Entries whose columns are distinct and satisfy `p`. */
  predicate DistinctColumns(row: seq<(Metric, int)>, p: Metric -> bool) {
    && (forall i :: 0 <= i < |row| ==> p(row[i].0))
    && (forall i, j :: 0 <= i < j < |row| ==> row[i].0 != row[j].0)
  }

  lemma KrakenPartColumns(merge: Result<seq<Kraken.TaxonCount>, Kraken.KrakenError>)
    requires KrakenPart(merge).Success?
    ensures DistinctColumns(KrakenPart(merge).value, IsKrakenMetric)
  {
  }

  lemma MpaPartColumns(totals: Option<Result<Metaphlan.MpaTotals, Metaphlan.MpaError>>)
    requires MpaPart(totals).Success?
    ensures DistinctColumns(MpaPart(totals).value, IsMpaMetric)
  {
  }

  /** Kraken2 columns followed by MetaPhlAn columns stay distinct. */
  lemma ConcatColumns(k: seq<(Metric, int)>, m: seq<(Metric, int)>)
    requires DistinctColumns(k, IsKrakenMetric) && DistinctColumns(m, IsMpaMetric)
    ensures DistinctColumns(k + m, IsClassificationMetric)
  {
    var row := k + m;
    forall i | 0 <= i < |row| ensures IsClassificationMetric(row[i].0) {
      if i >= |k| { assert row[i] == m[i - |k|]; }
    }
    forall i, j | 0 <= i < j < |row| ensures row[i].0 != row[j].0 {
      if j < |k| {
        assert row[i] == k[i] && row[j] == k[j];
      } else if i < |k| {
        assert row[i] == k[i] && row[j] == m[j - |k|];
      } else {
        assert row[i] == m[i - |k|] && row[j] == m[j - |k|];
      }
    }
  }

  /** The classification entries name distinct columns, none of them a
      filtering column. */
  lemma ClassificationColumns(classif: Directory, sample: string)
    ensures ClassificationSummary(classif, sample).Success? ==>
              DistinctColumns(ClassificationSummary(classif, sample).value, IsClassificationMetric)
  {
    if ClassificationSummary(classif, sample).Success? {
      KrakenPartColumns(KrakenMerge(classif, sample));
      MpaPartColumns(MpaResult(classif, sample));
      ConcatColumns(KrakenPart(KrakenMerge(classif, sample)).value, MpaPart(MpaResult(classif, sample)).value);
    }
  }

  /** The 28 layout columns followed by classification columns are all
      distinct. */
  lemma LayoutThenClassification(filt: seq<(Metric, int)>, cls: seq<(Metric, int)>, i: nat, j: nat)
    requires |filt| == 28 && forall k :: 0 <= k < 28 ==> filt[k].0 == LayoutAt(k)
    requires DistinctColumns(cls, IsClassificationMetric)
    requires i < j < |filt + cls|
    ensures (filt + cls)[i].0 != (filt + cls)[j].0
  {
    var row := filt + cls;
    if j < 28 {
      FilterSummaryOrderDistinct(i, j);
      assert row[i] == filt[i] && row[j] == filt[j];
    } else if i < 28 {
      assert row[i] == filt[i] && row[j] == cls[j - 28];
      assert IsFilterMetric(LayoutAt(i));
      assert IsClassificationMetric(row[j].0);
    } else {
      assert row[i] == cls[i - 28] && row[j] == cls[j - 28];
    }
  }

  /** No column appears twice in the summary row, neither as a metric nor
      as a column header. */
  lemma SummaryColumnsDistinct(inp: SampleInputs, i: nat, j: nat)
    ensures Run(inp).Success? && i < j < |Run(inp).value.summary| ==>
              && Run(inp).value.summary[i].0 != Run(inp).value.summary[j].0
              && Name(Run(inp).value.summary[i].0) != Name(Run(inp).value.summary[j].0)
  {
    if Run(inp).Success? && i < j < |Run(inp).value.summary| {
      NameInjective(Run(inp).value.summary[i].0, Run(inp).value.summary[j].0);
      var filt := FilteringSummary(FilterInputsOf(inp));
      var cls := ClassificationSummary(inp.classification, inp.sample).value;
      assert Run(inp).value.summary == filt + cls;
      ClassificationColumns(inp.classification, inp.sample);
      LayoutThenClassification(filt, cls, i, j);
    }
  }
}
