/** The named integer metrics of the per-sample summary row and the fixed
    column layout of its filtering part. */
module Metrics {

  /** The PathSeq filter-metrics columns, `PATHSEQ_COLS`, in order. */
  datatype PathSeqCol =
    | PrimaryReadsCol
    | ReadsAfterPrealignedHostFilter
    | ReadsAfterQualityAndComplexityFilter
    | ReadsAfterHostFilter
    | ReadsAfterDeduplication
    | FinalPairedReads
    | FinalUnpairedReads
    | FinalTotalReads

  /** Which PathSeq run a metric comes from; `QcFilter` is the sum of the other two. */
  datatype Kind = QcFilter | Unaligned | Excluded

  /** Every key the summary row can carry. */
  datatype Metric =
    | PrimaryReads
    | T2TAlignedPairedPrimary
    | T2TUnalignedPairedPrimary
    | T2TAlignedUnpairedPrimary
    | T2TUnalignedUnpairedPrimary
    | T2TUnalignedTotalReads
    | PathSeq(kind: Kind, col: PathSeqCol)
    | TotalReadsTested
    | UnclassifiedTotalK2
    | ClassifiedTotalK2
    | MicrobialTotalK2
    | HumanTotalK2
    | TotalReadsMpa
    | ClassifiedReadsMpa
    | UnclassifiedReadsMpa
    | BacterialReadsMpa
    | ArchaealReadsMpa

  const PathSeqCols: seq<PathSeqCol> := [
    PrimaryReadsCol, ReadsAfterPrealignedHostFilter, ReadsAfterQualityAndComplexityFilter,
    ReadsAfterHostFilter, ReadsAfterDeduplication, FinalPairedReads, FinalUnpairedReads,
    FinalTotalReads
  ]

  /** The kinds in the order their columns appear in the summary row. */
  const SummaryKinds: seq<Kind> := [QcFilter, Unaligned, Excluded]

  /** Column `i` of `FILTER_SUMMARY_ORDER`, built the way the layout is:
      the primary read count, then kind-major kind/column pairs, then the
      three T2T unaligned counts. Indices outside the layout give the primary
      read count. */
  function LayoutAt(i: int): Metric {
    if 1 <= i <= 24 then PathSeq(SummaryKinds[(i - 1) / 8], PathSeqCols[(i - 1) % 8])
    else if i == 25 then T2TUnalignedTotalReads
    else if i == 26 then T2TUnalignedPairedPrimary
    else if i == 27 then T2TUnalignedUnpairedPrimary
    else PrimaryReads
  }

  /** `FILTER_SUMMARY_ORDER`. A function rather than a `const`: a constant
      of another module used inside a quantifier there makes this Dafny
      version's verifier fail with an internal error. */
  function FilterSummaryOrder(): seq<Metric>
  {
    seq(28, LayoutAt)
  }

  function KindIndex(k: Kind): (n: nat)
    ensures n < 3 && SummaryKinds[n] == k
  {
    match k
    case QcFilter => 0
    case Unaligned => 1
    case Excluded => 2
  }

  function ColIndex(c: PathSeqCol): (n: nat)
    ensures n < 8 && PathSeqCols[n] == c
  {
    match c
    case PrimaryReadsCol => 0
    case ReadsAfterPrealignedHostFilter => 1
    case ReadsAfterQualityAndComplexityFilter => 2
    case ReadsAfterHostFilter => 3
    case ReadsAfterDeduplication => 4
    case FinalPairedReads => 5
    case FinalUnpairedReads => 6
    case FinalTotalReads => 7
  }

  /** Where a filtering metric sits in the layout; -1 for the others. */
  function LayoutIndex(m: Metric): int {
    match m
    case PrimaryReads => 0
    case PathSeq(k, c) => 1 + 8 * KindIndex(k) + ColIndex(c)
    case T2TUnalignedTotalReads => 25
    case T2TUnalignedPairedPrimary => 26
    case T2TUnalignedUnpairedPrimary => 27
    case _ => -1
  }

  /** `PATHSEQ_COLS` and the kinds list each constructor once. */
  lemma ListsComplete()
    ensures forall c :: c in PathSeqCols
    ensures forall k :: k in SummaryKinds
    ensures forall j :: 0 <= j < 8 ==> ColIndex(PathSeqCols[j]) == j
    ensures forall j :: 0 <= j < 3 ==> KindIndex(SummaryKinds[j]) == j
  {
    forall c
      ensures c in PathSeqCols
    {
      assert PathSeqCols[ColIndex(c)] == c;
    }
    forall k
      ensures k in SummaryKinds
    {
      assert SummaryKinds[KindIndex(k)] == k;
    }
  }

  /** The column header written for a PathSeq column. */
  function ColName(c: PathSeqCol): string {
    match c
    case PrimaryReadsCol => "PRIMARY_READS"
    case ReadsAfterPrealignedHostFilter => "READS_AFTER_PREALIGNED_HOST_FILTER"
    case ReadsAfterQualityAndComplexityFilter => "READS_AFTER_QUALITY_AND_COMPLEXITY_FILTER"
    case ReadsAfterHostFilter => "READS_AFTER_HOST_FILTER"
    case ReadsAfterDeduplication => "READS_AFTER_DEDUPLICATION"
    case FinalPairedReads => "FINAL_PAIRED_READS"
    case FinalUnpairedReads => "FINAL_UNPAIRED_READS"
    case FinalTotalReads => "FINAL_TOTAL_READS"
  }

  function KindName(k: Kind): string {
    match k
    case QcFilter => "QCFILTER"
    case Unaligned => "UNALIGNED"
    case Excluded => "EXCLUDED"
  }

  /** The column header written for a metric in `<sample>.summary.tsv`. */
  function Name(m: Metric): string {
    match m
    case PrimaryReads => "PRIMARY_READS"
    case T2TAlignedPairedPrimary => "T2T_ALIGNED_PAIRED_PRIMARY"
    case T2TUnalignedPairedPrimary => "T2T_UNALIGNED_PAIRED_PRIMARY"
    case T2TAlignedUnpairedPrimary => "T2T_ALIGNED_UNPAIRED_PRIMARY"
    case T2TUnalignedUnpairedPrimary => "T2T_UNALIGNED_UNPAIRED_PRIMARY"
    case T2TUnalignedTotalReads => "T2T_UNALIGNED_TOTAL_READS"
    case PathSeq(k, c) => KindName(k) + "_" + ColName(c)
    case TotalReadsTested => "TOTAL_READS_TESTED"
    case UnclassifiedTotalK2 => "UNCLASSIFIED_TOTAL_K2"
    case ClassifiedTotalK2 => "CLASSIFIED_TOTAL_K2"
    case MicrobialTotalK2 => "MICROBIAL_TOTAL_K2"
    case HumanTotalK2 => "HUMAN_TOTAL_K2"
    case TotalReadsMpa => "TOTAL_READS_MPA"
    case ClassifiedReadsMpa => "CLASSIFIED_READS_MPA"
    case UnclassifiedReadsMpa => "UNCLASSIFIED_READS_MPA"
    case BacterialReadsMpa => "BACTERIAL_READS_MPA"
    case ArchaealReadsMpa => "ARCHAEAL_READS_MPA"
  }

  /** The first three letters of a kind's name, which tell the kinds apart. */
  function KindTag(k: Kind): string {
    match k
    case QcFilter => "QCF"
    case Unaligned => "UNA"
    case Excluded => "EXC"
  }

  lemma KindNameTag(k: Kind)
    ensures |KindName(k)| >= 3 && KindName(k)[..3] == KindTag(k)
  {
    match k
    case QcFilter => assert KindName(k) == "QCFILTER";
    case Unaligned => assert KindName(k) == "UNALIGNED";
    case Excluded => assert KindName(k) == "EXCLUDED";
  }

  /** The fixed headers of the filtering row. */
  predicate FilteringPlain(m: Metric) {
    m.PrimaryReads? || m.T2TAlignedPairedPrimary? || m.T2TUnalignedPairedPrimary?
    || m.T2TAlignedUnpairedPrimary? || m.T2TUnalignedUnpairedPrimary? || m.T2TUnalignedTotalReads?
  }

  lemma FilteringPrefix(m: Metric, k: Kind)
    requires FilteringPlain(m)
    ensures |Name(m)| >= 3 && Name(m)[..3] != KindTag(k)
  {
    var n := Name(m);
    match m {
      case PrimaryReads => assert n[0] == 'P' && n[2] == 'I';
      case T2TAlignedPairedPrimary => assert n[0] == 'T' && n[2] == 'T';
      case T2TUnalignedPairedPrimary => assert n[0] == 'T' && n[2] == 'T';
      case T2TAlignedUnpairedPrimary => assert n[0] == 'T' && n[2] == 'T';
      case T2TUnalignedUnpairedPrimary => assert n[0] == 'T' && n[2] == 'T';
      case T2TUnalignedTotalReads => assert n[0] == 'T' && n[2] == 'T';
    }
    assert n[..3][0] == n[0] && n[..3][2] == n[2];
  }

  lemma ClassifierPrefix(m: Metric, k: Kind)
    requires !m.PathSeq? && !FilteringPlain(m)
    ensures |Name(m)| >= 3 && Name(m)[..3] != KindTag(k)
  {
    var n := Name(m);
    match m {
      case TotalReadsTested => assert n[0] == 'T' && n[2] == 'T';
      case UnclassifiedTotalK2 => assert n[0] == 'U' && n[2] == 'C';
      case ClassifiedTotalK2 => assert n[0] == 'C' && n[2] == 'A';
      case MicrobialTotalK2 => assert n[0] == 'M' && n[2] == 'C';
      case HumanTotalK2 => assert n[0] == 'H' && n[2] == 'M';
      case TotalReadsMpa => assert n[0] == 'T' && n[2] == 'T';
      case ClassifiedReadsMpa => assert n[0] == 'C' && n[2] == 'A';
      case UnclassifiedReadsMpa => assert n[0] == 'U' && n[2] == 'C';
      case BacterialReadsMpa => assert n[0] == 'B' && n[2] == 'C';
      case ArchaealReadsMpa => assert n[0] == 'A' && n[2] == 'C';
    }
    assert n[..3][0] == n[0] && n[..3][2] == n[2];
  }

  /** No name outside the PathSeq columns starts like a kind. */
  lemma PlainPrefix(m: Metric, k: Kind)
    requires !m.PathSeq?
    ensures |Name(m)| >= 3 && Name(m)[..3] != KindTag(k)
  {
    if FilteringPlain(m) {
      FilteringPrefix(m, k);
    } else {
      ClassifierPrefix(m, k);
    }
  }

  /** A string split after a prefix of known length. */
  lemma ConcatCancel(a1: string, b1: string, a2: string, b2: string)
    requires |a1| == |a2| && a1 + b1 == a2 + b2
    ensures a1 == a2 && b1 == b2
  {
    assert a1 == (a1 + b1)[..|a1|] && a2 == (a2 + b2)[..|a1|];
    assert b1 == (a1 + b1)[|a1|..] && b2 == (a2 + b2)[|a1|..];
  }

  lemma ColNameInjective(c1: PathSeqCol, c2: PathSeqCol)
    ensures ColName(c1) == ColName(c2) ==> c1 == c2
  {
  }

  lemma KindTagInjective(k1: Kind, k2: Kind)
    ensures KindTag(k1) == KindTag(k2) ==> k1 == k2
  {
  }

  lemma PrefixOfConcat(x: string, y: string, m: nat)
    requires m <= |x|
    ensures (x + y)[..m] == x[..m]
  {
  }

  /** Two PathSeq headers agree only for the same kind and column. */
  lemma PathSeqNameInjective(k1: Kind, c1: PathSeqCol, k2: Kind, c2: PathSeqCol)
    ensures Name(PathSeq(k1, c1)) == Name(PathSeq(k2, c2)) ==> k1 == k2 && c1 == c2
  {
    var a1, b1 := KindName(k1) + "_", ColName(c1);
    var a2, b2 := KindName(k2) + "_", ColName(c2);
    if a1 + b1 == a2 + b2 {
      KindNameTag(k1);
      KindNameTag(k2);
      PrefixOfConcat(KindName(k1), "_", 3);
      PrefixOfConcat(KindName(k2), "_", 3);
      PrefixOfConcat(a1, b1, 3);
      PrefixOfConcat(a2, b2, 3);
      KindTagInjective(k1, k2);
      ConcatCancel(a1, b1, a2, b2);
      ColNameInjective(c1, c2);
    }
  }

  /** The fixed headers are pairwise distinct. */
  lemma PlainNameInjective(a: Metric, b: Metric)
    requires !a.PathSeq? && !b.PathSeq?
    ensures Name(a) == Name(b) ==> a == b
  {
  }

  /** Distinct metrics get distinct column headers. */
  lemma NameInjective(a: Metric, b: Metric)
    ensures Name(a) == Name(b) ==> a == b
  {
    if a.PathSeq? && b.PathSeq? {
      PathSeqNameInjective(a.kind, a.col, b.kind, b.col);
    } else if a.PathSeq? {
      KindNameTag(a.kind);
      PlainPrefix(b, a.kind);
      assert Name(a)[..3] == KindTag(a.kind);
    } else if b.PathSeq? {
      KindNameTag(b.kind);
      PlainPrefix(a, b.kind);
      assert Name(b)[..3] == KindTag(b.kind);
    } else {
      PlainNameInjective(a, b);
    }
  }

  /** The filtering metrics: the ones `FILTER_SUMMARY_ORDER` lists. */
  predicate IsFilterMetric(m: Metric) {
    m.PrimaryReads? || m.PathSeq? || m.T2TUnalignedTotalReads?
    || m.T2TUnalignedPairedPrimary? || m.T2TUnalignedUnpairedPrimary?
  }

  /** `LayoutIndex` inverts the layout: the layout lists every filtering
      metric exactly once and nothing else, the primary read count first. */
  lemma FilterSummaryOrderLayout()
    ensures |FilterSummaryOrder()| == 28
    ensures FilterSummaryOrder()[0] == PrimaryReads
    ensures forall i :: 0 <= i < 28 ==> LayoutIndex(FilterSummaryOrder()[i]) == i
    ensures forall m :: IsFilterMetric(m) ==> 0 <= LayoutIndex(m) < 28 && FilterSummaryOrder()[LayoutIndex(m)] == m
    ensures forall m :: m in FilterSummaryOrder() <==> IsFilterMetric(m)
  {
    ListsComplete();
    forall i | 0 <= i < 28
      ensures LayoutIndex(LayoutAt(i)) == i
    {
      if 1 <= i <= 24 {
        var q, r := (i - 1) / 8, (i - 1) % 8;
        assert i == 1 + 8 * q + r;
      }
    }
    forall m | IsFilterMetric(m)
      ensures 0 <= LayoutIndex(m) < 28 && LayoutAt(LayoutIndex(m)) == m
    {
      if m.PathSeq? {
        var i := LayoutIndex(m);
        assert (i - 1) / 8 == KindIndex(m.kind) && (i - 1) % 8 == ColIndex(m.col);
      }
    }
    forall m | m in FilterSummaryOrder()
      ensures IsFilterMetric(m)
    {
      var i :| 0 <= i < 28 && FilterSummaryOrder()[i] == m;
      assert LayoutIndex(m) == i;
    }
  }

  /** No metric appears twice in the layout. */
  lemma FilterSummaryOrderDistinct(i: int, j: int)
    requires 0 <= i < 28 && 0 <= j < 28 && i != j
    ensures FilterSummaryOrder()[i] != FilterSummaryOrder()[j]
  {
    FilterSummaryOrderLayout();
  }
}
