/** The flagstat reader: the "primary" row of a three-column flagstat TSV
    (`<count> <tab> <qc-failed count> <tab> <category>`). */
module Flagstat {
  import opened Wrappers
  import opened Text

  const PrimaryLabel := "primary"

  /** A line with its trailing newlines removed, as `line.rstrip('\n')`. */
  function Chomp(line: string): string {
    RStripBy(line, c => c == '\n')
  }

  /** The count a single line reports as primary: the line has at least three
      tab-separated fields, the stripped third field is `primary` and the
      stripped first field is all digits. Any other line gives None. */
  function PrimaryField(line: string): Option<nat> {
    var parts := Split(Chomp(line), '\t');
    if |parts| >= 3 && Strip(parts[2]) == PrimaryLabel then
      var count := Strip(parts[0]);
      if IsDigits(count) then Some(DigitsValue(count)) else None
    else None
  }

  /** The first value `field` finds in `lines`, scanning in order. */
  function FirstFound(lines: seq<string>, field: string -> Option<nat>): Option<nat> {
    if |lines| == 0 then None
    else if field(lines[0]).Some? then field(lines[0])
    else FirstFound(lines[1..], field)
  }

  /** The scan finds a value exactly when some line has one, and the value
      it finds is that of the first such line. */
  lemma {:induction false} FirstFoundFirst(lines: seq<string>, field: string -> Option<nat>)
    ensures FirstFound(lines, field).Some? <==> exists i :: 0 <= i < |lines| && field(lines[i]).Some?
    ensures FirstFound(lines, field).Some? ==>
              exists i :: 0 <= i < |lines| && field(lines[i]) == FirstFound(lines, field)
                && forall j :: 0 <= j < i ==> field(lines[j]).None?
  {
    if |lines| > 0 && field(lines[0]).None? {
      var tail := lines[1..];
      FirstFoundFirst(tail, field);
      assert forall j :: 1 <= j < |lines| ==> lines[j] == tail[j - 1];
      if FirstFound(tail, field).Some? {
        var i :| 0 <= i < |tail| && field(tail[i]) == FirstFound(tail, field)
                 && forall j :: 0 <= j < i ==> field(tail[j]).None?;
        assert lines[i + 1] == tail[i];
      }
    } else if |lines| > 0 {
      assert field(lines[0]) == FirstFound(lines, field);
    }
  }

  /** `parse_flagstat_primary`: the count of the first line that reports one. */
  function ParsePrimary(lines: seq<string>): Option<nat> {
    FirstFound(lines, PrimaryField)
  }

  /** A count is found exactly when some line reports one, and it is the
      count of the FIRST such line: lines before it report none. */
  lemma ParsePrimaryFirst(lines: seq<string>)
    ensures ParsePrimary(lines).Some? <==> exists i :: 0 <= i < |lines| && PrimaryField(lines[i]).Some?
    ensures ParsePrimary(lines).Some? ==>
              exists i :: 0 <= i < |lines| && PrimaryField(lines[i]) == ParsePrimary(lines)
                && forall j :: 0 <= j < i ==> PrimaryField(lines[j]).None?
  {
    FirstFoundFirst(lines, PrimaryField);
  }

  /** The flagstat row for `count` primary reads, `qcFailed` of them failing QC. */
  function PrimaryLine(count: nat, qcFailed: nat): string {
    ShowNat(count) + "\t" + ShowNat(qcFailed) + "\t" + PrimaryLabel
  }

  lemma DigitsHaveNoTab(n: nat)
    ensures '\t' !in ShowNat(n)
    ensures forall i :: 0 <= i < |ShowNat(n)| ==> !IsSpace(ShowNat(n)[i])
  {
    var s := ShowNat(n);
    assert forall i :: 0 <= i < |s| ==> IsDigit(s[i]);
  }

  /** A rendered primary row splits into its three fields. */
  lemma PrimaryLineFields(count: nat, qcFailed: nat)
    ensures Split(Chomp(PrimaryLine(count, qcFailed)), '\t')
         == [ShowNat(count), ShowNat(qcFailed), PrimaryLabel]
  {
    var line := PrimaryLine(count, qcFailed);
    var parts := [ShowNat(count), ShowNat(qcFailed), PrimaryLabel];
    DigitsHaveNoTab(count);
    DigitsHaveNoTab(qcFailed);
    assert Join(parts[2..], '\t') == PrimaryLabel;
    assert Join(parts[1..], '\t') == parts[1] + ['\t'] + PrimaryLabel;
    assert Join(parts, '\t') == line;
    assert line[|line| - 1] == 'y';
    assert Chomp(line) == line;
    SplitJoin(parts, '\t');
  }

  /** Reading a rendered primary row gives back its count. */
  lemma PrimaryLineRoundTrip(count: nat, qcFailed: nat)
    ensures PrimaryField(PrimaryLine(count, qcFailed)) == Some(count)
  {
    PrimaryLineFields(count, qcFailed);
    DigitsHaveNoTab(count);
    StripUnspaced(PrimaryLabel);
    StripUnspaced(ShowNat(count));
    DigitsValueShowNat(count);
  }

  /** A "primary" line whose count field is not all digits is skipped and the
      scan goes on with the following lines. */
  lemma NonDigitPrimarySkipped(line: string, rest: seq<string>)
    requires var parts := Split(Chomp(line), '\t');
      |parts| >= 3 && Strip(parts[2]) == PrimaryLabel && !IsDigits(Strip(parts[0]))
    ensures ParsePrimary([line] + rest) == ParsePrimary(rest)
  {
    assert ([line] + rest)[1..] == rest;
  }

  /** The first primary row decides: whatever follows it is never read. */
  lemma {:induction false} FirstPrimaryWins(before: seq<string>, count: nat, qcFailed: nat, after: seq<string>)
    requires forall j :: 0 <= j < |before| ==> PrimaryField(before[j]).None?
    ensures ParsePrimary(before + [PrimaryLine(count, qcFailed)] + after) == Some(count)
  {
    PrimaryLineRoundTrip(count, qcFailed);
    var lines := before + [PrimaryLine(count, qcFailed)] + after;
    if |before| == 0 {
      assert lines[0] == PrimaryLine(count, qcFailed);
    } else {
      assert lines[1..] == before[1..] + [PrimaryLine(count, qcFailed)] + after;
      FirstPrimaryWins(before[1..], count, qcFailed, after);
      assert PrimaryField(lines[0]).None?;
    }
  }
}
