/** MetaPhlAn reports: the totals read from the `#` header block, the
    report table, and the kingdom read sums the summary row takes from it. */
module Metaphlan {
  import opened Wrappers
  import opened Text
  import opened Table

  // ---------------------------------------------------------------- header

  const ReadsProcessedMarker := "reads processed"
  const ClassifiedPrefix := "#estimated_reads_mapped_to_known_clades:"

  /** The characters `line.strip('# \n')` removes from both ends. */
  const HeaderStripChars: set<char> := {'#', ' ', '\n'}

  /** The totals the header block supplies; both start at 0. */
  datatype MpaHeader = MpaHeader(totalReads: nat, classifiedReads: int)

  /** Token `i` starts "N reads processed…" with all three tokens present. */
  predicate MatchesAt(parts: seq<string>, i: nat) {
    i + 2 < |parts| && IsDigits(parts[i]) && parts[i + 1] == "reads" && StartsWith(parts[i + 2], "processed")
  }

  /** The read count of the first token from `i` on that starts the
      pattern, or None. */
  function ScanProcessed(parts: seq<string>, i: nat): (r: Option<nat>)
    requires i <= |parts|
    decreases |parts| - i
  {
    if i == |parts| then None
    else if MatchesAt(parts, i) then Some(DigitsValue(parts[i]))
    else ScanProcessed(parts, i + 1)
  }

  /** The scan finds a count exactly when some token from `i` on starts
      the pattern, and the count is that of the first such token. */
  lemma {:induction false} ScanProcessedFirst(parts: seq<string>, i: nat)
    requires i <= |parts|
    ensures ScanProcessed(parts, i).Some? <==> exists j :: i <= j < |parts| && MatchesAt(parts, j)
    ensures ScanProcessed(parts, i).Some? ==>
              exists j :: i <= j < |parts| && MatchesAt(parts, j)
                && ScanProcessed(parts, i).value == DigitsValue(parts[j])
                && forall l :: i <= l < j ==> !MatchesAt(parts, l)
    decreases |parts| - i
  {
    if i < |parts| {
      if MatchesAt(parts, i) {
        assert ScanProcessed(parts, i) == Some(DigitsValue(parts[i]));
      } else {
        ScanProcessedFirst(parts, i + 1);
        assert ScanProcessed(parts, i) == ScanProcessed(parts, i + 1);
        if ScanProcessed(parts, i + 1).Some? {
          var j :| i + 1 <= j < |parts| && MatchesAt(parts, j)
                   && ScanProcessed(parts, i + 1).value == DigitsValue(parts[j])
                   && forall l :: i + 1 <= l < j ==> !MatchesAt(parts, l);
          assert forall l :: i <= l < j ==> !MatchesAt(parts, l);
        }
      }
    }
  }

  /** Python's `IndexError` from reading `parts[index]` past the end. */
  datatype HeaderError = TokenOutOfRange(index: nat)

  /** The token loop exactly as written: `parts[i+1]` and `parts[i+2]` are
      read without a bounds check once the earlier tests pass. */
  function ScanProcessedAsWritten(parts: seq<string>, i: nat): Result<Option<nat>, HeaderError>
    requires i <= |parts|
    decreases |parts| - i
  {
    if i == |parts| then Success(None)
    else if !IsDigits(parts[i]) then ScanProcessedAsWritten(parts, i + 1)
    else if i + 1 >= |parts| then Failure(TokenOutOfRange(i + 1))
    else if parts[i + 1] != "reads" then ScanProcessedAsWritten(parts, i + 1)
    else if i + 2 >= |parts| then Failure(TokenOutOfRange(i + 2))
    else if StartsWith(parts[i + 2], "processed") then Success(Some(DigitsValue(parts[i])))
    else ScanProcessedAsWritten(parts, i + 1)
  }

  /** Where the loop as written does not raise, it finds what the
      bounds-checked scan finds. */
  lemma {:induction false} ScanProcessedAgrees(parts: seq<string>, i: nat)
    requires i <= |parts|
    requires ScanProcessedAsWritten(parts, i).Success?
    ensures ScanProcessedAsWritten(parts, i).value == ScanProcessed(parts, i)
    decreases |parts| - i
  {
    if i < |parts| && !MatchesAt(parts, i) {
      ScanProcessedAgrees(parts, i + 1);
    }
  }

  /** A count token at the end of the line, as in "#reads processed 100",
      makes the loop as written read past the last token. */
  lemma TrailingCountRaises()
    ensures ScanProcessedAsWritten(["reads", "processed", "100"], 0) == Failure(TokenOutOfRange(3))
    ensures ScanProcessed(["reads", "processed", "100"], 0) == None
    ensures ScanProcessedAsWritten(["reads", "processed", "100", "x"], 0) == Success(None)
  {
    assert !IsDigits("reads") by { assert "reads"[0] == 'r'; }
    assert !IsDigits("processed") by { assert "processed"[0] == 'p'; }
    assert IsDigits("100");
    assert !IsDigits("x") by { assert "x"[0] == 'x'; }
    var p := ["reads", "processed", "100", "x"];
    assert p[3] != "reads";
    assert ScanProcessedAsWritten(p, 3) == Success(None);
  }

  /** The new total a "reads processed" line sets, or None. */
  function ProcessedCount(line: string): Option<nat> {
    if Contains(line, ReadsProcessedMarker) then ScanProcessed(Words(StripChars(line, HeaderStripChars)), 0)
    else None
  }

  /** The new classified count an `#estimated_reads_mapped_to_known_clades:`
      line sets: `int()` of the text after the first colon, or None when
      that text is not an integer (the `except` keeps the old value). */
  function ClassifiedCount(line: string): Option<int> {
    if StartsWith(line, ClassifiedPrefix) then
      assert line[|ClassifiedPrefix| - 1] == ':';
      var parts := Split(line, ':');
      ParseInt(parts[1])
    else None
  }

  /** One header line applied to the running totals. */
  function HeaderLine(h: MpaHeader, line: string): MpaHeader
  {
    MpaHeader(ProcessedCount(line).GetOr(h.totalReads), ClassifiedCount(line).GetOr(h.classifiedReads))
  }

  /** The header block is read line by line and ends at the first line not
      starting with '#'. */
  function HeaderFrom(lines: seq<string>, h: MpaHeader): MpaHeader {
    if |lines| == 0 || !StartsWith(lines[0], "#") then h
    else HeaderFrom(lines[1..], HeaderLine(h, lines[0]))
  }

  function ParseHeader(lines: seq<string>): MpaHeader {
    HeaderFrom(lines, MpaHeader(0, 0))
  }

  /** Nothing from the first line without '#' on is read. */
  lemma {:induction false} HeaderStopsAtData(head: seq<string>, line: string, rest: seq<string>, h: MpaHeader)
    requires forall i :: 0 <= i < |head| ==> StartsWith(head[i], "#")
    requires !StartsWith(line, "#")
    ensures HeaderFrom(head + [line] + rest, h) == HeaderFrom(head, h)
  {
    if |head| == 0 {
      assert (head + [line] + rest)[0] == line;
    } else {
      assert (head + [line] + rest)[1..] == head[1..] + [line] + rest;
      HeaderStopsAtData(head[1..], line, rest, HeaderLine(h, head[0]));
    }
  }

  /** Reading one more header line after a block of header lines. */
  lemma {:induction false} HeaderFromSnoc(lines: seq<string>, line: string, h: MpaHeader)
    requires forall i :: 0 <= i < |lines| ==> StartsWith(lines[i], "#")
    requires StartsWith(line, "#")
    ensures HeaderFrom(lines + [line], h) == HeaderLine(HeaderFrom(lines, h), line)
  {
    if |lines| == 0 {
      assert (lines + [line])[1..] == [];
    } else {
      assert (lines + [line])[1..] == lines[1..] + [line];
      HeaderFromSnoc(lines[1..], line, HeaderLine(h, lines[0]));
    }
  }

  /** Within a block of header lines, each total is set by the last line
      that sets it, and keeps its starting value when no line does. */
  lemma {:induction false} HeaderLastWins(lines: seq<string>, h: MpaHeader)
    requires forall i :: 0 <= i < |lines| ==> StartsWith(lines[i], "#")
    ensures (forall i :: 0 <= i < |lines| ==> ClassifiedCount(lines[i]).None?) ==>
              HeaderFrom(lines, h).classifiedReads == h.classifiedReads
    ensures forall i :: 0 <= i < |lines| && ClassifiedCount(lines[i]).Some? &&
                        (forall j :: i < j < |lines| ==> ClassifiedCount(lines[j]).None?) ==>
              HeaderFrom(lines, h).classifiedReads == ClassifiedCount(lines[i]).value
    ensures (forall i :: 0 <= i < |lines| ==> ProcessedCount(lines[i]).None?) ==>
              HeaderFrom(lines, h).totalReads == h.totalReads
    ensures forall i :: 0 <= i < |lines| && ProcessedCount(lines[i]).Some? &&
                        (forall j :: i < j < |lines| ==> ProcessedCount(lines[j]).None?) ==>
              HeaderFrom(lines, h).totalReads == ProcessedCount(lines[i]).value
  {
    if |lines| > 0 {
      var init, line := lines[..|lines| - 1], lines[|lines| - 1];
      assert lines == init + [line];
      HeaderFromSnoc(init, line, h);
      HeaderLastWins(init, h);
    }
  }

  /** `ParseHeader`: CLASSIFIED and TOTAL come from the last line setting
      them before the first line without '#', and are 0 when there is none. */
  lemma ParseHeaderLastWins(head: seq<string>, rest: seq<string>)
    requires forall i :: 0 <= i < |head| ==> StartsWith(head[i], "#")
    requires |rest| == 0 || !StartsWith(rest[0], "#")
    ensures (forall i :: 0 <= i < |head| ==> ClassifiedCount(head[i]).None?) ==>
              ParseHeader(head + rest).classifiedReads == 0
    ensures forall i :: 0 <= i < |head| && ClassifiedCount(head[i]).Some? &&
                        (forall j :: i < j < |head| ==> ClassifiedCount(head[j]).None?) ==>
              ParseHeader(head + rest).classifiedReads == ClassifiedCount(head[i]).value
    ensures (forall i :: 0 <= i < |head| ==> ProcessedCount(head[i]).None?) ==>
              ParseHeader(head + rest).totalReads == 0
    ensures forall i :: 0 <= i < |head| && ProcessedCount(head[i]).Some? &&
                        (forall j :: i < j < |head| ==> ProcessedCount(head[j]).None?) ==>
              ParseHeader(head + rest).totalReads == ProcessedCount(head[i]).value
  {
    if |rest| == 0 {
      assert head + rest == head;
    } else {
      assert head + rest == head + [rest[0]] + rest[1..];
      HeaderStopsAtData(head, rest[0], rest[1..], MpaHeader(0, 0));
    }
    HeaderLastWins(head, MpaHeader(0, 0));
  }

  /** The header as written: the same walk, with the unguarded token loop,
      so a header line can raise. */
  function HeaderFromAsWritten(lines: seq<string>, h: MpaHeader): Result<MpaHeader, HeaderError> {
    if |lines| == 0 || !StartsWith(lines[0], "#") then Success(h)
    else
      var line := lines[0];
      var total :- if Contains(line, ReadsProcessedMarker)
                   then ScanProcessedAsWritten(Words(StripChars(line, HeaderStripChars)), 0)
                   else Success(None);
      HeaderFromAsWritten(lines[1..], MpaHeader(total.GetOr(h.totalReads), ClassifiedCount(line).GetOr(h.classifiedReads)))
  }

  /** Whenever the header as written does not raise, the bounds-checked
      header gives the same totals. */
  lemma {:induction false} HeaderAgrees(lines: seq<string>, h: MpaHeader)
    requires HeaderFromAsWritten(lines, h).Success?
    ensures HeaderFromAsWritten(lines, h).value == HeaderFrom(lines, h)
  {
    if |lines| > 0 && StartsWith(lines[0], "#") {
      var line := lines[0];
      if Contains(line, ReadsProcessedMarker) {
        ScanProcessedAgrees(Words(StripChars(line, HeaderStripChars)), 0);
      }
      HeaderAgrees(lines[1..], HeaderLine(h, line));
    }
  }

  /** The classified line reads back the integer written after the colon. */
  lemma ClassifiedLineRoundTrip(n: int)
    ensures ClassifiedCount(ClassifiedPrefix + ShowInt(n)) == Some(n)
  {
    var a := ClassifiedPrefix[..|ClassifiedPrefix| - 1];
    var b := ShowInt(n);
    assert ClassifiedPrefix + b == a + [':'] + b;
    assert ':' !in a;
    SplitOfPrefixed(a, b, ':');
    assert ':' !in b by {
      var d := ShowNat(if n < 0 then -n else n);
      assert IsDigits(d);
      forall j | 0 <= j < |d| ensures d[j] != ':' {
        assert IsDigit(d[j]);
      }
    }
    SplitWithoutSep(b, ':');
    ParseIntShowInt(n);
  }

  /** "N reads processed…" tokens give N as the total. */
  lemma ProcessedTokens(n: nat, suffix: string, rest: seq<string>)
    ensures ScanProcessed([ShowNat(n), "reads", "processed" + suffix] + rest, 0) == Some(n)
  {
    DigitsValueShowNat(n);
  }

  /** `max(0, total_reads - classified_reads)`. */
  function UnclassifiedReads(h: MpaHeader): (n: nat)
    ensures h.classifiedReads <= h.totalReads ==> n + h.classifiedReads == h.totalReads
    ensures h.classifiedReads > h.totalReads ==> n == 0
  {
    if h.totalReads - h.classifiedReads > 0 then h.totalReads - h.classifiedReads else 0
  }

  // ---------------------------------------------------------------- table

  /** The columns of a MetaPhlAn row the model keeps. */
  datatype MpaRow = MpaRow(cladeName: string, cladeTaxid: int, estimatedReads: int)

  /** Why the table cannot be loaded: the reader rejects it, it has fewer
      than 5 columns (`RuntimeError`), or more than 5, which the 5-name
      column assignment rejects (`ValueError`). */
  datatype MpaError =
    | MpaUnreadable(cause: TableError)
    | TooFewColumns(width: nat)
    | TooManyColumns(width: nat)
    | HeaderIndexError(index: nat)

  /** The MPA_COLUMNS assignment and coercions for one 5-cell record: a
      missing clade name becomes the text "nan", a non-numeric taxid -1 and
      a non-numeric read estimate 0. */
  function MpaRowOf(cells: seq<Cell>): MpaRow
    requires |cells| == 5
  {
    MpaRow(cells[0].GetOr("nan"), ToNumeric(cells[1], -1), ToNumeric(cells[4], 0))
  }

  /** `load_metaphlan_table`: '#' starts a comment, and the table must have
      exactly 5 columns. */
  function LoadTable(lines: seq<string>): (r: Result<seq<MpaRow>, MpaError>)
    ensures ReadTable(lines, Some('#')).Failure? ==> r == Failure(MpaUnreadable(ReadTable(lines, Some('#')).error))
    ensures ReadTable(lines, Some('#')).Success? ==>
              var frame := ReadTable(lines, Some('#')).value;
              && (frame.width < 5 <==> r == Failure(TooFewColumns(frame.width)))
              && (frame.width > 5 <==> r == Failure(TooManyColumns(frame.width)))
              && (frame.width == 5 ==>
                    && r.Success? && |r.value| == |frame.rows|
                    && forall i :: 0 <= i < |frame.rows| ==> r.value[i] == MpaRowOf(frame.rows[i]))
  {
    match ReadTable(lines, Some('#'))
    case Failure(e) => Failure(MpaUnreadable(e))
    case Success(frame) =>
      if frame.width < 5 then Failure(TooFewColumns(frame.width))
      else if frame.width > 5 then Failure(TooManyColumns(frame.width))
      else
        assert forall i :: 0 <= i < |frame.rows| ==> |frame.rows[i]| == 5;
        Success(seq(|frame.rows|, i requires 0 <= i < |frame.rows| => MpaRowOf(frame.rows[i])))
  }

  /** The report line of a row; abundance and coverage are free text. */
  function MpaLine(row: MpaRow, abundance: string, coverage: string): string {
    Join([row.cladeName, ShowInt(row.cladeTaxid), abundance, coverage, ShowInt(row.estimatedReads)], '\t')
  }

  /** A row written as a report line loads back unchanged when its text
      fields are non-empty and free of tabs and '#'. */
  lemma MpaLineRoundTrip(row: MpaRow, abundance: string, coverage: string)
    requires row.cladeName != "" && '\t' !in row.cladeName && '#' !in row.cladeName
    requires abundance != "" && '\t' !in abundance && '#' !in abundance
    requires coverage != "" && '\t' !in coverage && '#' !in coverage
    ensures LoadTable([MpaLine(row, abundance, coverage)]) == Success([row])
  {
    var parts := [row.cladeName, ShowInt(row.cladeTaxid), abundance, coverage, ShowInt(row.estimatedReads)];
    ShowIntIsPlain(row.cladeTaxid);
    ShowIntIsPlain(row.estimatedReads);
    var line := MpaLine(row, abundance, coverage);
    SplitJoin(parts, '\t');
    assert Split(line, '\t') == parts;
    assert |Split(line, '\t')| > 1;
    assert '#' !in line by {
      forall k | 0 <= k < |parts| ensures '#' !in parts[k] { }
      JoinAvoids(parts, '\t', '#');
    }
    assert StripComment(line, Some('#')) == line;
    assert Records([line], Some('#')) == [parts];
    var frame := ReadTable([line], Some('#')).value;
    assert frame.width == 5 && |frame.rows| == 1;
    forall j | 0 <= j < 5 ensures frame.rows[0][j] == Some(parts[j]) {
      assert CellAt(parts, j) == Some(parts[j]);
    }
    ParseIntShowInt(row.cladeTaxid);
    ParseIntShowInt(row.estimatedReads);
    assert MpaRowOf(frame.rows[0]) == row;
    assert LoadTable([line]).value == [MpaRowOf(frame.rows[0])];
  }

  /** A rendered integer is a non-empty field without a tab or a '#'. */
  lemma ShowIntIsPlain(i: int)
    ensures ShowInt(i) != "" && '\t' !in ShowInt(i) && '#' !in ShowInt(i)
  {
    var d := ShowNat(if i < 0 then -i else i);
    assert IsDigits(d);
    forall j | 0 <= j < |d| ensures d[j] != '\t' && d[j] != '#' {
      assert IsDigit(d[j]);
    }
  }

  /** Joining parts that avoid `c` with a separator other than `c` avoids `c`. */
  lemma {:induction false} JoinAvoids(parts: seq<string>, sep: char, c: char)
    requires |parts| > 0 && sep != c
    requires forall k :: 0 <= k < |parts| ==> c !in parts[k]
    ensures c !in Join(parts, sep)
  {
    if |parts| > 1 {
      JoinAvoids(parts[1..], sep, c);
    }
  }

  // ---------------------------------------------------------------- kingdoms

  const BacteriaPrefix := "k__Bacteria"
  const ArchaeaPrefix := "k__Archaea"

  /** The estimated reads of one row when its clade name starts with `prefix`. */
  function CladeShare(r: MpaRow, prefix: string): int {
    if StartsWith(r.cladeName, prefix) then r.estimatedReads else 0
  }

  /** The estimated reads summed over the rows whose clade name starts with
      `prefix`. */
  function CladeReads(rows: seq<MpaRow>, prefix: string): int {
    if |rows| == 0 then 0 else CladeReads(rows[..|rows| - 1], prefix) + CladeShare(rows[|rows| - 1], prefix)
  }

  /** The estimated reads of the rows in either kingdom, each row once. */
  function KingdomReads(rows: seq<MpaRow>): int {
    if |rows| == 0 then 0
    else
      var r := rows[|rows| - 1];
      KingdomReads(rows[..|rows| - 1])
        + if StartsWith(r.cladeName, BacteriaPrefix) || StartsWith(r.cladeName, ArchaeaPrefix) then r.estimatedReads else 0
  }

  lemma PrefixesExclusive(s: string)
    ensures !(StartsWith(s, BacteriaPrefix) && StartsWith(s, ArchaeaPrefix))
  {
    if StartsWith(s, BacteriaPrefix) {
      assert s[3] == 'B';
    }
  }

  /** No clade name starts with both kingdom prefixes, so the bacterial and
      archaeal sums never count a row twice. */
  lemma {:induction false} KingdomsDisjoint(rows: seq<MpaRow>)
    ensures CladeReads(rows, BacteriaPrefix) + CladeReads(rows, ArchaeaPrefix) == KingdomReads(rows)
  {
    if |rows| > 0 {
      var r := rows[|rows| - 1];
      KingdomsDisjoint(rows[..|rows| - 1]);
      PrefixesExclusive(r.cladeName);
    }
  }

  // ---------------------------------------------------------------- totals

  /** The five MetaPhlAn figures of the summary row. */
  datatype MpaTotals = MpaTotals(total: nat, classified: int, unclassified: nat, bacterial: int, archaeal: int)

  /** The MetaPhlAn half of `summarize_classification`: header totals and
      kingdom sums of a present report, or the table error. */
  function MpaSummary(lines: seq<string>): (r: Result<MpaTotals, MpaError>)
    ensures var scan := HeaderFromAsWritten(lines, MpaHeader(0, 0));
            scan.Failure? ==> r == Failure(HeaderIndexError(scan.error.index))
    ensures HeaderFromAsWritten(lines, MpaHeader(0, 0)).Success? ==>
              && (LoadTable(lines).Failure? ==> r == Failure(LoadTable(lines).error))
              && (LoadTable(lines).Success? ==>
                    && r.Success?
                    && r.value.total == ParseHeader(lines).totalReads
                    && r.value.classified == ParseHeader(lines).classifiedReads
                    && r.value.unclassified == UnclassifiedReads(ParseHeader(lines))
                    && r.value.bacterial == CladeReads(LoadTable(lines).value, BacteriaPrefix)
                    && r.value.archaeal == CladeReads(LoadTable(lines).value, ArchaeaPrefix))
  {
    var h :- HeaderFromAsWritten(lines, MpaHeader(0, 0)).MapFailure((e: HeaderError) => HeaderIndexError(e.index));
    HeaderAgrees(lines, MpaHeader(0, 0));
    var rows :- LoadTable(lines);
    Success(MpaTotals(h.totalReads, h.classifiedReads, UnclassifiedReads(h),
                      CladeReads(rows, BacteriaPrefix), CladeReads(rows, ArchaeaPrefix)))
  }
}
