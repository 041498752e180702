/** The part of pandas' `read_table` (tab separator, no header row) and of
    `to_numeric(errors='coerce').fillna(...)` that the summarize step
    depends on, over a file given as its lines. */
module Table {
  import opened Wrappers
  import opened Text

  /** A cell as pandas holds it after reading with `dtype=str`: its text, or
      missing (NaN) for an empty field or for a field past the end of a
      short record. */
  type Cell = Option<string>

  /** A table read without a header: `width` columns, every row that wide. */
  datatype Frame = Frame(width: nat, rows: seq<seq<Cell>>)

  /** The reasons `read_table` raises: no record at all (`EmptyDataError`),
      or a record with more fields than the first one (`ParserError`). */
  datatype TableError =
    | NoColumns
    | TooManyFields(record: nat, expected: nat, saw: nat)

  /** With `comment=c`, the text from the first `c` to the end of the line is ignored. */
  function StripComment(line: string, comment: Option<char>): (body: string)
    ensures body <= line
    ensures comment.Some? ==> comment.value !in body
    ensures comment.None? ==> body == line
  {
    match comment
    case None => line
    case Some(c) => Before(line, c)
  }

  /** A line body the tokenizer skips as blank: nothing but spaces (a tab
      is the separator and starts a record). */
  predicate Blank(body: string) {
    forall i :: 0 <= i < |body| ==> body[i] == ' '
  }

  /** The records pandas tokenises: comments removed, blank lines skipped,
      the rest split on tabs. */
  function Records(lines: seq<string>, comment: Option<char>): (recs: seq<seq<string>>)
    ensures |recs| <= |lines|
    ensures forall i :: 0 <= i < |recs| ==> |recs[i]| > 0
  {
    if |lines| == 0 then []
    else
      var body := StripComment(lines[0], comment);
      var rest := Records(lines[1..], comment);
      if Blank(body) then rest else [Split(body, '\t')] + rest
  }

  /** Field `j` of a record as a cell: missing when empty or absent. */
  function CellAt(rec: seq<string>, j: nat): Cell {
    if j < |rec| && rec[j] != "" then Some(rec[j]) else None
  }

  /** The first record from index `from` on that is wider than `width`. */
  function FirstWider(recs: seq<seq<string>>, width: nat, from: nat): (r: Option<nat>)
    requires from <= |recs|
    ensures r.Some? ==> from <= r.value < |recs| && |recs[r.value]| > width
    ensures r.Some? ==> forall i :: from <= i < r.value ==> |recs[i]| <= width
    ensures r.None? ==> forall i :: from <= i < |recs| ==> |recs[i]| <= width
    decreases |recs| - from
  {
    if from == |recs| then None
    else if |recs[from]| > width then Some(from)
    else FirstWider(recs, width, from + 1)
  }

  /** `pd.read_table(path, header=None, comment=...)`: the first record fixes
      the column count; shorter records are padded with missing cells and a
      longer one is an error. */
  function ReadTable(lines: seq<string>, comment: Option<char>): (r: Result<Frame, TableError>)
    ensures var recs := Records(lines, comment);
      && (r == Failure(NoColumns) <==> |recs| == 0)
      && (r.Failure? <==> |recs| == 0 || exists i :: 0 <= i < |recs| && |recs[i]| > |recs[0]|)
      && (r.Success? ==>
            && r.value.width == |recs[0]|
            && |r.value.rows| == |recs|
            && forall i :: 0 <= i < |recs| ==>
                 && |r.value.rows[i]| == r.value.width
                 && forall j :: 0 <= j < r.value.width ==> r.value.rows[i][j] == CellAt(recs[i], j))
  {
    var recs := Records(lines, comment);
    if |recs| == 0 then Failure(NoColumns)
    else
      var width := |recs[0]|;
      match FirstWider(recs, width, 0)
      case Some(i) => Failure(TooManyFields(i, width, |recs[i]|))
      case None =>
        Success(Frame(width, seq(|recs|, i requires 0 <= i < |recs| => seq(width, (j: nat) => CellAt(recs[i], j)))))
  }

  /** `pd.to_numeric(cell, errors='coerce').fillna(default)` for integer text:
      a cell that does not read as an integer becomes `default`. */
  function ToNumeric(cell: Cell, default: int): int
  {
    match cell
    case None => default
    case Some(text) => ParseInt(text).GetOr(default)
  }

  /** A cell holding a rendered integer coerces to that integer, whatever
      the default. */
  lemma ToNumericShowInt(i: int, default: int)
    ensures ToNumeric(Some(ShowInt(i)), default) == i
  {
    ParseIntShowInt(i);
  }

  /** A cell without a single digit is not a number and takes the default. */
  lemma ToNumericNoDigit(text: string, default: int)
    requires forall i :: 0 <= i < |text| ==> !IsDigit(text[i])
    ensures ToNumeric(Some(text), default) == default
  {
    var t := Strip(text);
    var lo := SkipFrom(text, IsSpace, 0);
    assert t == text[lo..EndBefore(text, IsSpace, lo, |text|)];
    assert forall i :: 0 <= i < |t| ==> !IsDigit(t[i]);
    if |text| > 0 {
      assert !IsDigit(text[0]);
    }
    if |t| > 0 {
      assert !IsDigit(t[0]);
      assert !IsDigits(t[1..]) by {
        if |t| > 1 { assert t[1..][0] == t[1]; }
      }
    }
  }
}
