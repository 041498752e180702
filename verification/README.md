# pathseq-t2t `summarize` step, modelled in Dafny

The `summarize` step of pathseq-t2t (`scripts/pst2t_summarize.py`) turns one sample's stage reports into two outputs:

- a single wide summary row: 28 filtering metrics in a fixed order, followed by the classifier totals;
- per-million normalised Kraken2 and MetaPhlAn tables.

The inputs are:

- samtools flagstat TSVs;
- GATK PathSeq filter-metrics tables;
- one or two Kraken2 reports;
- a MetaPhlAn profile.

The model treats every directory as a map from file name to the file's lines. A file is present when its name is a key. Every step is a pure function from those lines to integer counts.

Modules:

- `Wrappers`: `Option` and a failure-compatible `Result`.
- `Text`: the Python string operations the script relies on. This covers `strip`, `split`, `str.isdigit`, `int(...)` and `startswith`.
- `Table`: the subset of `pandas.read_table` the script uses. The width comes from the first record. A later, wider record is an error. Shorter records are padded with missing cells. Empty fields are missing. A comment character cuts a line. Lines left empty or holding only spaces are skipped. A file with no records is an error. `pd.to_numeric(errors='coerce').fillna(d)` becomes `ToNumeric`.
- `Metrics`: the metric names, `PATHSEQ_COLS` and `FILTER_SUMMARY_ORDER`.
- `Flagstat`: `parse_flagstat_primary`.
- `Filtering`: `collect_primary_reads`, `collect_pathseq_metrics` and `filtering_summary`.
- `Kraken`: `load_kraken_report`, `merge_kraken_reports`, and the Kraken totals of `summarize_classification`.
- `Metaphlan`: the MetaPhlAn header scan, `load_metaphlan_table`, and the MetaPhlAn totals.
- `Summarize`: `summarize_classification`, the guard of `write_normalized_tables`, and `main`'s assembly of the combined row.

Exceptions the script lets escape to its `FATAL` handler become `Failure` values. Those are a malformed Kraken2 report (fewer than 8 columns), an unreadable one (only blank lines, or a later line wider than the first), an IndexError raised by the MetaPhlAn header scan (see Findings), and an unreadable or mis-shaped MetaPhlAn table. `Run` propagates them. A missing Kraken2 pair is different: `summarize_classification` catches `FileNotFoundError`, so it only drops the Kraken totals.

## Model

| member | source | states |
|---|---|---|
| Flagstat.ParsePrimaryFirst | scripts/pst2t_summarize.py:56-64 | A count is found exactly when some line has a stripped third field `primary` and an all-digit stripped first field. The count is that of the first such line, and every earlier line fails the test. |
| Flagstat.FirstPrimaryWins | scripts/pst2t_summarize.py:58-63 | Lines that do not match may precede a well-formed `primary` line. Whatever follows it, the parse returns that line's count. |
| Flagstat.NonDigitPrimarySkipped | scripts/pst2t_summarize.py:60-62 | A `primary` line whose first field is not all digits is skipped, and scanning continues with the next line. |
| Flagstat.PrimaryLineRoundTrip | scripts/pst2t_summarize.py:52-63 | The documented flagstat line `count<TAB>qcfail<TAB>primary` parses back to `count`. |
| Filtering.CollectPrimaryReads | scripts/pst2t_summarize.py:70-91 | A flagstat key is present exactly when its file gave a count, and then holds that count. The T2T total is always present and equals paired + unpaired unaligned, with absent entries counted as 0. |
| Filtering.CollectPathSeqMetrics | scripts/pst2t_summarize.py:137-157 | Every kind/column key is present. UNALIGNED and EXCLUDED hold their table's coerced value, or 0 when the table or column is missing. QCFILTER is their sum. |
| Filtering.MergedAgreesAll | scripts/pst2t_summarize.py:170-171 | The concatenation of the two maps, read at any summary key and defaulting to 0, equals the reference value of that metric. |
| Filtering.FilteringSummary | scripts/pst2t_summarize.py:167-173 | The row has exactly 28 entries, keyed in `FILTER_SUMMARY_ORDER`. Each value is the reference value of its metric, with missing inputs filled with 0. |
| Filtering.FilteringRowValues | scripts/pst2t_summarize.py:171 | Looking up any filtering metric by name in the row gives its reference value. |
| Filtering.QcFilterSum | scripts/pst2t_summarize.py:151-155 | In the summary row, QCFILTER_col = UNALIGNED_col + EXCLUDED_col for every PathSeq column. |
| Filtering.T2TTotalSum | scripts/pst2t_summarize.py:87-89 | In the summary row, T2T_UNALIGNED_TOTAL_READS = T2T_UNALIGNED_PAIRED_PRIMARY + T2T_UNALIGNED_UNPAIRED_PRIMARY. |
| Filtering.AlignedCountsDropped | scripts/pst2t_summarize.py:74-78 | The two T2T aligned flagstat counts are collected but not in `FILTER_SUMMARY_ORDER`. Changing them leaves the summary row unchanged. |
| Metrics.FilterSummaryOrderLayout | scripts/pst2t_summarize.py:160-164 | The order has 28 keys and starts with PRIMARY_READS. It contains exactly the filtering metrics, and each metric's computed layout index is its position. |
| Metrics.FilterSummaryOrderDistinct | scripts/pst2t_summarize.py:160-164 | No metric occurs twice in `FILTER_SUMMARY_ORDER`. |
| Table.ReadTable | scripts/pst2t_summarize.py:199 | Lines that are empty or hold only spaces are skipped. No records is an error, and so is a record wider than the first. Otherwise the frame has the first record's width, one row per record, and the record's fields as cells, with missing cells beyond its end. |
| Table.ToNumericShowInt | scripts/pst2t_summarize.py:205-206 | A cell holding the decimal text of any integer coerces to that integer, whatever the default. |
| Table.ToNumericNoDigit | scripts/pst2t_summarize.py:205-206 | A cell without a single digit coerces to the default. |
| Kraken.LoadReport | scripts/pst2t_summarize.py:191-207 | An empty report has no rows. A table narrower than 8 columns is `MalformedReport`. Otherwise each row takes the stripped name, the coerced counts and tax id, and the rank from the first 8 columns. |
| Kraken.ReportLineRoundTrip | scripts/pst2t_summarize.py:199-206 | A well-formed 8-column report line loads back to one row with the same key and counts. |
| Kraken.MergedKeyPresent | scripts/pst2t_summarize.py:215-230 | A key is in the merged table exactly when some paired or some unpaired report row has it. |
| Kraken.MergedKeyCounts | scripts/pst2t_summarize.py:215-230 | For every key in the merged table, `reads_clade` and `reads_taxon` are twice the sum of that key's paired and unpaired values. The minimizer counts are the plain sum of both reports, not doubled. |
| Kraken.GroupRowsContents | scripts/pst2t_summarize.py:226-230 | The merged rows have pairwise distinct `(name, tax_id, rank)` keys. A key appears exactly when some input row has it. Its counts are the sum over all input rows with that key. |
| Kraken.GroupRowsClassReads | scripts/pst2t_summarize.py:226-231 | Grouping preserves the `reads_clade` total of every tax-id class. |
| Kraken.MergeReports | scripts/pst2t_summarize.py:210-234 | The merge fails with NoReports exactly when both reports are absent. It succeeds exactly when a report is present and every present report loads. The result groups the doubled paired rows followed by the doubled unpaired rows. |
| Kraken.MergedClassReads | scripts/pst2t_summarize.py:215-231 | For any tax-id class, grouping the doubled paired rows followed by the doubled unpaired rows gives a `reads_clade` total of twice the paired total plus twice the unpaired total. That grouping is the merge result `MergeReports` promises. |
| Kraken.TestedSplits | scripts/pst2t_summarize.py:270-272 | TOTAL_READS_TESTED = UNCLASSIFIED_TOTAL_K2 + CLASSIFIED_TOTAL_K2. |
| Metaphlan.ScanProcessedFirst | scripts/pst2t_summarize.py:287-290 | The corrected scan finds a count exactly when some token is all digits and is followed by `reads` and a token starting with `processed`. It returns the first such count. |
| Metaphlan.TrailingCountRaises | scripts/pst2t_summarize.py:288-290 | On the tokens `reads processed 100`, the scan as written reads index 3 and raises IndexError. The corrected scan finds no count there. A second-to-last count followed by something other than `reads` does not raise, because the test stops before `parts[i+2]`. |
| Metaphlan.ScanProcessedAgrees | scripts/pst2t_summarize.py:288-290 | Wherever the scan as written does not raise, it gives the corrected scan's result. |
| Metaphlan.HeaderAgrees | scripts/pst2t_summarize.py:283-295 | Wherever the header loop as written does not raise, it gives the corrected loop's totals. |
| Metaphlan.ProcessedTokens | scripts/pst2t_summarize.py:286-290 | The header tokens `N reads processed...` yield N. |
| Metaphlan.HeaderLastWins | scripts/pst2t_summarize.py:283-295 | Over a block of `#` lines, each total is the value of the last line that sets it. It keeps its starting value when no line does. |
| Metaphlan.ParseHeaderLastWins | scripts/pst2t_summarize.py:279-295 | CLASSIFIED is the value of the last parseable `#estimated_reads_mapped_to_known_clades:` line before the first line without `#`, or 0 when there is none. TOTAL is likewise the last `N reads processed` count, or 0. |
| Metaphlan.HeaderStopsAtData | scripts/pst2t_summarize.py:283-285 | Header parsing stops at the first line not starting with `#`. Nothing after it affects the totals. |
| Metaphlan.ClassifiedLineRoundTrip | scripts/pst2t_summarize.py:291-293 | `#estimated_reads_mapped_to_known_clades:n` parses to n. |
| Metaphlan.UnclassifiedReads | scripts/pst2t_summarize.py:296 | Unclassified = max(0, total - classified). It is never negative, and it completes the total whenever classified <= total. |
| Metaphlan.LoadTable | scripts/pst2t_summarize.py:245-257 | An unreadable table is an error. Fewer than 5 columns is `TooFewColumns`, and more than 5 fails the column assignment. Otherwise each row takes the name, the coerced taxid (default -1) and the coerced read estimate (default 0). |
| Metaphlan.MpaLineRoundTrip | scripts/pst2t_summarize.py:245-256 | A well-formed 5-column profile line loads back to the same row. |
| Metaphlan.KingdomsDisjoint | scripts/pst2t_summarize.py:299-300 | No clade is counted both as bacterial and as archaeal. The two sums add up to the read total of the rows under either prefix. |
| Metaphlan.MpaSummary | scripts/pst2t_summarize.py:279-308 | When the header scan as written raises IndexError, the result is `HeaderIndexError` and the run fails. Otherwise a table error is returned as it is. When the table loads, the totals are the header's total and classified counts, the unclassified remainder, and the bacterial and archaeal sums. |
| Summarize.ClassificationSummary | scripts/pst2t_summarize.py:260-313 | A Kraken failure other than missing reports is returned first, and a MetaPhlAn failure after it. Otherwise the row is the Kraken part followed by the MetaPhlAn part. |
| Summarize.ClassificationShape | scripts/pst2t_summarize.py:268-308 | The five Kraken totals are present exactly when a Kraken report exists, and then they come first. The five MetaPhlAn totals are present exactly when the profile exists. |
| Summarize.KrakenEntriesConsistent | scripts/pst2t_summarize.py:270-272 | In the Kraken entries of a merged pair of reports, TOTAL_READS_TESTED = UNCLASSIFIED_TOTAL_K2 + CLASSIFIED_TOTAL_K2. That total is twice the tax-id 0/1 `reads_clade` sum of the paired and unpaired reports together. |
| Summarize.NormalizedTables | scripts/pst2t_summarize.py:316-349 | With PRIMARY_READS <= 0 no table is produced. Otherwise a Kraken table is produced exactly when a report exists and the merge succeeds, and a MetaPhlAn table exactly when the profile exists and loads. The scale is PRIMARY_READS. |
| Summarize.Run | scripts/pst2t_summarize.py:367-393 | The run succeeds exactly when the classification summary does. On failure it carries that summary's error. |
| Summarize.RunOutputs | scripts/pst2t_summarize.py:376-393 | The combined row is the 28-entry filtering row followed by the classification row. The normalisation scale is the flagstat PRIMARY_READS count, or 0. |
| Summarize.TablesForPresentReports | scripts/pst2t_summarize.py:324-339 | With PRIMARY_READS > 0, a Kraken table exists exactly when a Kraken report exists, and a MetaPhlAn table exactly when the profile exists. |
| Summarize.SummaryColumnsDistinct | scripts/pst2t_summarize.py:383 | No two entries of the combined row share a metric or a column name. |
| Metrics.NameInjective | scripts/pst2t_summarize.py:151-164 | Distinct metrics have distinct column names, so the PathSeq names built from kind and column never collide with each other or with the fixed names. |
| Text.ParseIntShowInt | scripts/pst2t_summarize.py:293 | `int()` reads back every decimal integer it is shown. |
| Text.SplitJoin | scripts/pst2t_summarize.py:59 | Splitting the tab-joined fields gives back the fields. |

## Left out

- File-system I/O is not modelled. That covers `open`, `os.path.isfile`, `os.path.getsize`, `os.makedirs`, `require_dir` and CSV writing. A directory is a map from file name to lines. A file is present when its name is a key, and it is empty when it has no lines. Undecodable bytes (UTF-8 errors) are left out.
- The header-sniffing fallbacks of `read_pathseq_metrics_table` (scripts/pst2t_summarize.py:110-124) are not modelled. They depend on pandas parsing behaviour that is not visible here. Their result, one optional row of raw cells by column name, is an input of `Filtering`.
- Floats are not modelled: `pct_reads` (line 232), the per-million columns (lines 328-329 and 343), `relative_abundance` and `coverage`. Counts are integers. A cell reading `1.5` or `1e3` is treated like any other non-numeric cell and takes the default. `NormalizedTables` records only which tables are produced and the PRIMARY_READS denominator.
- `Kraken.GroupRows` keeps first-appearance order. pandas `groupby` sorts its keys, and only that order differs. Rows with a missing name or rank are dropped, as `groupby` drops NaN keys.
- `Text.ParseInt` accepts an optional sign and ASCII digits, with surrounding whitespace. Python's `int()` also accepts underscores and non-ASCII digits, and those are left out.
- Filtering.CollectPathSeqMetrics: coerces each cell on its own. At line 129 `astype('Int64')` raises on a non-integral value such as `0.5` in any column of the row. The exception is caught at lines 132-134, so the whole table becomes None and every PathSeq column of that kind reads 0. The model zeroes only the cells that are not integers.
- Filtering.CollectPrimaryReads: counts are unbounded integers. The source stores them in 64-bit `Int64` Series (line 91, and the summary Series at line 313). A flagstat line such as `9223372036854775808<TAB>0<TAB>primary` makes that conversion raise, and the run ends with FATAL. The model keeps the count.
- Flagstat.ParsePrimary: `str.isdigit` is also true for non-ASCII digits such as `²`, and `int()` then raises. In `parse_flagstat_primary` the exception is caught at lines 65-67 and the file gives None, while the model skips that line and keeps scanning. Metaphlan.ScanProcessed has the same gap: there `int(p)` at line 290 raises ValueError, which is uncaught and ends the run with FATAL.
- `Metaphlan.LoadTable` keeps the clade name as text, with a missing cell as `nan`. pandas type inference for that column, such as a clade column of numbers, is not modelled.
- `pandas.read_table`'s `na_values` other than the empty field are not modelled. `NA` and `null` are kept as text, and they take the default when coerced to a number.
- argparse, verbose logging, the `FATAL` handler and exit codes (lines 354-402) are not modelled. The warning printed when no classifier output exists (lines 310-311) is also left out.
- The external tools that produce the reports are not modelled.

## Findings

| source | as written | input that shows it | evidently intended | confidence | as-written member | corrected member |
|---|---|---|---|---|---|---|
| scripts/pst2t_summarize.py:288-290 | On a `#` line containing `reads processed`, the scan raises IndexError when an all-digit token is the last token, or is the second-to-last token and is followed by `reads`, and no earlier token matched. The `and` short-circuits, so `parts[i+2]` is read only after `parts[i+1] == 'reads'`. The IndexError is not caught and ends the run with FATAL. | the MetaPhlAn header line `#reads processed 100` | Skip candidates with fewer than two tokens after them, so the header simply gives no processed count | not executed | Metaphlan.ScanProcessedAsWritten (shown by Metaphlan.TrailingCountRaises) | Metaphlan.ScanProcessed (Metaphlan.ScanProcessedFirst, Metaphlan.HeaderAgrees) |

`Metaphlan.MpaSummary` runs the header scan as written, so a header like the one above ends the run with `HeaderIndexError`, as it does in the script. Its totals are stated through the corrected `Metaphlan.ParseHeader`. `Metaphlan.HeaderAgrees` shows that the two give the same totals whenever the scan as written does not raise.
