# Audio-transcript review tools, modelled in Dafny

The repository is a small set of Streamlit pages and one script. Annotators
use them to check speech segments. Each segment has an audio clip, a
transcript and a Yes/No tag.

- **The review pages.** `re_check.py`, `building.py` and `tagging.py` share one
  state machine, kept in `st.session_state`:
  - a cursor (`current_index`);
  - two per-row lists edited in place (`edited_transcripts`, `tags`);
  - the flags `row_confirmed` and `batch_confirmed`;
  - the chosen file (`confirmed_csv`) and the selectbox's `selected_row`.

  The pages differ in two policies:
  - **Audio path.** `re_check.py` uses the file's `audio_path` column verbatim.
    `building.py` and `tagging.py` derive `segments_16k/<filename>.wav`.
  - **Initial tags.** `re_check.py` takes the file's `tag` column.
    `building.py` uses Python `None` for every row. `tagging.py` uses the
    string `"None"` for every row.
- **The batch splitter.** `split_csv_files.py` reads a newline-delimited JSON
  metadata file. It skips whitespace-only lines and adds an audio path to
  every record. It then cuts the records into `ceil(n / 500)` contiguous
  batches, written to `metadata_batch_{i+11}.csv`.

Modules:

- `Records` (records.dfy): cells, tables and the audio-path convention.
  - A cell is `Null` (Python `None`), `Missing` (pandas NaN) or `Text`.
  - A table is a column set plus rows keyed by those columns.
  - `Reindex` models `pd.DataFrame(df, columns=…)`. A column the table lacks
    comes back as all `Missing`.
- `Review` (review.dfy): the page logic as functions of values.
  - loading under an audio policy, and initial tags under a tag policy;
  - the untagged count and the Previous/Next cursor arithmetic;
  - the export projection, and the reload of an export.
- `ReviewSession` (session.dfy): `class Session`, the session state.
  - One field per key. A field is `None` while the key is absent or after
    Cancel popped it.
  - Its two `const` policies select the page.
  - One method per button or step of a rerun. Each method states the whole
    new state.
  - `Valid(n)` is the invariant: both lists have `n` entries and the cursor
    is where the page's own moves can put it.
- `Metadata` (metadata.dfy): the two metadata read loops.
  - Each loop is a `method` with a `while` loop.
  - Each is proved equal to a function over the per-line results.
  - Lemmas about those functions: one record per line, and blank lines
    make no difference.
- `BatchSplit` (batches.dfy): the batch count, the slices, the file names,
  and the write loop as a `method`.

## Model

| member | source | states |
|---|---|---|
| Records.SegmentAudioPath | building.py:36 | the derived path is `segments_16k/` + the file name as an f-string renders it + `.wav`, and the name can be sliced back out of it |
| Records.SegmentAudioPathInjective | building.py:36 | two rows share an audio path exactly when their file names render alike |
| Records.Column | re_check.py:57 | `df[c].tolist()` has one cell per row, and cell i is row i's value in column c |
| Records.SetColumn | building.py:36 | `df[c] = values` gives column c exactly `values` and leaves every other column as it was |
| Records.Reindex | re_check.py:151 | the reindexed table has exactly the named columns; a kept column is unchanged, and a column the file lacks is all missing |
| Review.LoadBatch | re_check.py:25-41 | an unreadable file fails; a file without `audio_path` fails with that column named; otherwise the table is returned unchanged (Verbatim, re_check.py); under FromFilename (building.py:35-39) a file without `filename` fails, and otherwise every row gains `audio_path = segments_16k/<filename>.wav` and keeps its other columns |
| Review.InitialTags | re_check.py:59 | the tag list has one entry per row: the file's `tag` cells when that column exists, else `None` for every row; under AllNull (building.py:55) every tag is `None`, and under NoneString (tagging.py:23) every tag is the string `"None"` |
| Review.ReindexedTagsNeverFallBack | re_check.py:151-157 | after the reindex, a file without a `tag` column gives all-missing tags, never Python `None`, so the untagged count is 0 |
| Review.CountNullZeroIff | re_check.py:167-177 | the untagged count is 0 exactly when no tag is `None` (both directions) |
| Review.CountNullAllNull | building.py:155 | a fresh `[None] * n` list counts n untagged rows |
| Review.CountNullAfterTag | building.py:87-90 | writing Yes/No into a `None` row lowers the untagged count by one; into any other row, it leaves the count unchanged |
| Review.CountNull | re_check.py:167 | `tags.count(None)` is the number of occurrences of `None` in the list, at most its length |
| Review.NoNullMeansZero | re_check.py:167 | a list with no `None` counts 0 |
| Review.PreviousIndex | re_check.py:204 | Previous never goes below 0; it steps back by one from 1 or more and gives 0 otherwise |
| Review.NextIndex | re_check.py:208-211 | Next steps forward by one; it clamps to N-1 and warns exactly when the step would reach N |
| Review.NavigationKeepsCursorBound | re_check.py:203-212 | starting inside the batch, Previous and Next keep the cursor on a row; for an empty batch it stays in {-1, 0} |
| Review.NextOnEmptyBatch | re_check.py:209-210 | with N = 0, Next sets the cursor to -1, and `display_item` rejects it |
| Review.NextOnSingleRow | building.py:207-211 | with one row, Next keeps the cursor at 0 and warns on every press |
| Review.Project | re_check.py:161-162 | export row i is exactly (audio path i, edited transcript i, tag i), in file order |
| Review.ReadField | re_check.py:32 | `pd.read_csv` never yields Python `None`: a field reads as NaN exactly when its text is one of pandas' default NA strings, and otherwise as its text |
| Review.Reread | re_check.py:32 | a cell written by `to_csv` and read back is unchanged exactly when it is NaN or a text that is not an NA string; any other cell (`None`, `""`, `"None"`, `"nan"`, ...) comes back NaN |
| Review.AsTable | re_check.py:32 | an exported file read back has exactly the header's three columns, one row per exported row, and every cell as `Reread` gives it |
| Review.ExportReloadsInRecheck | re_check.py:151-162 | re_check.py loads an exported file unchanged; the reloaded audio paths, transcripts and tags are the exported cells as `pd.read_csv` reads them back; Yes/No tags survive, a `None` tag comes back NaN, and the reloaded untagged count is 0 |
| Review.ExportDoesNotReloadInBuilding | building.py:35-39 | building.py rejects an exported file, which has no `filename` column |
| ReviewSession.ClickTag | re_check.py:91-94 | a Yes/No button writes a tag that is never `None` |
| ReviewSession.Session.constructor | re_check.py:108-116 | a fresh session has no key set |
| ReviewSession.Session.EnsureDefaults | building.py:105-112 | each absent key gets its default (`batch_confirmed=False`, `confirmed_csv=None`, `selected_row=0`, `row_confirmed=False`); present keys are kept |
| ReviewSession.Session.InitializeFromFile | re_check.py:44-60 | on a good load: cursor 0, `row_confirmed` false, transcripts and tags from the file, and `Valid(N)`; on a load error nothing changes; without `transcripts`, only the cursor is reset; under AllNull (building.py:53-56) every tag is `None` |
| ReviewSession.Session.ConfirmBatch | building.py:119-123 | the chosen file is recorded and `batch_confirmed` becomes true, then the session is initialised from the file: an unreadable file, or one without the column the audio policy needs (`audio_path` in re_check.py, `filename` in building.py), leaves the cursor and lists as they were; a file without `transcripts` sets the cursor to 0 and leaves the lists; success is exactly a good load with `transcripts`, and leaves `Valid(N)` |
| ReviewSession.Session.CancelBatch | building.py:128-139 | all seven keys are removed |
| ReviewSession.Session.Refresh | re_check.py:145-157 | only past the confirmed-batch gate; the load result is reindexed to the three review columns; a list that is absent or of the wrong length is re-derived; a list of length N is kept untouched; both lists end with N entries; under AllNull (building.py:154-155) tags are re-derived as all `None` |
| ReviewSession.Session.Remaining | building.py:165-175 | the untagged count is at most N, and 0 exactly when every tag is set |
| ReviewSession.Session.ConfirmRow | building.py:188-190 | the cursor becomes the selected row and `row_confirmed` becomes true; when both lists have N entries, the result is `Valid(N)` |
| ReviewSession.Session.DisplayItem | re_check.py:63-98 | a row is shown exactly when `0 <= index < N`; only then a button overwrites that row's tag and nothing else |
| ReviewSession.Session.DetailView | building.py:193-199 | the detail view shows, and a tag changes, only while `row_confirmed` is true and the cursor is a row |
| ReviewSession.Session.EditTranscript | re_check.py:77-87 | the callback replaces only `edited_transcripts[index]`; with no widget value it changes nothing |
| ReviewSession.Session.Previous | building.py:203-206 | the cursor becomes `max(0, c - 1)` and `row_confirmed` becomes true; `Valid(N)` is preserved |
| ReviewSession.Session.Next | re_check.py:207-213 | the cursor and warning follow `NextIndex`, `row_confirmed` becomes true, and `Valid(N)` is preserved |
| ReviewSession.Session.ExportCsv | re_check.py:216-217 | the export has header `audio_path, transcripts, tag` and one row per file row: its audio path, edited transcript and tag |
| ReviewSession.Session.InitializeIfAbsent | tagging.py:17-23 | under tagging.py's tag policy (the string `"None"`), which it requires, each key is set only when absent: cursor 0, the transcripts, and `"None"` for every tag; an empty file (no `transcript` column) fails when the transcripts are copied |
| ReviewSession.Session.TaggingRun | tagging.py:26-72 | a row is shown exactly when the cursor is in range; a tag button changes only that row; Previous/Next act only when a row was shown; `Valid(N)` is preserved |
| ReviewSession.Session.TaggingExportCsv | tagging.py:74-77 | the export has header `audio_path, transcript, tag` and the session's transcripts and tags, one row per segment |
| Metadata.TrimLeft | split_csv_files.py:18 | `lstrip` drops exactly the leading whitespace |
| Metadata.TrimRight | split_csv_files.py:18 | `rstrip` drops exactly the trailing whitespace |
| Metadata.TrimLeftDropsLeadingSpaces | split_csv_files.py:18 | `lstrip` removes exactly as many characters as the line has leading whitespace |
| Metadata.StripIsSlice | split_csv_files.py:18-19 | `line.strip()` is the slice of the line that starts after its leading whitespace; only whitespace follows it, and it neither starts nor ends with whitespace |
| Metadata.StripEmptyIffBlank | split_csv_files.py:18 | `line.strip()` is empty exactly for a whitespace-only line |
| Metadata.ParseSegment | tagging.py:8-11 | a line gives a segment exactly when it decodes and has `filename` and `transcripts`; the segment is (`segments_16k/<filename>.wav`, transcripts); a missing key is named, with `filename` checked first |
| Metadata.CollectErrorSticks | tagging.py:7-12 | once a line raises, the loop's outcome is that error |
| Metadata.CollectOnePerStep | tagging.py:7-12 | the loop succeeds exactly when every line does, and then keeps one value per line, in order |
| Metadata.SegmentsOnePerLine | tagging.py:6-12 | loading succeeds exactly when every line (blank lines included) parses, and row k is line k's segment |
| Metadata.LoadSegments | tagging.py:5-12 | the load loop computes `Segments`: the rows in line order, or the first line's error |
| Metadata.SegmentTable | tagging.py:15 | the table keeps the rows, and has a `transcript` column exactly when there is at least one row |
| Metadata.WithAudioPath | split_csv_files.py:22 | a record keeps all its fields and gains `audio_path = segments_16k/<filename>.wav`; without `filename` it fails |
| Metadata.ParseLine | split_csv_files.py:18-22 | a line is skipped exactly when it is whitespace-only; a non-blank line gives a record exactly when its stripped text decodes to an object with `filename`; the error is invalid JSON when it does not decode, else the missing `filename`; the record is the decoded object with its audio path |
| Metadata.ReadLine | split_csv_files.py:18-23 | one pass of the loop body computes `ParseLine`: skip, error, or the record to append |
| Metadata.CollectKeptErrorSticks | split_csv_files.py:17-23 | once a line raises, the loop's outcome is that error |
| Metadata.CollectKeptIgnoresSkips | split_csv_files.py:17-23 | skipped lines make no difference to the loop's outcome |
| Metadata.NonBlankKeepsEveryOtherLine | split_csv_files.py:18 | a line is kept exactly when it occurs in the file and is not whitespace-only |
| Metadata.BlankLinesIgnored | split_csv_files.py:17-23 | reading a file gives the same outcome as reading its non-blank lines |
| Metadata.RecordsOnePerLine | split_csv_files.py:17-23 | on a file without blank lines, reading succeeds exactly when every line parses, and record k is line k's object with its audio path |
| Metadata.ReadMetadata | split_csv_files.py:15-23 | the read loop computes `MetadataRecords`: the records in line order, or the first line's error |
| BatchSplit.NumBatches | split_csv_files.py:29 | the batch count is the ceiling of n / size: k batches hold n, k-1 do not, and k = 0 exactly when n = 0 |
| BatchSplit.BatchContents | split_csv_files.py:34-36 | `df.iloc[start:end]`: batch i holds the records from `i * size` on, `min(size, n - i * size)` of them, and is empty past the end |
| BatchSplit.PrefixThenBatch | split_csv_files.py:34-36 | the records before batch j - 1, followed by batch j - 1, are the records before batch j |
| BatchSplit.FlattenBatches | split_csv_files.py:33-36 | the first k batches, joined, are the records before `min(k * size, n)` |
| BatchSplit.BatchesPartition | split_csv_files.py:29-36 | joined in order, all the batches give back the records exactly: they are disjoint and contiguous |
| BatchSplit.BatchSizes | split_csv_files.py:29-36 | every batch has between 1 and `size` records, and every batch but the last has exactly `size` |
| BatchSplit.Decimal | split_csv_files.py:37 | `str(k)` is a non-empty string of decimal digits, with a leading zero only for k = 0 |
| BatchSplit.DecimalRoundTrip | split_csv_files.py:37 | reading the digits of `str(k)` back gives k |
| BatchSplit.BatchFileNameDigits | split_csv_files.py:37 | batch i's file name is `metadata_batch_`, then decimal digits without a leading zero that read back as i + 11, then `.csv` |
| BatchSplit.BatchFileNamesDistinct | split_csv_files.py:37 | different batches get different file names |
| BatchSplit.WriteBatches | split_csv_files.py:29-38 | the loop writes `ceil(n/500)` files; file i is `metadata_batch_{i+11}.csv` with batch i; the contents join back to the records; the sizes are bounded; the names are pairwise distinct |

## Left out

- Streamlit rendering is not modelled: audio players, text areas, markdown
  messages, the preview table, and `st.warning` text. A warning is a
  returned flag, and "No more items" is a returned `false`.
- `safe_rerun` and rerun-driven control flow are not modelled. Each button
  is one method, and a rerun is the caller calling `Refresh` again.
- The `selected_row` widget-key interplay is not modelled. The selection is
  an index in `[0, N)`, the precondition of `ConfirmRow`.
- The row picker's labels are not modelled. Its `format_func` slices every
  transcript (re_check.py:184, building.py:182), so one NaN transcript
  raises `TypeError`. The page then stops before Confirm Row, the detail
  view, Previous/Next and the download. Two ways this happens:
  - a reloaded export with an empty transcript, which
    `ExportReloadsInRecheck` proves comes back NaN;
  - a file without `transcripts`, after the reindex.
- File I/O is a parameter:
  - `pd.read_csv` gives an `Option<Table>`, where `None` means it raised;
  - `json.loads` is a function returning an optional object;
  - `os.listdir` and `os.makedirs` are not modelled;
  - `to_csv` with BOM and quoting is modelled as a header plus row triples.
- `os.path.exists` on the audio path is not modelled: it only chooses
  between playing the clip and showing an error message.
- `print` in split_csv_files.py is not modelled.
- `math.ceil(len(df) / batch_size)` goes through a float. The model uses
  exact integer ceiling division, which agrees for every row count a file
  can hold.
- Mismatched lengths are not modelled. `TaggingRun`, `DisplayItem`,
  `ExportCsv` and `TaggingExportCsv` require both lists to have one entry per
  row (`Synced`). tagging.py has no length guard, so its behaviour when the
  metadata file changes between reruns is not modelled.
- `Previous`, `Next` and `DisplayItem` require the cursor key to be present.
  When the first load of a confirmed batch fails, `current_index` stays
  absent, and a later rerun that loads the file then raises
  `AttributeError` at re_check.py:204 or 208. That
  failure is not modelled.
- Review.AsTable: models `pd.read_csv` only through pandas 2's default NA
  strings. Type inference is not modelled: a column whose every field looks
  like a number reads back as numbers, not text. Quoting is assumed to
  round-trip every other field's text.
- The session's `confirmed_csv` does not tell apart "key absent" and "key
  holds `None`". No step of the pages distinguishes the two.
- The file picker with no CSV files, and `st.stop()` after it, are not
  modelled. Neither touches the session state.
- fix.py is not part of this model. It is a one-off column projection over
  pandas I/O.
- There is no accept-only filter and no per-row confirmation toggle. The
  pages do not have them.

Where the code differs from a plain reading of the pages' intent, the model
follows the code:

- Next warns on every press that clamps, not only on the first one
  (`NextOnSingleRow`).
- On an empty batch, Next leaves the cursor at -1 (`NextOnEmptyBatch`).
- re_check.py's stale guard re-derives tags from the reindexed table.
  A file without a `tag` column therefore gives NaN tags, not `None`, and
  the untagged count reads 0 (`ReindexedTagsNeverFallBack`).
- tagging.py exports its transcript column as `transcript`. The other two
  pages use `transcripts`.
