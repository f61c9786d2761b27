/** The logic the three review pages (re_check.py, building.py, tagging.py)
    share, as functions of values: loading a batch file under an audio-path
    policy, the initial tag list under a tag policy, the count of untagged
    rows, the cursor arithmetic of Previous/Next, and the export projection. */
module Review {
  import opened Records

  /** Where a row's audio path comes from: the file's own `audio_path`
      column (re_check.py), or derived from its `filename` column
      (building.py, tagging.py). */
  datatype AudioPolicy = Verbatim | FromFilename

  /** What a fresh tag list holds: the file's `tag` column when it has one
      (re_check.py), Python `None` for every row (building.py), or the string
      "None" for every row (tagging.py). */
  datatype TagPolicy = FromTagColumn | AllNull | NoneString

  /** Why a load stops: `pd.read_csv` raised, or a column the page needs is absent. */
  datatype LoadError = Unreadable | MissingColumn(name: string)

  const YesTag: Cell := Text("Yes")
  const NoTag: Cell := Text("No")

  /** The column the audio-path policy needs in the batch file. */
  function RequiredColumn(audio: AudioPolicy): string {
    match audio
    case Verbatim => "audio_path"
    case FromFilename => "filename"
  }

  /** `load_batch_file`: `file` is what reading the confirmed CSV gave, `None`
      when `pd.read_csv` raised. The error path stands for `st.error` followed
      by `st.stop()`. */
  function LoadBatch(audio: AudioPolicy, file: Option<Table>): (r: Result<Table, LoadError>)
    requires file.Some? ==> WellFormed(file.value)
    ensures file.None? ==> r == Err(Unreadable)
    ensures file.Some? ==> (r.Ok? <==> RequiredColumn(audio) in file.value.columns)
    ensures file.Some? && r.Err? ==> r.error == MissingColumn(RequiredColumn(audio))
    ensures r.Ok? ==> WellFormed(r.value) && |r.value.rows| == |file.value.rows|
    ensures r.Ok? ==> r.value.columns == file.value.columns + {"audio_path"}
    ensures r.Ok? ==> forall c :: c in file.value.columns && c != "audio_path" ==>
                        Column(r.value, c) == Column(file.value, c)
    ensures r.Ok? && audio.Verbatim? ==> r.value == file.value
    ensures r.Ok? && audio.FromFilename? ==> forall i :: 0 <= i < |r.value.rows| ==>
              Column(r.value, "audio_path")[i] == Text(SegmentAudioPath(file.value.rows[i]["filename"]))
  {
    match file
    case None => Err(Unreadable)
    case Some(t) =>
      if RequiredColumn(audio) !in t.columns then Err(MissingColumn(RequiredColumn(audio)))
      else if audio.Verbatim? then Ok(t)
      else
        var paths := seq(|t.rows|, i requires 0 <= i < |t.rows| => Text(SegmentAudioPath(t.rows[i]["filename"])));
        Ok(SetColumn(t, "audio_path", paths))
  }

  /** The tag list a page builds for a table `t` under its tag policy:
      `df["tag"].tolist() if "tag" in df.columns else [None] * len(df)`,
      `[None] * len(df)` or `["None"] * len(df)`. */
  function InitialTags(policy: TagPolicy, t: Table): (tags: seq<Cell>)
    requires WellFormed(t)
    ensures |tags| == |t.rows|
    ensures policy.FromTagColumn? && "tag" in t.columns ==>
              forall i :: 0 <= i < |tags| ==> tags[i] == t.rows[i]["tag"]
    ensures policy.AllNull? || (policy.FromTagColumn? && "tag" !in t.columns) ==>
              forall i :: 0 <= i < |tags| ==> tags[i] == Null
    ensures policy.NoneString? ==> forall i :: 0 <= i < |tags| ==> tags[i] == Text("None")
  {
    match policy
    case FromTagColumn => if "tag" in t.columns then Column(t, "tag") else Repeat(Null, |t.rows|)
    case AllNull => Repeat(Null, |t.rows|)
    case NoneString => Repeat(Text("None"), |t.rows|)
  }

  /** The columns the review pages keep after loading (re_check.py:151). */
  const ReviewColumns: set<string> := {"audio_path", "transcripts", "tag"}

  /** After the reindex to the three review columns the `tag` column always
      exists, so the `[None] * len(df)` fallback of the `FromTagColumn` policy
      is never taken: a file without tags yields all missing cells, none of
      them Python `None`, and the untagged count is zero. */
  lemma ReindexedTagsNeverFallBack(t: Table)
    requires WellFormed(t) && "tag" !in t.columns
    ensures InitialTags(FromTagColumn, Reindex(t, ReviewColumns)) == Repeat(Missing, |t.rows|)
    ensures CountNull(InitialTags(FromTagColumn, Reindex(t, ReviewColumns))) == 0
  {
    var tags := InitialTags(FromTagColumn, Reindex(t, ReviewColumns));
    assert tags == Repeat(Missing, |t.rows|);
    NoNullMeansZero(tags);
  }

  /** `tags.count(None)`: how many rows still carry Python `None`. */
  function CountNull(s: seq<Cell>): (k: nat)
    ensures k <= |s|
    ensures k == multiset(s)[Null]
  {
    if s == [] then 0
    else
      assert s == [s[0]] + s[1..];
      (if s[0] == Null then 1 else 0) + CountNull(s[1..])
  }

  lemma {:induction false} NoNullMeansZero(s: seq<Cell>)
    requires forall i :: 0 <= i < |s| ==> s[i] != Null
    ensures CountNull(s) == 0
  {
    if s != [] {
      NoNullMeansZero(s[1..]);
    }
  }

  /** The "all tags updated" message shows exactly when no row is `None`;
      otherwise the count is positive and names an untagged row. */
  lemma {:induction false} CountNullZeroIff(s: seq<Cell>)
    ensures CountNull(s) == 0 <==> forall i :: 0 <= i < |s| ==> s[i] != Null
  {
    if s != [] {
      CountNullZeroIff(s[1..]);
      if CountNull(s) == 0 {
        forall i | 0 <= i < |s| ensures s[i] != Null {
          if i > 0 { assert s[i] == s[1..][i - 1]; }
        }
      }
    }
  }

  /** Every row of a fresh `[None] * n` list counts as untagged. */
  lemma {:induction false} CountNullAllNull(n: nat)
    ensures CountNull(Repeat(Null, n)) == n
  {
    if n > 0 {
      assert Repeat(Null, n)[1..] == Repeat(Null, n - 1);
      CountNullAllNull(n - 1);
    }
  }

  /** Writing a tag into row `i` lowers the untagged count by one when that
      row was `None`, and leaves it alone otherwise. */
  lemma {:induction false} CountNullAfterTag(s: seq<Cell>, i: nat, v: Cell)
    requires i < |s| && v != Null
    ensures CountNull(s[i := v]) == CountNull(s) - (if s[i] == Null then 1 else 0)
  {
    if i > 0 {
      assert s[i := v][1..] == s[1..][i - 1 := v];
      CountNullAfterTag(s[1..], i - 1, v);
    } else {
      assert s[i := v][1..] == s[1..];
    }
  }

  /** `display_item`'s guard `0 <= index < len(df)`. */
  predicate InBatch(index: int, n: nat) {
    0 <= index < n
  }

  /** The positions the cursor can reach from 0 by the page's own moves:
      a row of the batch, or, for an empty batch, 0 and the -1 that Next leaves. */
  predicate CursorBound(c: int, n: nat) {
    if n == 0 then -1 <= c <= 0 else 0 <= c < n
  }

  /** Previous: `max(0, current_index - 1)`. */
  function PreviousIndex(c: int): (r: int)
    ensures 0 <= r
    ensures c >= 1 ==> r == c - 1
    ensures c <= 1 ==> r == 0
  {
    if c - 1 > 0 then c - 1 else 0
  }

  /** The cursor after Next, and whether the "last item" warning shows. */
  datatype NextStep = NextStep(index: int, warned: bool)

  /** Next: add one, and when that reaches `len(df)` clamp to `len(df) - 1` and warn. */
  function NextIndex(c: int, n: nat): (r: NextStep)
    ensures r.index < n
    ensures r.warned <==> c + 1 >= n
    ensures !r.warned ==> r.index == c + 1
    ensures r.warned ==> r.index == n - 1
  {
    if c + 1 >= n then NextStep(n - 1, true) else NextStep(c + 1, false)
  }

  /** Previous and Next keep the cursor on a row of a non-empty batch, and
      within {-1, 0} for an empty one. */
  lemma NavigationKeepsCursorBound(c: int, n: nat)
    requires CursorBound(c, n)
    ensures CursorBound(PreviousIndex(c), n)
    ensures CursorBound(NextIndex(c, n).index, n)
    ensures n >= 1 ==> InBatch(PreviousIndex(c), n) && InBatch(NextIndex(c, n).index, n)
  {
  }

  /** With no rows, Next leaves the cursor at -1, which `display_item` rejects. */
  lemma NextOnEmptyBatch(c: int)
    requires c >= -1
    ensures NextIndex(c, 0) == NextStep(-1, true)
    ensures !InBatch(NextIndex(c, 0).index, 0)
  {
  }

  /** One row: Next three times from the first row keeps the cursor there and
      warns on every one of the three calls. */
  lemma NextOnSingleRow()
    ensures NextIndex(0, 1) == NextStep(0, true)
    ensures NextIndex(NextIndex(NextIndex(0, 1).index, 1).index, 1) == NextStep(0, true)
  {
  }

  /** One exported row: audio path, transcript, tag. */
  datatype ExportRow = ExportRow(audioPath: Cell, transcript: Cell, tag: Cell)

  /** An exported table: a header of three column names and its rows. */
  datatype Csv = Csv(header: seq<string>, rows: seq<ExportRow>)

  /** The header re_check.py and building.py write (re_check.py:151). */
  const ReviewHeader: seq<string> := ["audio_path", "transcripts", "tag"]
  /** The header tagging.py writes (tagging.py:10-11, 74-75). */
  const TaggingHeader: seq<string> := ["audio_path", "transcript", "tag"]

  /** `df["transcripts"] = edited; df["tag"] = tags`: row i pairs the file's
      audio path with the session's transcript and tag for row i. */
  function Project(audio: seq<Cell>, transcripts: seq<Cell>, tags: seq<Cell>): (rows: seq<ExportRow>)
    requires |audio| == |transcripts| == |tags|
    ensures |rows| == |audio|
    ensures forall i :: 0 <= i < |rows| ==>
              rows[i].audioPath == audio[i] && rows[i].transcript == transcripts[i] && rows[i].tag == tags[i]
  {
    seq(|audio|, i requires 0 <= i < |audio| => ExportRow(audio[i], transcripts[i], tags[i]))
  }

  /** The text `to_csv` writes for a cell: `None` and NaN both become an empty field. */
  function Written(c: Cell): string {
    match c
    case Text(s) => s
    case _ => ""
  }

  /** The field texts `pd.read_csv` reads as NaN by default (pandas 2). */
  const NaStrings: set<string> := {
    "", "#N/A", "#N/A N/A", "#NA", "-1.#IND", "-1.#QNAN", "-NaN", "-nan", "1.#IND", "1.#QNAN",
    "<NA>", "N/A", "NA", "NULL", "NaN", "None", "n/a", "nan", "null"}

  /** The cell `pd.read_csv` gives for a field's text: never Python `None`. */
  function ReadField(s: string): (c: Cell)
    ensures c != Null
    ensures c == Missing <==> s in NaStrings
    ensures c.Text? ==> c.s == s
  {
    if s in NaStrings then Missing else Text(s)
  }

  /** A cell after a write and a read: text survives unless it reads as NaN;
      `None` and NaN come back NaN. */
  function Reread(c: Cell): (d: Cell)
    ensures d == c <==> c == Missing || (c.Text? && c.s !in NaStrings)
    ensures d != c ==> d == Missing
  {
    ReadField(Written(c))
  }

  /** `Reread` on every cell of a column. */
  function RereadAll(cs: seq<Cell>): (ds: seq<Cell>)
    ensures |ds| == |cs| && forall i :: 0 <= i < |cs| ==> ds[i] == Reread(cs[i])
  {
    seq(|cs|, i requires 0 <= i < |cs| => Reread(cs[i]))
  }

  /** An exported file read back by `pd.read_csv`: each row keyed by the
      header, each cell the field's text as read back. */
  function AsTable(csv: Csv): (t: Table)
    requires |csv.header| == 3
    requires csv.header[0] != csv.header[1] && csv.header[0] != csv.header[2] && csv.header[1] != csv.header[2]
    ensures WellFormed(t) && t.columns == {csv.header[0], csv.header[1], csv.header[2]}
    ensures |t.rows| == |csv.rows|
    ensures forall i :: 0 <= i < |csv.rows| ==>
              && t.rows[i][csv.header[0]] == Reread(csv.rows[i].audioPath)
              && t.rows[i][csv.header[1]] == Reread(csv.rows[i].transcript)
              && t.rows[i][csv.header[2]] == Reread(csv.rows[i].tag)
  {
    Table({csv.header[0], csv.header[1], csv.header[2]},
          seq(|csv.rows|, i requires 0 <= i < |csv.rows| =>
            map[csv.header[0] := Reread(csv.rows[i].audioPath),
                csv.header[1] := Reread(csv.rows[i].transcript),
                csv.header[2] := Reread(csv.rows[i].tag)]))
  }

  /** An export of the review pages passes re_check.py's loader, and a fresh
      session built from it holds every cell as `pd.read_csv` reads it back.
      (Whether the page gets past its row picker is another matter: a NaN
      transcript stops it there.)
      Yes/No tags survive, but a `None` tag comes back NaN, so the reloaded
      session counts no untagged row even when the export had some. */
  lemma ExportReloadsInRecheck(audio: seq<Cell>, transcripts: seq<Cell>, tags: seq<Cell>)
    requires |audio| == |transcripts| == |tags|
    ensures var t := AsTable(Csv(ReviewHeader, Project(audio, transcripts, tags)));
      && WellFormed(t)
      && LoadBatch(Verbatim, Some(t)) == Ok(t)
      && "transcripts" in t.columns
      && Column(t, "audio_path") == RereadAll(audio)
      && Column(t, "transcripts") == RereadAll(transcripts)
      && InitialTags(FromTagColumn, t) == RereadAll(tags)
      && (forall i :: 0 <= i < |tags| && (tags[i] == YesTag || tags[i] == NoTag) ==>
            InitialTags(FromTagColumn, t)[i] == tags[i])
      && (forall i :: 0 <= i < |tags| && tags[i] == Null ==> InitialTags(FromTagColumn, t)[i] == Missing)
      && CountNull(InitialTags(FromTagColumn, t)) == 0
  {
    var t := AsTable(Csv(ReviewHeader, Project(audio, transcripts, tags)));
    ExportedColumns(audio, transcripts, tags);
    assert LoadBatch(Verbatim, Some(t)) == Ok(t);
    assert InitialTags(FromTagColumn, t) == Column(t, "tag");
    YesNoSurvive();
    NoNullMeansZero(RereadAll(tags));
  }

  /** "Yes" and "No" are not among the texts `pd.read_csv` reads as NaN. */
  lemma YesNoSurvive()
    ensures Reread(YesTag) == YesTag && Reread(NoTag) == NoTag
  {
    assert "Yes" !in NaStrings;
    assert "No" !in NaStrings;
  }

  /** The three columns of a reloaded export, cell by cell. */
  lemma ExportedColumns(audio: seq<Cell>, transcripts: seq<Cell>, tags: seq<Cell>)
    requires |audio| == |transcripts| == |tags|
    ensures var t := AsTable(Csv(ReviewHeader, Project(audio, transcripts, tags)));
      && t.columns == ReviewColumns
      && Column(t, "audio_path") == RereadAll(audio)
      && Column(t, "transcripts") == RereadAll(transcripts)
      && Column(t, "tag") == RereadAll(tags)
  {
    var t := AsTable(Csv(ReviewHeader, Project(audio, transcripts, tags)));
    assert t.columns == ReviewColumns;
    assert Column(t, "audio_path") == RereadAll(audio);
    assert Column(t, "transcripts") == RereadAll(transcripts);
    assert Column(t, "tag") == RereadAll(tags);
  }

  /** building.py cannot reload an export: the export has no `filename` column. */
  lemma ExportDoesNotReloadInBuilding(audio: seq<Cell>, transcripts: seq<Cell>, tags: seq<Cell>)
    requires |audio| == |transcripts| == |tags|
    ensures var t := AsTable(Csv(ReviewHeader, Project(audio, transcripts, tags)));
      WellFormed(t) && LoadBatch(FromFilename, Some(t)) == Err(MissingColumn("filename"))
  {
    var t := AsTable(Csv(ReviewHeader, Project(audio, transcripts, tags)));
    assert "filename" !in t.columns;
  }
}
