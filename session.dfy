/** The review session: the `st.session_state` keys that re_check.py,
    building.py and tagging.py keep between reruns, as one class whose two
    constant policies select the page. A key the page has not set yet, or
    that Cancel popped, is `None`. */
module ReviewSession {
  import opened Records
  import opened Review

  /** The tag button pressed while `display_item` shows a row. */
  datatype Click = NoClick | ClickYes | ClickNo

  /** The navigation button pressed on tagging.py's page. */
  datatype Press = NoPress | PressPrevious | PressNext

  /** The tag a button writes. */
  function ClickTag(click: Click): (tag: Cell)
    requires click != NoClick
    ensures tag != Null
  {
    if click == ClickYes then YesTag else NoTag
  }

  class Session {
    /** re_check.py: Verbatim and FromTagColumn; building.py: FromFilename and
        AllNull; tagging.py: FromFilename and NoneString. */
    const audio: AudioPolicy
    const tagPolicy: TagPolicy

    var batchConfirmed: Option<bool>
    /** The confirmed file name; an absent key and the default `None` are one state here. */
    var confirmedCsv: Option<string>
    var selectedRow: Option<int>
    var rowConfirmed: Option<bool>
    var currentIndex: Option<int>
    var editedTranscripts: Option<seq<Cell>>
    var tags: Option<seq<Cell>>

    /** Both per-row lists exist and have one entry per row of an n-row batch. */
    predicate Synced(n: nat)
      reads this
    {
      && editedTranscripts.Some? && tags.Some?
      && |editedTranscripts.value| == n && |tags.value| == n
    }

    /** The session invariant for an n-row batch: the lists are synced and
        the cursor is where the page's own moves can put it. */
    predicate Valid(n: nat)
      reads this
    {
      Synced(n) && currentIndex.Some? && CursorBound(currentIndex.value, n)
    }

    /** The state `initialize_state_from_file` leaves for a loaded table. */
    predicate InitializedFrom(t: Table)
      requires WellFormed(t) && "transcripts" in t.columns
      reads this
    {
      && currentIndex == Some(0)
      && rowConfirmed == Some(false)
      && editedTranscripts == Some(Column(t, "transcripts"))
      && tags == Some(InitialTags(tagPolicy, t))
    }

    /** A fresh browser session: no key is set. */
    constructor (audio: AudioPolicy, tagPolicy: TagPolicy)
      ensures this.audio == audio && this.tagPolicy == tagPolicy
      ensures batchConfirmed.None? && confirmedCsv.None? && selectedRow.None? && rowConfirmed.None?
      ensures currentIndex.None? && editedTranscripts.None? && tags.None?
    {
      this.audio := audio;
      this.tagPolicy := tagPolicy;
      batchConfirmed, confirmedCsv, selectedRow, rowConfirmed := None, None, None, None;
      currentIndex, editedTranscripts, tags := None, None, None;
    }

    /** The defaults `main` sets for the keys that are still absent. */
    method EnsureDefaults()
      modifies this`batchConfirmed, this`confirmedCsv, this`selectedRow, this`rowConfirmed
      ensures batchConfirmed == if old(batchConfirmed).None? then Some(false) else old(batchConfirmed)
      ensures confirmedCsv == old(confirmedCsv)
      ensures selectedRow == if old(selectedRow).None? then Some(0) else old(selectedRow)
      ensures rowConfirmed == if old(rowConfirmed).None? then Some(false) else old(rowConfirmed)
    {
      if batchConfirmed.None? { batchConfirmed := Some(false); }
      if confirmedCsv.None? { confirmedCsv := None; }
      if selectedRow.None? { selectedRow := Some(0); }
      if rowConfirmed.None? { rowConfirmed := Some(false); }
    }

    /** `main` goes past the file picker only once a batch is confirmed. */
    predicate Proceeds()
      reads this
    {
      batchConfirmed == Some(true)
    }

    /** `initialize_state_from_file`. The cursor is reset before the
        transcripts are read, so a file without a `transcripts` column
        (a `KeyError`) leaves the cursor at 0 and everything else as it was. */
    method InitializeFromFile(file: Option<Table>) returns (err: Option<LoadError>)
      requires file.Some? ==> WellFormed(file.value)
      modifies this`currentIndex, this`editedTranscripts, this`tags, this`rowConfirmed
      ensures var loaded := LoadBatch(audio, file);
        if loaded.Err? then
          err == Some(loaded.error) && currentIndex == old(currentIndex)
        else if "transcripts" !in loaded.value.columns then
          err == Some(MissingColumn("transcripts")) && currentIndex == Some(0)
        else
          err.None? && InitializedFrom(loaded.value)
      ensures err.Some? ==> editedTranscripts == old(editedTranscripts) && tags == old(tags)
                            && rowConfirmed == old(rowConfirmed)
      ensures err.None? ==> Valid(|file.value.rows|)
    {
      var loaded := LoadBatch(audio, file);
      if loaded.Err? {
        return Some(loaded.error);
      }
      var df := loaded.value;
      currentIndex := Some(0);
      if "transcripts" !in df.columns {
        return Some(MissingColumn("transcripts"));
      }
      editedTranscripts := Some(Column(df, "transcripts"));
      tags := Some(InitialTags(tagPolicy, df));
      rowConfirmed := Some(false);
      err := None;
    }

    /** "Confirm Batch File": records the chosen file and initialises from it.
        The batch stays confirmed even when loading then stops the page. */
    method ConfirmBatch(chosen: string, file: Option<Table>) returns (err: Option<LoadError>)
      requires file.Some? ==> WellFormed(file.value)
      modifies this
      ensures batchConfirmed == Some(true) && confirmedCsv == Some(chosen)
      ensures selectedRow == old(selectedRow)
      ensures var loaded := LoadBatch(audio, file);
        && (loaded.Err? ==> err == Some(loaded.error) && currentIndex == old(currentIndex))
        && (loaded.Ok? && "transcripts" !in loaded.value.columns ==>
              err == Some(MissingColumn("transcripts")) && currentIndex == Some(0))
      ensures err.None? <==> LoadBatch(audio, file).Ok? && "transcripts" in LoadBatch(audio, file).value.columns
      ensures err.None? ==> InitializedFrom(LoadBatch(audio, file).value) && Valid(|file.value.rows|)
      ensures err.Some? ==> editedTranscripts == old(editedTranscripts) && tags == old(tags)
                            && rowConfirmed == old(rowConfirmed)
    {
      confirmedCsv := Some(chosen);
      batchConfirmed := Some(true);
      err := InitializeFromFile(file);
    }

    /** "Cancel Batch File": pops all seven keys. */
    method CancelBatch()
      modifies this
      ensures batchConfirmed.None? && confirmedCsv.None? && selectedRow.None? && rowConfirmed.None?
      ensures currentIndex.None? && editedTranscripts.None? && tags.None?
    {
      batchConfirmed, confirmedCsv, selectedRow, rowConfirmed := None, None, None, None;
      currentIndex, editedTranscripts, tags := None, None, None;
    }

    /** The top of every rerun past the picker: load the file, keep the three
        review columns, and re-derive a list that is absent or whose length
        is not the row count; a list of the right length survives untouched. */
    method Refresh(file: Option<Table>) returns (r: Result<Table, LoadError>)
      requires Proceeds()
      requires file.Some? ==> WellFormed(file.value)
      modifies this`editedTranscripts, this`tags
      ensures var loaded := LoadBatch(audio, file);
        && (loaded.Err? ==> r == Err(loaded.error))
        && (loaded.Ok? ==> r == Ok(Reindex(loaded.value, ReviewColumns)))
      ensures r.Err? ==> editedTranscripts == old(editedTranscripts) && tags == old(tags)
      ensures r.Ok? ==> WellFormed(r.value) && r.value.columns == ReviewColumns
                        && |r.value.rows| == |file.value.rows| && Synced(|r.value.rows|)
      ensures r.Ok? ==> (editedTranscripts ==
        if old(editedTranscripts).Some? && |old(editedTranscripts).value| == |r.value.rows|
        then old(editedTranscripts) else Some(Column(r.value, "transcripts")))
      ensures r.Ok? ==> (tags ==
        if old(tags).Some? && |old(tags).value| == |r.value.rows|
        then old(tags) else Some(InitialTags(tagPolicy, r.value)))
    {
      var loaded := LoadBatch(audio, file);
      if loaded.Err? {
        return Err(loaded.error);
      }
      var df := Reindex(loaded.value, ReviewColumns);
      if editedTranscripts.None? || |editedTranscripts.value| != |df.rows| {
        editedTranscripts := Some(Column(df, "transcripts"));
      }
      if tags.None? || |tags.value| != |df.rows| {
        tags := Some(InitialTags(tagPolicy, df));
      }
      r := Ok(df);
    }

    /** `tags.count(None)`: zero exactly when every row has been tagged. */
    function Remaining(): (k: nat)
      requires tags.Some?
      reads this
      ensures k <= |tags.value|
      ensures k == 0 <==> forall i :: 0 <= i < |tags.value| ==> tags.value[i] != Null
    {
      CountNullZeroIff(tags.value);
      CountNull(tags.value)
    }

    /** "Confirm Row Selection": the picked row becomes the cursor and the
        detail view opens. */
    method ConfirmRow(n: nat, selected: int)
      requires InBatch(selected, n)
      modifies this`currentIndex, this`rowConfirmed
      ensures currentIndex == Some(selected) && rowConfirmed == Some(true)
      ensures Synced(n) ==> Valid(n)
    {
      currentIndex := Some(selected);
      rowConfirmed := Some(true);
    }

    /** `display_item` at the cursor, with the tag button pressed in this
        run: nothing changes and "No more items" shows when the cursor is
        not a row; otherwise the button overwrites that row's tag only. */
    method DisplayItem(n: nat, click: Click) returns (shown: bool)
      requires Synced(n) && currentIndex.Some?
      modifies this`tags
      ensures shown <==> InBatch(currentIndex.value, n)
      ensures tags == if shown && click != NoClick
                      then Some(old(tags).value[currentIndex.value := ClickTag(click)])
                      else old(tags)
      ensures Synced(n)
    {
      var index := currentIndex.value;
      if 0 <= index < n {
        if click == ClickYes {
          tags := Some(tags.value[index := YesTag]);
        } else if click == ClickNo {
          tags := Some(tags.value[index := NoTag]);
        }
        shown := true;
      } else {
        shown := false;
      }
    }

    /** The detail view appears only while a row is confirmed. */
    method DetailView(n: nat, click: Click) returns (shown: bool)
      requires Synced(n) && currentIndex.Some? && rowConfirmed.Some?
      modifies this`tags
      ensures shown <==> rowConfirmed == Some(true) && InBatch(currentIndex.value, n)
      ensures tags == if shown && click != NoClick
                      then Some(old(tags).value[currentIndex.value := ClickTag(click)])
                      else old(tags)
      ensures Synced(n)
    {
      if rowConfirmed.value {
        shown := DisplayItem(n, click);
      } else {
        shown := false;
      }
    }

    /** The transcript box's change callback for the row it was drawn for.
        When the widget has no value the fallback is the current text, so
        the list is unchanged. */
    method EditTranscript(index: int, widget: Option<string>)
      requires editedTranscripts.Some? && 0 <= index < |editedTranscripts.value|
      modifies this`editedTranscripts
      ensures editedTranscripts.Some? && |editedTranscripts.value| == |old(editedTranscripts).value|
      ensures widget.Some? ==> editedTranscripts.value == old(editedTranscripts).value[index := Text(widget.value)]
      ensures widget.None? ==> editedTranscripts == old(editedTranscripts)
    {
      var current := editedTranscripts.value[index];
      var newText := if widget.Some? then Text(widget.value) else current;
      assert widget.None? ==> editedTranscripts.value[index := newText] == editedTranscripts.value;
      editedTranscripts := Some(editedTranscripts.value[index := newText]);
    }

    /** "Previous" on re_check.py and building.py, on an n-row batch. */
    method Previous(n: nat)
      requires currentIndex.Some?
      modifies this`currentIndex, this`rowConfirmed
      ensures currentIndex == Some(PreviousIndex(old(currentIndex).value))
      ensures rowConfirmed == Some(true)
      ensures old(Valid(n)) ==> Valid(n)
    {
      currentIndex := Some(if currentIndex.value - 1 > 0 then currentIndex.value - 1 else 0);
      rowConfirmed := Some(true);
    }

    /** "Next" on re_check.py and building.py; `warned` is the "last item" warning. */
    method Next(n: nat) returns (warned: bool)
      requires currentIndex.Some?
      modifies this`currentIndex, this`rowConfirmed
      ensures currentIndex == Some(NextIndex(old(currentIndex).value, n).index)
      ensures warned == NextIndex(old(currentIndex).value, n).warned
      ensures rowConfirmed == Some(true)
      ensures old(Valid(n)) ==> Valid(n)
    {
      var c := currentIndex.value + 1;
      warned := false;
      if c >= n {
        c := n - 1;
        warned := true;
      }
      currentIndex := Some(c);
      rowConfirmed := Some(true);
    }

    /** "Download Data (CSV)" on re_check.py and building.py: the reindexed
        table with the session's transcripts and tags, row for row. */
    function ExportCsv(df: Table): (csv: Csv)
      requires WellFormed(df) && df.columns == ReviewColumns && Synced(|df.rows|)
      reads this
      ensures csv.header == ReviewHeader && |csv.rows| == |df.rows|
      ensures forall i :: 0 <= i < |df.rows| ==>
        csv.rows[i] == ExportRow(df.rows[i]["audio_path"], editedTranscripts.value[i], tags.value[i])
    {
      Csv(ReviewHeader, Project(Column(df, "audio_path"), editedTranscripts.value, tags.value))
    }

    /** tagging.py's session keys, each set only when absent: the cursor at
        0, a copy of the transcripts, and the string "None" for every tag.
        An empty metadata file gives a table without a `transcript` column,
        and copying it raises. */
    method InitializeIfAbsent(df: Table) returns (err: Option<LoadError>)
      requires tagPolicy == NoneString
      requires WellFormed(df)
      modifies this`currentIndex, this`editedTranscripts, this`tags
      ensures currentIndex == if old(currentIndex).None? then Some(0) else old(currentIndex)
      ensures err.Some? <==> old(editedTranscripts).None? && "transcript" !in df.columns
      ensures err.Some? ==> err == Some(MissingColumn("transcript"))
                            && editedTranscripts == old(editedTranscripts) && tags == old(tags)
      ensures err.None? && old(editedTranscripts).None? ==>
                editedTranscripts == Some(Column(df, "transcript"))
      ensures err.None? && old(editedTranscripts).Some? ==> editedTranscripts == old(editedTranscripts)
      ensures err.None? ==> tags == if old(tags).None? then Some(InitialTags(tagPolicy, df)) else old(tags)
      ensures err.None? && old(tags).None? ==>
                |tags.value| == |df.rows| && forall i :: 0 <= i < |df.rows| ==> tags.value[i] == Text("None")
    {
      if currentIndex.None? {
        currentIndex := Some(0);
      }
      if editedTranscripts.None? {
        if "transcript" !in df.columns {
          return Some(MissingColumn("transcript"));
        }
        editedTranscripts := Some(Column(df, "transcript"));
      }
      if tags.None? {
        tags := Some(InitialTags(tagPolicy, df));
      }
      err := None;
    }

    /** One run of tagging.py's page: show the cursor's row with its tag
        buttons, and offer Previous/Next only when a row was shown. Only one
        button can be pressed per run. */
    method TaggingRun(n: nat, click: Click, press: Press) returns (shown: bool, warned: bool)
      requires Synced(n) && currentIndex.Some?
      requires click == NoClick || press == NoPress
      modifies this`tags, this`currentIndex
      ensures var c := old(currentIndex).value;
        && (shown <==> InBatch(c, n))
        && tags == (if shown && click != NoClick then Some(old(tags).value[c := ClickTag(click)]) else old(tags))
        && currentIndex == Some(
             if !shown || press == NoPress then c
             else if press == PressPrevious then PreviousIndex(c)
             else NextIndex(c, n).index)
        && warned == (shown && press == PressNext && NextIndex(c, n).warned)
      ensures Synced(n)
      ensures old(Valid(n)) ==> Valid(n)
    {
      shown := DisplayItem(n, click);
      warned := false;
      if shown {
        if press == PressPrevious {
          currentIndex := Some(PreviousIndex(currentIndex.value));
        } else if press == PressNext {
          var step := NextIndex(currentIndex.value, n);
          currentIndex := Some(step.index);
          warned := step.warned;
        }
      }
    }

    /** "Download Data (CSV)" on tagging.py: one row per segment with the
        session's transcript and tag. */
    function TaggingExportCsv(df: Table): (csv: Csv)
      requires WellFormed(df) && "audio_path" in df.columns && Synced(|df.rows|)
      reads this
      ensures csv.header == TaggingHeader && |csv.rows| == |df.rows|
      ensures forall i :: 0 <= i < |df.rows| ==>
        csv.rows[i] == ExportRow(df.rows[i]["audio_path"], editedTranscripts.value[i], tags.value[i])
    {
      Csv(TaggingHeader, Project(Column(df, "audio_path"), editedTranscripts.value, tags.value))
    }
  }
}
