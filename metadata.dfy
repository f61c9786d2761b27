/** Reading the newline-delimited JSON metadata file, one object per line:
    tagging.py turns every line into a segment row, and split_csv_files.py
    skips whitespace-only lines and adds an audio path to every record.
    `json.loads` is a parameter: it gives the decoded object, or `None` when
    the text is not JSON or not an object (both raise in the scripts). */
module Metadata {
  import opened Records

  type Decoder = string -> Option<Row>

  /** The exception that ends the script: bad JSON, or a missing key. */
  datatype MetaError = InvalidJson | MissingKey(key: string)

  /** The characters Python's `str.strip()` and `str.isspace()` treat as whitespace. */
  predicate IsSpace(c: char) {
    || '\U{9}' <= c <= '\U{D}'
    || '\U{1C}' <= c <= ' '
    || c == '\U{85}' || c == '\U{A0}' || c == '\U{1680}'
    || '\U{2000}' <= c <= '\U{200A}'
    || c == '\U{2028}' || c == '\U{2029}' || c == '\U{202F}' || c == '\U{205F}' || c == '\U{3000}'
  }

  /** A line whose `strip()` is empty. */
  predicate IsBlank(line: string) {
    forall i :: 0 <= i < |line| ==> IsSpace(line[i])
  }

  /** `lstrip()`: drops the leading whitespace and nothing else. */
  function TrimLeft(s: string): (r: string)
    ensures |r| <= |s| && r == s[|s| - |r|..]
    ensures forall i :: 0 <= i < |s| - |r| ==> IsSpace(s[i])
    ensures r == [] || !IsSpace(r[0])
  {
    if s != [] && IsSpace(s[0]) then TrimLeft(s[1..]) else s
  }

  /** `rstrip()`: drops the trailing whitespace and nothing else. */
  function TrimRight(s: string): (r: string)
    ensures |r| <= |s| && r == s[..|r|]
    ensures forall i :: |r| <= i < |s| ==> IsSpace(s[i])
    ensures r == [] || !IsSpace(r[|r| - 1])
  {
    if s != [] && IsSpace(s[|s| - 1]) then TrimRight(s[..|s| - 1]) else s
  }

  /** How many whitespace characters the line starts with. */
  function LeadingSpaces(s: string): (n: nat)
    ensures n <= |s|
    ensures forall k :: 0 <= k < n ==> IsSpace(s[k])
    ensures n < |s| ==> !IsSpace(s[n])
  {
    if s != [] && IsSpace(s[0]) then 1 + LeadingSpaces(s[1..]) else 0
  }

  /** `lstrip()` drops exactly the leading whitespace. */
  lemma {:induction false} TrimLeftDropsLeadingSpaces(s: string)
    ensures |s| - |TrimLeft(s)| == LeadingSpaces(s)
  {
    if s != [] && IsSpace(s[0]) {
      TrimLeftDropsLeadingSpaces(s[1..]);
    }
  }

  /** `strip()` */
  function Strip(s: string): string {
    TrimRight(TrimLeft(s))
  }

  /** `strip()` keeps the piece of the line that starts after its leading
      whitespace, cuts only whitespace off its end, and leaves no whitespace
      at either end. */
  lemma StripIsSlice(s: string)
    ensures var r := Strip(s);
      && LeadingSpaces(s) + |r| <= |s|
      && r == s[LeadingSpaces(s)..LeadingSpaces(s) + |r|]
      && (forall k :: LeadingSpaces(s) + |r| <= k < |s| ==> IsSpace(s[k]))
      && (r == [] || (!IsSpace(r[0]) && !IsSpace(r[|r| - 1])))
  {
    StripStartsAfterLeadingSpaces(s);
    StripCutsTrailingSpaces(s);
    StripEndsNotSpace(s);
  }

  lemma StripStartsAfterLeadingSpaces(s: string)
    ensures LeadingSpaces(s) + |Strip(s)| <= |s|
    ensures Strip(s) == s[LeadingSpaces(s)..LeadingSpaces(s) + |Strip(s)|]
  {
    var l := TrimLeft(s);
    TrimLeftDropsLeadingSpaces(s);
    var i := |s| - |l|;
    var r := TrimRight(l);
    assert Strip(s) == r && LeadingSpaces(s) == i;
    assert l == s[i..] && r == l[..|r|];
    PrefixOfSuffix(s, i, |r|);
  }

  /** The first m elements after position i are the slice from i to i + m. */
  lemma PrefixOfSuffix<T>(s: seq<T>, i: nat, m: nat)
    requires i + m <= |s|
    ensures s[i..][..m] == s[i..i + m]
  {
  }

  /** What holds of every element of s[i..] from position m on holds of
      every element of s from position i + m on. */
  lemma TailOfSuffix<T>(s: seq<T>, i: nat, m: nat, p: T -> bool)
    requires i + m <= |s|
    requires forall j :: m <= j < |s| - i ==> p(s[i..][j])
    ensures forall k :: i + m <= k < |s| ==> p(s[k])
  {
    forall k | i + m <= k < |s|
      ensures p(s[k])
    {
      assert s[k] == s[i..][k - i];
    }
  }

  lemma StripCutsTrailingSpaces(s: string)
    ensures LeadingSpaces(s) + |Strip(s)| <= |s|
    ensures forall k :: LeadingSpaces(s) + |Strip(s)| <= k < |s| ==> IsSpace(s[k])
  {
    var l := TrimLeft(s);
    TrimLeftDropsLeadingSpaces(s);
    var i := |s| - |l|;
    var r := TrimRight(l);
    assert Strip(s) == r && LeadingSpaces(s) == i;
    assert l == s[i..];
    TailOfSuffix(s, i, |r|, IsSpace);
  }

  lemma StripEndsNotSpace(s: string)
    ensures Strip(s) == [] || (!IsSpace(Strip(s)[0]) && !IsSpace(Strip(s)[|Strip(s)| - 1]))
  {
    var l := TrimLeft(s);
    var r := TrimRight(l);
    if r != [] {
      assert r[0] == l[0] && !IsSpace(l[0]);
      assert !IsSpace(r[|r| - 1]);
    }
  }

  /** `line.strip()` is empty exactly for a whitespace-only line. */
  lemma StripEmptyIffBlank(s: string)
    ensures Strip(s) == [] <==> IsBlank(s)
  {
    var l := TrimLeft(s);
    if Strip(s) == [] {
      assert IsBlank(l);
    }
  }

  // ---- tagging.py ----

  /** One metadata line on tagging.py's page: the segment's audio path and
      its transcript. The `filename` key is read first. */
  function ParseSegment(line: string, decode: Decoder): (r: Result<Row, MetaError>)
    ensures r.Ok? <==> decode(Strip(line)).Some? && "filename" in decode(Strip(line)).value
                       && "transcripts" in decode(Strip(line)).value
    ensures r.Ok? ==> var x := decode(Strip(line)).value;
      && r.value.Keys == {"audio_path", "transcript"}
      && r.value["audio_path"] == Text(SegmentAudioPath(x["filename"]))
      && r.value["transcript"] == x["transcripts"]
    ensures r.Err? && decode(Strip(line)).Some? ==>
      r.error == MissingKey(if "filename" !in decode(Strip(line)).value then "filename" else "transcripts")
  {
    match decode(Strip(line))
    case None => Err(InvalidJson)
    case Some(x) =>
      if "filename" !in x then Err(MissingKey("filename"))
      else if "transcripts" !in x then Err(MissingKey("transcripts"))
      else Ok(map["audio_path" := Text(SegmentAudioPath(x["filename"])), "transcript" := x["transcripts"]])
  }

  /** A read loop that appends each line's result in turn and ends at the
      first exception. */
  function Collect<T, E>(rs: seq<Result<T, E>>): Result<seq<T>, E> {
    if rs == [] then Ok([])
    else
      match Collect(rs[..|rs| - 1])
      case Err(e) => Err(e)
      case Ok(prev) =>
        match rs[|rs| - 1]
        case Err(e) => Err(e)
        case Ok(x) => Ok(prev + [x])
  }

  /** Once a prefix has failed, the whole loop fails with that error. */
  lemma {:induction false} CollectErrorSticks<T, E>(rs: seq<Result<T, E>>, j: nat)
    requires j <= |rs| && Collect(rs[..j]).Err?
    ensures Collect(rs) == Collect(rs[..j])
  {
    if j < |rs| {
      var init := rs[..|rs| - 1];
      assert init[..j] == rs[..j];
      CollectErrorSticks(init, j);
    } else {
      assert rs[..j] == rs;
    }
  }

  /** One more step of the loop, given how the steps before it ended: a
      value is appended, or an exception ends the whole loop. */
  lemma CollectAdvance<T, E>(rs: seq<Result<T, E>>, i: nat, done: seq<T>)
    requires i < |rs| && Collect(rs[..i]) == Ok(done)
    ensures rs[i].Ok? ==> Collect(rs[..i + 1]) == Ok(done + [rs[i].value])
    ensures rs[i].Err? ==> Collect(rs) == Err(rs[i].error)
  {
    assert rs[..i + 1][..i] == rs[..i];
    if rs[i].Err? {
      CollectErrorSticks(rs, i + 1);
    }
  }

  /** The loop succeeds exactly when every step does, and then keeps one
      value per step, in order. */
  lemma {:induction false} CollectOnePerStep<T, E>(rs: seq<Result<T, E>>)
    ensures Collect(rs).Ok? <==> forall k :: 0 <= k < |rs| ==> rs[k].Ok?
    ensures Collect(rs).Ok? ==>
      |Collect(rs).value| == |rs| && forall k :: 0 <= k < |rs| ==> Collect(rs).value[k] == rs[k].value
  {
    if rs != [] {
      var init := rs[..|rs| - 1];
      CollectOnePerStep(init);
      assert forall k :: 0 <= k < |init| ==> init[k] == rs[k];
    }
  }

  /** What tagging.py's loop computes for each line. */
  function ParsedSegments(lines: seq<string>, decode: Decoder): (rs: seq<Result<Row, MetaError>>)
    ensures |rs| == |lines| && forall k :: 0 <= k < |lines| ==> rs[k] == ParseSegment(lines[k], decode)
  {
    seq(|lines|, k requires 0 <= k < |lines| => ParseSegment(lines[k], decode))
  }

  /** tagging.py's load loop: every line in order, the first failing line ending it. */
  function Segments(lines: seq<string>, decode: Decoder): Result<seq<Row>, MetaError> {
    Collect(ParsedSegments(lines, decode))
  }

  /** Blank lines are not skipped: loading succeeds exactly when every line
      parses, and then row k is line k's segment. */
  lemma SegmentsOnePerLine(lines: seq<string>, decode: Decoder)
    ensures Segments(lines, decode).Ok? <==> forall k :: 0 <= k < |lines| ==> ParseSegment(lines[k], decode).Ok?
    ensures Segments(lines, decode).Ok? ==>
      && |Segments(lines, decode).value| == |lines|
      && forall k :: 0 <= k < |lines| ==> Segments(lines, decode).value[k] == ParseSegment(lines[k], decode).value
  {
    var rs := ParsedSegments(lines, decode);
    assert Segments(lines, decode) == Collect(rs);
    CollectOnePerStep(rs);
    if Segments(lines, decode).Ok? {
      forall k | 0 <= k < |lines|
        ensures ParseSegment(lines[k], decode).Ok?
        ensures Segments(lines, decode).value[k] == ParseSegment(lines[k], decode).value
      {
        assert rs[k] == ParseSegment(lines[k], decode);
      }
    } else {
      var k :| 0 <= k < |rs| && !rs[k].Ok?;
      assert rs[k] == ParseSegment(lines[k], decode);
    }
  }

  /** The loop at tagging.py:6-12, appending one segment row per line. */
  method LoadSegments(lines: seq<string>, decode: Decoder) returns (r: Result<seq<Row>, MetaError>)
    ensures r == Segments(lines, decode)
  {
    ghost var parsed := ParsedSegments(lines, decode);
    var data: seq<Row> := [];
    var i := 0;
    while i < |lines|
      invariant 0 <= i <= |lines|
      invariant Collect(parsed[..i]) == Ok(data)
    {
      var seg := ParseSegment(lines[i], decode);
      assert seg == parsed[i];
      CollectAdvance(parsed, i, data);
      if seg.Err? {
        return Err(seg.error);
      }
      data := data + [seg.value];
      i := i + 1;
    }
    assert parsed[..i] == parsed;
    r := Ok(data);
  }

  /** `pd.DataFrame(data)` for tagging.py's rows: no columns at all when
      there are no rows. */
  function SegmentTable(rows: seq<Row>): (t: Table)
    requires forall k :: 0 <= k < |rows| ==> rows[k].Keys == {"audio_path", "transcript"}
    ensures WellFormed(t) && t.rows == rows
    ensures "transcript" in t.columns <==> rows != []
  {
    Table(if rows == [] then {} else {"audio_path", "transcript"}, rows)
  }

  // ---- split_csv_files.py ----

  /** The record split_csv_files.py keeps for one decoded object: all its
      fields plus the derived `audio_path`. */
  function WithAudioPath(x: Row): (r: Result<Row, MetaError>)
    ensures r.Ok? <==> "filename" in x
    ensures r.Err? ==> r.error == MissingKey("filename")
    ensures r.Ok? ==> r.value.Keys == x.Keys + {"audio_path"}
    ensures r.Ok? ==> r.value["audio_path"] == Text(SegmentAudioPath(x["filename"]))
    ensures r.Ok? ==> forall k :: k in x && k != "audio_path" ==> r.value[k] == x[k]
  {
    if "filename" !in x then Err(MissingKey("filename"))
    else Ok(x["audio_path" := Text(SegmentAudioPath(x["filename"]))])
  }

  /** One metadata line of split_csv_files.py: `None` for a line that is
      skipped, else the parsed record with its audio path. */
  function ParseLine(line: string, decode: Decoder): (r: Result<Option<Row>, MetaError>)
    ensures r == Ok(None) <==> IsBlank(line)
    ensures !IsBlank(line) ==>
      (r.Ok? <==> decode(Strip(line)).Some? && "filename" in decode(Strip(line)).value)
    ensures r.Err? ==>
      r.error == (if decode(Strip(line)).None? then InvalidJson else MissingKey("filename"))
    ensures r.Ok? && r.value.Some? ==>
      decode(Strip(line)).Some? && WithAudioPath(decode(Strip(line)).value) == Ok(r.value.value)
  {
    if IsBlank(line) then Ok(None)
    else
      match decode(Strip(line))
      case None => Err(InvalidJson)
      case Some(x) =>
        match WithAudioPath(x)
        case Err(e) => Err(e)
        case Ok(rec) => Ok(Some(rec))
  }

  /** A read loop that skips the steps that give `None`, appends the others
      and ends at the first exception. */
  function CollectKept<T, E>(rs: seq<Result<Option<T>, E>>): Result<seq<T>, E> {
    if rs == [] then Ok([])
    else
      match CollectKept(rs[..|rs| - 1])
      case Err(e) => Err(e)
      case Ok(prev) =>
        match rs[|rs| - 1]
        case Err(e) => Err(e)
        case Ok(None) => Ok(prev)
        case Ok(Some(x)) => Ok(prev + [x])
  }

  lemma {:induction false} CollectKeptErrorSticks<T, E>(rs: seq<Result<Option<T>, E>>, j: nat)
    requires j <= |rs| && CollectKept(rs[..j]).Err?
    ensures CollectKept(rs) == CollectKept(rs[..j])
  {
    if j < |rs| {
      var init := rs[..|rs| - 1];
      assert init[..j] == rs[..j];
      CollectKeptErrorSticks(init, j);
    } else {
      assert rs[..j] == rs;
    }
  }

  /** One more step of the read loop, given how the steps before it ended:
      a skipped line changes nothing, a record is appended, or an exception
      ends the whole loop. */
  lemma CollectKeptAdvance<T, E>(rs: seq<Result<Option<T>, E>>, i: nat, done: seq<T>)
    requires i < |rs| && CollectKept(rs[..i]) == Ok(done)
    ensures rs[i] == Ok(None) ==> CollectKept(rs[..i + 1]) == Ok(done)
    ensures rs[i].Ok? && rs[i].value.Some? ==> CollectKept(rs[..i + 1]) == Ok(done + [rs[i].value.value])
    ensures rs[i].Err? ==> CollectKept(rs) == Err(rs[i].error)
  {
    assert rs[..i + 1][..i] == rs[..i];
    if rs[i].Err? {
      CollectKeptErrorSticks(rs, i + 1);
    }
  }

  /** What split_csv_files.py's loop computes for each line. */
  function ParsedLines(lines: seq<string>, decode: Decoder): (rs: seq<Result<Option<Row>, MetaError>>)
    ensures |rs| == |lines| && forall k :: 0 <= k < |lines| ==> rs[k] == ParseLine(lines[k], decode)
  {
    seq(|lines|, k requires 0 <= k < |lines| => ParseLine(lines[k], decode))
  }

  /** split_csv_files.py's read loop: whitespace-only lines are skipped,
      every other line in order, the first failing line ending it. */
  function MetadataRecords(lines: seq<string>, decode: Decoder): Result<seq<Row>, MetaError> {
    CollectKept(ParsedLines(lines, decode))
  }

  /** The lines that are not whitespace-only, in order. */
  function NonBlank(lines: seq<string>): (r: seq<string>)
    ensures |r| <= |lines|
    ensures forall k :: 0 <= k < |r| ==> !IsBlank(r[k])
  {
    if lines == [] then []
    else
      var last := lines[|lines| - 1];
      NonBlank(lines[..|lines| - 1]) + (if IsBlank(last) then [] else [last])
  }

  /** The steps of a read loop that are not skipped, in order. */
  function Present<T, E>(rs: seq<Result<Option<T>, E>>): (r: seq<Result<Option<T>, E>>)
    ensures forall k :: 0 <= k < |r| ==> r[k] != Ok(None)
  {
    if rs == [] then []
    else Present(rs[..|rs| - 1]) + (if rs[|rs| - 1] == Ok(None) then [] else [rs[|rs| - 1]])
  }

  /** Skipped steps make no difference to the loop's outcome. */
  lemma {:induction false} CollectKeptIgnoresSkips<T, E>(rs: seq<Result<Option<T>, E>>)
    ensures CollectKept(rs) == CollectKept(Present(rs))
  {
    if rs != [] {
      var init := rs[..|rs| - 1];
      CollectKeptIgnoresSkips(init);
      if rs[|rs| - 1] != Ok(None) {
        var p := Present(init) + [rs[|rs| - 1]];
        assert p[..|p| - 1] == Present(init);
      } else {
        assert Present(init) + [] == Present(init);
        assert Present(rs) == Present(init);
        assert CollectKept(rs) == CollectKept(init);
      }
    }
  }

  /** With nothing skipped, the loop succeeds exactly when every step does,
      and keeps one value per step, in order. */
  lemma {:induction false} CollectKeptOnePerStep<T, E>(rs: seq<Result<Option<T>, E>>)
    requires forall k :: 0 <= k < |rs| ==> rs[k] != Ok(None)
    ensures CollectKept(rs).Ok? <==> forall k :: 0 <= k < |rs| ==> rs[k].Ok?
    ensures CollectKept(rs).Ok? ==>
      && |CollectKept(rs).value| == |rs|
      && forall k :: 0 <= k < |rs| ==> rs[k].value.Some? && CollectKept(rs).value[k] == rs[k].value.value
  {
    if rs != [] {
      var init := rs[..|rs| - 1];
      assert forall k :: 0 <= k < |init| ==> init[k] == rs[k];
      CollectKeptOnePerStep(init);
    }
  }

  /** The parsed non-blank lines are the parsed lines that are not skipped. */
  lemma {:induction false} ParsedNonBlank(lines: seq<string>, decode: Decoder)
    ensures Present(ParsedLines(lines, decode)) == ParsedLines(NonBlank(lines), decode)
  {
    if lines != [] {
      var init := lines[..|lines| - 1];
      var last := lines[|lines| - 1];
      var rs := ParsedLines(lines, decode);
      assert rs[..|rs| - 1] == ParsedLines(init, decode);
      assert rs[|rs| - 1] == ParseLine(last, decode);
      ParsedNonBlank(init, decode);
      if IsBlank(last) {
        assert NonBlank(lines) == NonBlank(init) + [];
      } else {
        assert NonBlank(lines) == NonBlank(init) + [last];
        ParsedLinesAppend(NonBlank(init), last, decode);
      }
    }
  }

  /** Parsing one more line appends its step. */
  lemma ParsedLinesAppend(lines: seq<string>, line: string, decode: Decoder)
    ensures ParsedLines(lines + [line], decode) == ParsedLines(lines, decode) + [ParseLine(line, decode)]
  {
    var rs := ParsedLines(lines + [line], decode);
    assert forall k :: 0 <= k < |lines| ==> rs[k] == ParsedLines(lines, decode)[k];
  }

  /** Whitespace-only lines make no difference at all: reading the file is
      the same as reading its non-blank lines. */
  lemma BlankLinesIgnored(lines: seq<string>, decode: Decoder)
    ensures MetadataRecords(lines, decode) == MetadataRecords(NonBlank(lines), decode)
  {
    CollectKeptIgnoresSkips(ParsedLines(lines, decode));
    ParsedNonBlank(lines, decode);
    ParsedNonBlank(NonBlank(lines), decode);
    NonBlankOfNonBlank(NonBlank(lines));
  }

  /** Every line that is not whitespace-only is kept, and no other. */
  lemma {:induction false} NonBlankKeepsEveryOtherLine(lines: seq<string>)
    ensures forall l :: l in NonBlank(lines) <==> l in lines && !IsBlank(l)
  {
    if lines != [] {
      var init, last := lines[..|lines| - 1], lines[|lines| - 1];
      NonBlankKeepsEveryOtherLine(init);
      assert lines == init + [last];
    }
  }

  lemma {:induction false} NonBlankOfNonBlank(lines: seq<string>)
    requires forall k :: 0 <= k < |lines| ==> !IsBlank(lines[k])
    ensures NonBlank(lines) == lines
  {
    if lines != [] {
      NonBlankOfNonBlank(lines[..|lines| - 1]);
    }
  }

  /** On a file without blank lines, reading succeeds exactly when every
      line parses, and then record k is line k's object with its audio path. */
  lemma RecordsOnePerLine(lines: seq<string>, decode: Decoder)
    requires forall k :: 0 <= k < |lines| ==> !IsBlank(lines[k])
    ensures MetadataRecords(lines, decode).Ok? <==> forall k :: 0 <= k < |lines| ==> ParseLine(lines[k], decode).Ok?
    ensures MetadataRecords(lines, decode).Ok? ==>
      && |MetadataRecords(lines, decode).value| == |lines|
      && forall k :: 0 <= k < |lines| ==>
           WithAudioPath(decode(Strip(lines[k])).value) == Ok(MetadataRecords(lines, decode).value[k])
  {
    CollectKeptOnePerStep(ParsedLines(lines, decode));
  }

  /** The body of the loop at split_csv_files.py:18-23 for one line, step by
      step as the script runs it: the strip test, the decode, the `filename`
      lookup. `None` means the line is skipped. `ParseLine` is its
      specification: it states the outcome by cases on the line, and the
      lemmas about the loop are stated over it. */
  method ReadLine(line: string, decode: Decoder) returns (r: Result<Option<Row>, MetaError>)
    ensures r == ParseLine(line, decode)
  {
    StripEmptyIffBlank(line);
    if Strip(line) == [] {
      return Ok(None);
    }
    var decoded := decode(Strip(line));
    if decoded.None? {
      return Err(InvalidJson);
    }
    var rec := WithAudioPath(decoded.value);
    if rec.Err? {
      return Err(rec.error);
    }
    r := Ok(Some(rec.value));
  }

  /** The loop at split_csv_files.py:16-23. */
  method ReadMetadata(lines: seq<string>, decode: Decoder) returns (r: Result<seq<Row>, MetaError>)
    ensures r == MetadataRecords(lines, decode)
  {
    ghost var parsed := ParsedLines(lines, decode);
    var data: seq<Row> := [];
    var i := 0;
    while i < |lines|
      invariant 0 <= i <= |lines|
      invariant CollectKept(parsed[..i]) == Ok(data)
    {
      var step := ReadLine(lines[i], decode);
      assert step == parsed[i];
      CollectKeptAdvance(parsed, i, data);
      match step {
        case Err(e) =>
          return Err(e);
        case Ok(None) =>
        case Ok(Some(rec)) =>
          data := data + [rec];
      }
      i := i + 1;
    }
    assert parsed[..i] == parsed;
    r := Ok(data);
  }
}
