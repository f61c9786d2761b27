/** Values shared by the review tools: the cells of a loaded table, the tables
    themselves, and the convention that turns a segment file name into the
    path of its audio clip. */
module Records {

  datatype Option<T> = None | Some(value: T)

  datatype Result<T, E> = Ok(value: T) | Err(error: E)

  /** One value as the tools see it: Python's `None`, a missing cell that
      pandas reads as NaN, or a piece of text. */
  datatype Cell = Null | Missing | Text(s: string)

  /** How an f-string renders a cell. */
  function Render(c: Cell): string {
    match c
    case Null => "None"
    case Missing => "nan"
    case Text(s) => s
  }

  const SegmentDir: string := "segments_16k/"
  const WavSuffix: string := ".wav"

  /** `f"segments_16k/{filename}.wav"`: the file name sits between a fixed
      directory prefix and a fixed extension, so it can be read back. */
  function SegmentAudioPath(filename: Cell): (p: string)
    ensures |p| == |SegmentDir| + |Render(filename)| + |WavSuffix|
    ensures p[..|SegmentDir|] == SegmentDir
    ensures p[|SegmentDir|..|p| - |WavSuffix|] == Render(filename)
    ensures p[|p| - |WavSuffix|..] == WavSuffix
  {
    var p := SegmentDir + Render(filename) + WavSuffix;
    assert p[|SegmentDir|..|p| - |WavSuffix|] == Render(filename);
    p
  }

  /** Two segments share an audio path exactly when their file names render alike. */
  lemma SegmentAudioPathInjective(a: Cell, b: Cell)
    ensures SegmentAudioPath(a) == SegmentAudioPath(b) <==> Render(a) == Render(b)
  {
    if SegmentAudioPath(a) == SegmentAudioPath(b) {
      var p := SegmentAudioPath(a);
      assert Render(a) == p[|SegmentDir|..|p| - |WavSuffix|] == Render(b);
    }
  }

  type Row = map<string, Cell>

  /** A pandas DataFrame: its set of column names and its rows in order,
      each row keyed by those column names. */
  datatype Table = Table(columns: set<string>, rows: seq<Row>)

  predicate WellFormed(t: Table) {
    forall i :: 0 <= i < |t.rows| ==> t.rows[i].Keys == t.columns
  }

  /** `[c] * n` */
  function Repeat(c: Cell, n: nat): (s: seq<Cell>)
    ensures |s| == n && forall i :: 0 <= i < n ==> s[i] == c
  {
    seq(n, _ => c)
  }

  /** `df[c].tolist()`: one cell per row, in row order. */
  function Column(t: Table, c: string): (col: seq<Cell>)
    requires WellFormed(t) && c in t.columns
    ensures |col| == |t.rows|
    ensures forall i :: 0 <= i < |t.rows| ==> col[i] == t.rows[i][c]
  {
    seq(|t.rows|, i requires 0 <= i < |t.rows| => t.rows[i][c])
  }

  /** `df[c] = values`: adds the column, or overwrites it, and keeps the others. */
  function SetColumn(t: Table, c: string, values: seq<Cell>): (r: Table)
    requires WellFormed(t) && |values| == |t.rows|
    ensures WellFormed(r) && r.columns == t.columns + {c} && |r.rows| == |t.rows|
    ensures Column(r, c) == values
    ensures forall d :: d in t.columns && d != c ==> Column(r, d) == Column(t, d)
  {
    Table(t.columns + {c}, seq(|t.rows|, i requires 0 <= i < |t.rows| => t.rows[i][c := values[i]]))
  }

  /** `pd.DataFrame(df, columns=cols)`: keeps exactly the named columns, and
      a named column the table lacks comes back with every cell missing. */
  function Reindex(t: Table, cols: set<string>): (r: Table)
    requires WellFormed(t)
    ensures WellFormed(r) && r.columns == cols && |r.rows| == |t.rows|
    ensures forall c :: c in cols && c in t.columns ==> Column(r, c) == Column(t, c)
    ensures forall c :: c in cols && c !in t.columns ==> Column(r, c) == Repeat(Missing, |t.rows|)
  {
    Table(cols, seq(|t.rows|, i requires 0 <= i < |t.rows| =>
      map c | c in cols :: if c in t.columns then t.rows[i][c] else Missing))
  }
}
