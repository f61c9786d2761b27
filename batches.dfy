/** split_csv_files.py: cutting the metadata records into contiguous batches
    of at most `batch_size` records, written to numbered CSV files. */
module BatchSplit {

  /** `batch_size` */
  const BatchSize: nat := 500
  /** The number in the first file's name: batch i goes to `metadata_batch_{i+11}.csv`. */
  const FirstBatchNumber: nat := 11

  function Min(a: int, b: int): int {
    if a <= b then a else b
  }

  /** `math.ceil(n / size)`: the fewest batches of `size` that hold n records. */
  function NumBatches(n: nat, size: nat): (k: nat)
    requires size > 0
    ensures n <= k * size
    ensures k > 0 ==> (k - 1) * size < n
    ensures k == 0 <==> n == 0
  {
    var m := n + size - 1;
    var q := m / size;
    assert m == q * size + m % size;
    assert q > 0 ==> (q - 1) * size == q * size - size;
    q
  }

  lemma MulMonotone(a: nat, b: nat, c: nat)
    requires a <= b
    ensures a * c <= b * c
  {
    assert b * c - a * c == (b - a) * c;
  }

  /** `df.iloc[start:end]` with `start = i * size` and `end = start + size`;
      pandas clamps both bounds to the row count. */
  function Batch<T>(records: seq<T>, i: nat, size: nat): seq<T> {
    records[Min(i * size, |records|)..Min(i * size + size, |records|)]
  }

  /** Batch i starts at record `i * size` and holds the next `size` records,
      or as many as remain; past the end it is empty. */
  lemma BatchContents<T>(records: seq<T>, i: nat, size: nat)
    ensures var b := Batch(records, i, size);
      && (i * size <= |records| ==> |b| == Min(size, |records| - i * size))
      && (i * size >= |records| ==> b == [])
      && forall k :: 0 <= k < |b| ==> b[k] == records[i * size + k]
  {
  }

  /** The first `count` batches, in order. */
  function Batches<T>(records: seq<T>, size: nat, count: nat): (bs: seq<seq<T>>)
    ensures |bs| == count && forall i :: 0 <= i < count ==> bs[i] == Batch(records, i, size)
  {
    seq(count, i requires 0 <= i < count => Batch(records, i, size))
  }

  function Flatten<T>(ss: seq<seq<T>>): seq<T> {
    if ss == [] then [] else Flatten(ss[..|ss| - 1]) + ss[|ss| - 1]
  }

  /** The records before batch j - 1, then batch j - 1, are the records before batch j. */
  lemma PrefixThenBatch<T>(records: seq<T>, size: nat, j: nat)
    requires j > 0
    ensures records[..Min((j - 1) * size, |records|)] + Batch(records, j - 1, size)
            == records[..Min(j * size, |records|)]
  {
    var lo := (j - 1) * size;
    assert lo + size == j * size;
    var a, b := Min(lo, |records|), Min(lo + size, |records|);
    assert records[..a] + records[a..b] == records[..b];
  }

  /** The first k batches, joined, are the records up to `k * size`. */
  lemma {:induction false} FlattenBatches<T>(records: seq<T>, size: nat, k: nat)
    ensures Flatten(Batches(records, size, k)) == records[..Min(k * size, |records|)]
  {
    if k > 0 {
      var bs := Batches(records, size, k);
      assert bs[..k - 1] == Batches(records, size, k - 1);
      FlattenBatches(records, size, k - 1);
      PrefixThenBatch(records, size, k);
    }
  }

  /** The batches partition the input: joined in order they give back every
      record exactly once, so they are disjoint and contiguous. */
  lemma BatchesPartition<T>(records: seq<T>, size: nat)
    requires size > 0
    ensures Flatten(Batches(records, size, NumBatches(|records|, size))) == records
  {
    var k := NumBatches(|records|, size);
    FlattenBatches(records, size, k);
    assert records[..|records|] == records;
  }

  /** Every batch holds between 1 and `size` records, and every batch but the
      last holds exactly `size`. */
  lemma BatchSizes<T>(records: seq<T>, size: nat, i: nat)
    requires size > 0 && i < NumBatches(|records|, size)
    ensures 1 <= |Batch(records, i, size)| <= size
    ensures i < NumBatches(|records|, size) - 1 ==> |Batch(records, i, size)| == size
  {
    var k := NumBatches(|records|, size);
    MulMonotone(i, k - 1, size);
    if i < k - 1 {
      MulMonotone(i + 1, k - 1, size);
      assert (i + 1) * size == i * size + size;
    }
  }

  /** `str(k)` for a natural number: its decimal digits, with no leading
      zero except in "0" itself. */
  function Decimal(k: nat): (s: string)
    ensures |s| >= 1 && forall i :: 0 <= i < |s| ==> '0' <= s[i] <= '9'
    ensures s[0] == '0' <==> k == 0
  {
    if k < 10 then [(('0' as int) + k) as char]
    else Decimal(k / 10) + [(('0' as int) + k % 10) as char]
  }

  /** The number a string of decimal digits denotes. */
  function DigitsValue(s: string): nat
    requires forall i :: 0 <= i < |s| ==> '0' <= s[i] <= '9'
  {
    if s == [] then 0
    else DigitsValue(s[..|s| - 1]) * 10 + ((s[|s| - 1] as int) - ('0' as int))
  }

  /** Reading the digits back gives the number. */
  lemma {:induction false} DecimalRoundTrip(k: nat)
    ensures DigitsValue(Decimal(k)) == k
  {
    if k >= 10 {
      var s := Decimal(k);
      assert s[..|s| - 1] == Decimal(k / 10);
      DecimalRoundTrip(k / 10);
    }
  }

  const BatchFilePrefix: string := "metadata_batch_"
  const CsvSuffix: string := ".csv"

  /** `f"metadata_batch_{i+11}.csv"` */
  function BatchFileName(i: nat): string {
    BatchFilePrefix + Decimal(i + FirstBatchNumber) + CsvSuffix
  }

  /** The number between the fixed prefix and suffix of batch i's file name
      is written in decimal without a leading zero and reads back as i + 11. */
  lemma BatchFileNameDigits(i: nat)
    ensures var name := BatchFileName(i);
      && |name| > |BatchFilePrefix| + |CsvSuffix|
      && name[..|BatchFilePrefix|] == BatchFilePrefix && name[|name| - |CsvSuffix|..] == CsvSuffix
      && var digits := name[|BatchFilePrefix|..|name| - |CsvSuffix|];
         && (forall k :: 0 <= k < |digits| ==> '0' <= digits[k] <= '9')
         && digits[0] != '0'
         && DigitsValue(digits) == i + FirstBatchNumber
  {
    var d := Decimal(i + FirstBatchNumber);
    DecimalRoundTrip(i + FirstBatchNumber);
    var name := BatchFileName(i);
    assert name[|BatchFilePrefix|..|name| - |CsvSuffix|] == d;
  }

  /** No two batches are written to the same file. */
  lemma BatchFileNamesDistinct(i: nat, j: nat)
    requires i != j
    ensures BatchFileName(i) != BatchFileName(j)
  {
    BatchFileNameDigits(i);
    BatchFileNameDigits(j);
  }

  /** One CSV file the script writes: its name and its records. */
  datatype BatchFile<T> = BatchFile(name: string, rows: seq<T>)

  function RowsOf<T>(files: seq<BatchFile<T>>): (rows: seq<seq<T>>)
    ensures |rows| == |files| && forall i :: 0 <= i < |files| ==> rows[i] == files[i].rows
  {
    seq(|files|, i requires 0 <= i < |files| => files[i].rows)
  }

  /** The batch loop at split_csv_files.py:29-38: batch i of `BatchSize`
      records goes to its own numbered file. */
  method WriteBatches<T>(records: seq<T>) returns (files: seq<BatchFile<T>>)
    ensures |files| == NumBatches(|records|, BatchSize)
    ensures forall i :: 0 <= i < |files| ==>
              files[i] == BatchFile(BatchFileName(i), Batch(records, i, BatchSize))
    ensures Flatten(RowsOf(files)) == records
    ensures forall i :: 0 <= i < |files| ==> 1 <= |files[i].rows| <= BatchSize
    ensures forall i :: 0 <= i < |files| - 1 ==> |files[i].rows| == BatchSize
    ensures forall i, j :: 0 <= i < j < |files| ==> files[i].name != files[j].name
  {
    var numBatches := NumBatches(|records|, BatchSize);
    files := [];
    for i := 0 to numBatches
      invariant |files| == i
      invariant forall j :: 0 <= j < i ==> files[j] == BatchFile(BatchFileName(j), Batch(records, j, BatchSize))
    {
      var start := i * BatchSize;
      var end := start + BatchSize;
      var batch := records[Min(start, |records|)..Min(end, |records|)];
      assert batch == Batch(records, i, BatchSize);
      var file := BatchFile(BatchFileName(i), batch);
      files := files + [file];
      assert files[..i] + [file] == files;
    }
    assert RowsOf(files) == Batches(records, BatchSize, numBatches);
    BatchesPartition(records, BatchSize);
    forall i | 0 <= i < |files|
      ensures 1 <= |files[i].rows| <= BatchSize
      ensures i < |files| - 1 ==> |files[i].rows| == BatchSize
    {
      BatchSizes(records, BatchSize, i);
    }
    forall i, j | 0 <= i < j < |files|
      ensures files[i].name != files[j].name
    {
      BatchFileNamesDistinct(i, j);
    }
  }
}
