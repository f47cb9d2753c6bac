/** Reconstruction of image rows from filtered scanlines: section 6 of RFC 2083. */
module PngDecoder {
  import opened Wrappers

  type Byte = b: int | 0 <= b < 256
  type Row = seq<Byte>

  datatype Error = Truncated | UnsupportedFilter(filter: Byte)

  function Abs(x: int): nat { if x < 0 then -x else x }

  /** Section 6.6. */
  function Paeth(left: Byte, up: Byte, upperLeft: Byte): Byte {
    var p := left + up - upperLeft;
    if Abs(p - left) <= Abs(p - up) && Abs(p - left) <= Abs(p - upperLeft) then left
    else if Abs(p - up) <= Abs(p - upperLeft) then up
    else upperLeft
  }

  /** The value that byte i of a row is predicted to have from the bytes before it and from the row above. */
  function Predictor(filter: Byte, row: Row, previous: Row, i: nat, bpp: nat): Byte
    requires bpp > 0 && i <= |row| && i < |previous|
  {
    var left := if i >= bpp then row[i - bpp] else 0;
    var up := previous[i];
    var upperLeft := if i >= bpp then previous[i - bpp] else 0;
    if filter == 1 then left
    else if filter == 2 then up
    else if filter == 3 then (left + up) / 2
    else if filter == 4 then Paeth(left, up, upperLeft)
    else 0
  }

  /** How far a byte is from the estimate that section 6.6 makes of it. */
  function FarOff(b: int, left: int, up: int, upperLeft: int): nat {
    Abs(b - (left + up - upperLeft))
  }

  /** Of left, up and upper left, in this order, the first that is nearest to the estimate. */
  lemma PaethIsNearest(left: Byte, up: Byte, upperLeft: Byte)
    ensures var r := Paeth(left, up, upperLeft);
            && r in {left, up, upperLeft}
            && (forall b :: b in {left, up, upperLeft} ==>
                  FarOff(r, left, up, upperLeft) <= FarOff(b, left, up, upperLeft))
            && (FarOff(r, left, up, upperLeft) == FarOff(left, left, up, upperLeft) ==> r == left)
            && (FarOff(r, left, up, upperLeft) == FarOff(up, left, up, upperLeft) && r != left ==> r == up)
  {
  }

  /** Sections 6.2 to 6.6: nothing, the byte a pixel before, the byte above, their average rounded down, or Paeth's choice;
    * in the first pixel of a row what is to the left counts as zero.
    */
  lemma PredictorIsStandard(row: Row, previous: Row, i: nat, bpp: nat)
    requires bpp > 0 && i <= |row| && i < |previous|
    ensures Predictor(0, row, previous, i, bpp) == 0
    ensures Predictor(2, row, previous, i, bpp) == previous[i]
    ensures i < bpp ==>
              && Predictor(1, row, previous, i, bpp) == 0
              && 2 * Predictor(3, row, previous, i, bpp) <= previous[i] < 2 * Predictor(3, row, previous, i, bpp) + 2
              && Predictor(4, row, previous, i, bpp) == previous[i]
    ensures i >= bpp ==>
              && Predictor(1, row, previous, i, bpp) == row[i - bpp]
              && 2 * Predictor(3, row, previous, i, bpp) <= row[i - bpp] + previous[i] < 2 * Predictor(3, row, previous, i, bpp) + 2
              && Predictor(4, row, previous, i, bpp) == Paeth(row[i - bpp], previous[i], previous[i - bpp])
  {
  }

  function Zeros(n: nat): (r: Row)
    ensures |r| == n
  {
    seq(n, _ => 0)
  }

  /** Where scanline r begins. */
  function Offset(r: nat, stride: nat): nat {
    if r == 0 then 0 else Offset(r - 1, stride) + stride + 1
  }

  // ---------------------------------------------------------------- the standard's filters

  /** A row as a scanline: the filter, then the difference of every byte from its prediction. */
  function Filtered(filter: Byte, row: Row, previous: Row, bpp: nat): (r: Row)
    requires bpp > 0 && |row| == |previous|
    ensures |r| == |row| + 1
  {
    [filter] + seq(|row|, i requires 0 <= i < |row| => (row[i] - Predictor(filter, row, previous, i, bpp)) % 256)
  }

  predicate IsImage(rows: seq<Row>, stride: nat) {
    forall r :: 0 <= r < |rows| ==> |rows[r]| == stride
  }

  function Above(rows: seq<Row>, stride: nat): (r: Row)
    requires IsImage(rows, stride)
    ensures |r| == stride
  {
    if rows == [] then Zeros(stride) else rows[|rows| - 1]
  }

  /** An image as a stream of scanlines, with any choice of a filter for every row. */
  function Encoded(rows: seq<Row>, filters: seq<Byte>, stride: nat, bpp: nat): (r: Row)
    requires bpp > 0 && IsImage(rows, stride) && |filters| == |rows|
    ensures |r| == Offset(|rows|, stride)
  {
    if rows == [] then []
    else
      var n := |rows| - 1;
      Encoded(rows[..n], filters[..n], stride, bpp) + Filtered(filters[n], rows[n], Above(rows[..n], stride), bpp)
  }

  // ---------------------------------------------------------------- reconstruction

  /** A row from the bytes of its scanline. */
  function Unfiltered(filter: Byte, line: Row, previous: Row, bpp: nat): (r: Row)
    requires bpp > 0 && |line| <= |previous|
    ensures |r| == |line|
  {
    if line == [] then []
    else
      var n := |line| - 1;
      var before := Unfiltered(filter, line[..n], previous, bpp);
      before + [(line[n] + Predictor(filter, before, previous, n, bpp)) % 256]
  }

  function Min(a: nat, b: nat): nat { if a < b then a else b }

  /** The bytes of scanline r that are there. */
  function Line(raw: Row, r: nat, stride: nat): (l: Row)
    requires Offset(r, stride) < |raw|
    ensures |l| <= stride
  {
    raw[Offset(r, stride) + 1..Min(|raw|, Offset(r + 1, stride))]
  }

  /** All rows, or the first reason why there are none. */
  function Decoded(raw: Row, height: nat, stride: nat, bpp: nat): (r: Result<seq<Row>, Error>)
    requires bpp > 0
    ensures r.Success? ==> |r.value| == height && IsImage(r.value, stride)
  {
    if height == 0 then Success([])
    else
      var rows :- Decoded(raw, height - 1, stride, bpp);
      var start := Offset(height - 1, stride);
      if start >= |raw| then Failure(Truncated)
      else
        var line := Line(raw, height - 1, stride);
        if raw[start] > 4 && line != [] then Failure(UnsupportedFilter(raw[start]))
        else
          Success(rows + [Unfiltered(raw[start], line, Above(rows, stride), bpp) + Zeros(stride - |line|)])
  }

  method Predict(filter: Byte, row: array<Byte>, previous: Row, i: nat, bpp: nat) returns (r: Result<Byte, Error>)
    requires bpp > 0 && i < row.Length && row.Length == |previous|
    ensures r == if filter > 4 then Failure(UnsupportedFilter(filter))
                 else Success(Predictor(filter, row[..i], previous, i, bpp))
  {
    var left: int := if i >= bpp then row[i - bpp] else 0;
    var up: int := previous[i];
    var upperLeft: int := if i >= bpp then previous[i - bpp] else 0;
    if filter == 0 {
      return Success(0);
    } else if filter == 1 {
      return Success(left);
    } else if filter == 2 {
      return Success(up);
    } else if filter == 3 {
      return Success((left + up) / 2);
    } else if filter == 4 {
      var raw := left + up - upperLeft;
      var distLeft, distUp, distUpperLeft := Abs(raw - left), Abs(raw - up), Abs(raw - upperLeft);
      if distLeft <= distUp && distLeft <= distUpperLeft {
        return Success(left);
      } else if distUp <= distUpperLeft {
        return Success(up);
      } else {
        return Success(upperLeft);
      }
    }
    r := Failure(UnsupportedFilter(filter));
  }

  /** One row, byte by byte in place; what a short scanline does not give stays zero. */
  method DecodeRow(filter: Byte, line: Row, previous: Row, bpp: nat) returns (r: Result<Row, Error>)
    requires bpp > 0 && |line| <= |previous|
    ensures r == if filter > 4 && line != [] then Failure(UnsupportedFilter(filter))
                 else Success(Unfiltered(filter, line, previous, bpp) + Zeros(|previous| - |line|))
  {
    hide Predictor, Paeth;
    var row := new Byte[|previous|](_ => 0);
    for i := 0 to |line|
      invariant i > 0 ==> filter <= 4
      invariant row[..i] == Unfiltered(filter, line[..i], previous, bpp)
      invariant forall k :: i <= k < row.Length ==> row[k] == 0
    {
      assert line[..i + 1][..i] == line[..i];
      var predictor := Predict(filter, row, previous, i, bpp);
      if predictor.Failure? {
        return Failure(predictor.error);
      }
      var value: int := line[i];
      row[i] := (value + predictor.value) % 256;
    }
    assert line[..|line|] == line;
    assert row[..] == row[..|line|] + Zeros(|previous| - |line|);
    r := Success(row[..]);
  }

  method Decode(raw: Row, height: nat, stride: nat, bpp: nat) returns (r: Result<seq<Row>, Error>)
    requires bpp > 0
    ensures r == Decoded(raw, height, stride, bpp)
  {
    hide Unfiltered;
    var rows: seq<Row> := [];
    var previous: Row := Zeros(stride);
    var offset := 0;
    for n := 0 to height
      invariant offset == Offset(n, stride)
      invariant Decoded(raw, n, stride, bpp) == Success(rows) && previous == Above(rows, stride)
    {
      if offset >= |raw| {
        FailureStays(raw, n + 1, height, stride, bpp);
        return Failure(Truncated);
      }
      var filter := raw[offset];
      offset := offset + 1;
      var line := raw[offset..Min(|raw|, offset + stride)];
      assert line == Line(raw, n, stride);
      offset := offset + stride;
      var row := DecodeRow(filter, line, previous, bpp);
      if row.Failure? {
        FailureStays(raw, n + 1, height, stride, bpp);
        return Failure(row.error);
      }
      rows := rows + [row.value];
      previous := row.value;
    }
    r := Success(rows);
  }

  lemma {:induction false} FailureStays(raw: Row, n: nat, height: nat, stride: nat, bpp: nat)
    requires bpp > 0 && n <= height && Decoded(raw, n, stride, bpp).Failure?
    ensures Decoded(raw, height, stride, bpp) == Failure(Decoded(raw, n, stride, bpp).error)
    decreases height - n
  {
    if n < height { FailureStays(raw, n + 1, height, stride, bpp); }
  }

  // ---------------------------------------------------------------- the two are inverse

  /** Predictions look only at bytes that are already there. */
  lemma PredictorLooksBack(filter: Byte, row: Row, previous: Row, i: nat, bpp: nat)
    requires bpp > 0 && i < |row| == |previous|
    ensures Predictor(filter, row, previous, i, bpp) == Predictor(filter, row[..i], previous, i, bpp)
  {
    hide Paeth;
  }

  lemma {:induction false} UnfilterUndoesFilter(filter: Byte, row: Row, previous: Row, bpp: nat, n: nat)
    requires bpp > 0 && |row| == |previous| && n <= |row|
    ensures Unfiltered(filter, Filtered(filter, row, previous, bpp)[1..n + 1], previous, bpp) == row[..n]
  {
    hide Predictor;
    if n > 0 {
      UnfilterUndoesFilter(filter, row, previous, bpp, n - 1);
      var line := Filtered(filter, row, previous, bpp)[1..n + 1];
      assert line[..n - 1] == Filtered(filter, row, previous, bpp)[1..n];
      PredictorLooksBack(filter, row, previous, n - 1, bpp);
      assert row[..n] == row[..n - 1] + [row[n - 1]];
    }
  }

  lemma {:induction false} UnfilteredPrefix(filter: Byte, line: Row, previous: Row, bpp: nat, n: nat)
    requires bpp > 0 && n <= |line| <= |previous|
    ensures Unfiltered(filter, line, previous, bpp)[..n] == Unfiltered(filter, line[..n], previous, bpp)
    decreases |line|
  {
    hide Predictor;
    if n == |line| {
      assert line[..n] == line;
    } else {
      UnfilteredPrefix(filter, line[..|line| - 1], previous, bpp, n);
      assert line[..|line| - 1][..n] == line[..n];
    }
  }

  /** Every reconstructed byte is its difference added to its prediction. */
  lemma UnfilteredAt(filter: Byte, line: Row, previous: Row, bpp: nat, k: nat)
    requires bpp > 0 && k < |line| <= |previous|
    ensures var row := Unfiltered(filter, line, previous, bpp);
            row[k] == (line[k] + Predictor(filter, row[..k], previous, k, bpp)) % 256
  {
    hide Predictor;
    var row := Unfiltered(filter, line, previous, bpp);
    UnfilteredPrefix(filter, line, previous, bpp, k + 1);
    UnfilteredPrefix(filter, line, previous, bpp, k);
    assert line[..k + 1][..k] == line[..k];
    assert row[k] == row[..k + 1][k];
  }

  /** Decoding looks only at the scanlines of the rows it decodes. */
  lemma {:induction false} DecodedPrefix(raw: Row, more: Row, height: nat, stride: nat, bpp: nat)
    requires bpp > 0 && |raw| >= Offset(height, stride)
    ensures Decoded(raw + more, height, stride, bpp) == Decoded(raw, height, stride, bpp)
  {
    hide Unfiltered;
    if height > 0 {
      DecodedPrefix(raw, more, height - 1, stride, bpp);
      var start := Offset(height - 1, stride);
      assert Offset(height, stride) == start + stride + 1;
      assert Line(raw + more, height - 1, stride) == Line(raw, height - 1, stride);
    }
  }

  /** One more full scanline decodes to one more row. */
  lemma DecodedStep(before: Row, last: Row, rows: seq<Row>, stride: nat, bpp: nat)
    requires bpp > 0 && |before| == Offset(|rows|, stride) && |last| == stride + 1 && last[0] <= 4
    requires Decoded(before, |rows|, stride, bpp) == Success(rows)
    ensures Decoded(before + last, |rows| + 1, stride, bpp)
            == Success(rows + [Unfiltered(last[0], last[1..], Above(rows, stride), bpp)])
  {
    hide Unfiltered, Above, IsImage, Min;
    var n, raw := |rows|, before + last;
    DecodedPrefix(before, last, n, stride, bpp);
    LastLineOf(before, last, n, stride);
    var row := Unfiltered(last[0], last[1..], Above(rows, stride), bpp);
    assert row + Zeros(0) == row;
    hide Line, Offset;
  }

  lemma LastLineOf(before: Row, last: Row, n: nat, stride: nat)
    requires |before| == Offset(n, stride) && |last| == stride + 1
    ensures Line(before + last, n, stride) == last[1..] && (before + last)[Offset(n, stride)] == last[0]
  {
    assert Offset(n + 1, stride) == |before + last|;
  }

  /** Filtering and reconstructing a row with the same row above gives it back. */
  lemma UnfilterLast(filter: Byte, row: Row, previous: Row, bpp: nat)
    requires bpp > 0 && |row| == |previous|
    ensures var last := Filtered(filter, row, previous, bpp);
            last[0] == filter && Unfiltered(filter, last[1..], previous, bpp) == row
  {
    hide Predictor;
    var last := Filtered(filter, row, previous, bpp);
    UnfilterUndoesFilter(filter, row, previous, bpp, |row|);
    assert last[1..] == last[1..|row| + 1] && row[..|row|] == row;
  }

  /** Every image comes back from its scanlines, whatever filter was chosen for each row. */
  lemma {:induction false} DecodeAfterEncode(rows: seq<Row>, filters: seq<Byte>, stride: nat, bpp: nat)
    requires bpp > 0 && IsImage(rows, stride) && |filters| == |rows|
    requires forall r :: 0 <= r < |filters| ==> filters[r] <= 4
    ensures Decoded(Encoded(rows, filters, stride, bpp), |rows|, stride, bpp) == Success(rows)
  {
    hide Unfiltered, Filtered, Encoded, Decoded, IsImage;
    if rows != [] {
      var n := |rows| - 1;
      var fewer, others := rows[..n], filters[..n];
      assert IsImage(fewer, stride) && |rows[n]| == stride by { ImageRows(rows, stride); }
      DecodeAfterEncode(fewer, others, stride, bpp);
      RoundTripStep(fewer, others, rows[n], filters[n], stride, bpp);
      assert rows == fewer + [rows[n]] && filters == others + [filters[n]];
    } else {
      NothingToDecode([], stride, bpp);
    }
  }

  lemma ImageRows(rows: seq<Row>, stride: nat)
    requires IsImage(rows, stride) && rows != []
    ensures IsImage(rows[..|rows| - 1], stride) && |rows[|rows| - 1]| == stride
  {
  }

  lemma RoundTripStep(rows: seq<Row>, filters: seq<Byte>, row: Row, filter: Byte, stride: nat, bpp: nat)
    requires bpp > 0 && IsImage(rows, stride) && |filters| == |rows| && |row| == stride && filter <= 4
    requires Decoded(Encoded(rows, filters, stride, bpp), |rows|, stride, bpp) == Success(rows)
    ensures IsImage(rows + [row], stride)
    ensures Decoded(Encoded(rows + [row], filters + [filter], stride, bpp), |rows| + 1, stride, bpp) == Success(rows + [row])
  {
    hide Unfiltered, Filtered, Encoded, Decoded, Offset;
    UnfilterLast(filter, row, Above(rows, stride), bpp);
    EncodedStep(rows, filters, row, filter, stride, bpp);
    DecodedStep(Encoded(rows, filters, stride, bpp), Filtered(filter, row, Above(rows, stride), bpp), rows, stride, bpp);
  }

  /** The filters of the rows of a stream. */
  function FiltersOf(raw: Row, height: nat, stride: nat): (r: seq<Byte>)
    requires |raw| == Offset(height, stride)
    ensures |r| == height
  {
    if height == 0 then []
    else
      FiltersOf(raw[..Offset(height - 1, stride)], height - 1, stride) + [raw[Offset(height - 1, stride)]]
  }

  /** A stream of full length with valid filters is the encoding of what it decodes to: no two streams with the same
    * filters decode to the same image.
    */
  lemma {:induction false} EncodeAfterDecode(raw: Row, height: nat, stride: nat, bpp: nat)
    requires bpp > 0 && |raw| == Offset(height, stride)
    requires forall r :: 0 <= r < height ==> FiltersOf(raw, height, stride)[r] <= 4
    ensures Decoded(raw, height, stride, bpp).Success?
    ensures Encoded(Decoded(raw, height, stride, bpp).value, FiltersOf(raw, height, stride), stride, bpp) == raw
  {
    hide Unfiltered, Filtered, Encoded, Decoded, IsImage;
    if height > 0 {
      var start := Offset(height - 1, stride);
      assert Offset(height, stride) == start + stride + 1;
      var before, last, filters := raw[..start], raw[start..], FiltersOf(raw[..start], height - 1, stride);
      assert FiltersOf(raw, height, stride) == filters + [last[0]];
      assert FiltersOf(raw, height, stride)[height - 1] == last[0];
      assert forall r :: 0 <= r < height - 1 ==> FiltersOf(raw, height, stride)[r] == filters[r];
      EncodeAfterDecode(before, height - 1, stride, bpp);
      assert before + last == raw;
      BothStep(before, last, Decoded(before, height - 1, stride, bpp).value, filters, stride, bpp);
    } else {
      NothingToDecode(raw, stride, bpp);
    }
  }

  lemma NothingToDecode(raw: Row, stride: nat, bpp: nat)
    requires bpp > 0
    ensures Decoded(raw, 0, stride, bpp) == Success([]) && Encoded([], [], stride, bpp) == []
  {
  }

  lemma BothStep(before: Row, last: Row, rows: seq<Row>, filters: seq<Byte>, stride: nat, bpp: nat)
    requires bpp > 0 && |before| == Offset(|rows|, stride) && |last| == stride + 1 && last[0] <= 4
    requires IsImage(rows, stride) && |filters| == |rows|
    requires Decoded(before, |rows|, stride, bpp) == Success(rows) && Encoded(rows, filters, stride, bpp) == before
    ensures Decoded(before + last, |rows| + 1, stride, bpp).Success?
    ensures Encoded(Decoded(before + last, |rows| + 1, stride, bpp).value, filters + [last[0]], stride, bpp) == before + last
  {
    hide Unfiltered, Filtered, Encoded, Decoded;
    DecodedStep(before, last, rows, stride, bpp);
    LastLine(last, Above(rows, stride), bpp);
    EncodedStep(rows, filters, Unfiltered(last[0], last[1..], Above(rows, stride), bpp), last[0], stride, bpp);
  }

  lemma LastLine(last: Row, previous: Row, bpp: nat)
    requires bpp > 0 && |last| == |previous| + 1
    ensures Filtered(last[0], Unfiltered(last[0], last[1..], previous, bpp), previous, bpp) == last
  {
    hide Predictor, Unfiltered;
    var line, row := last[1..], Unfiltered(last[0], last[1..], previous, bpp);
    var filtered := Filtered(last[0], row, previous, bpp);
    forall k | 0 < k < |last| ensures filtered[k] == last[k] {
      UnfilteredAt(last[0], line, previous, bpp, k - 1);
      PredictorLooksBack(last[0], row, previous, k - 1, bpp);
    }
  }

  lemma EncodedStep(rows: seq<Row>, filters: seq<Byte>, row: Row, filter: Byte, stride: nat, bpp: nat)
    requires bpp > 0 && IsImage(rows, stride) && |filters| == |rows| && |row| == stride
    ensures IsImage(rows + [row], stride)
    ensures Encoded(rows + [row], filters + [filter], stride, bpp)
            == Encoded(rows, filters, stride, bpp) + Filtered(filter, row, Above(rows, stride), bpp)
  {
    hide Predictor;
    assert (rows + [row])[..|rows|] == rows && (filters + [filter])[..|filters|] == filters;
  }
}
