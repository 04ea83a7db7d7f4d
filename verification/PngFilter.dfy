/**
 * Reversing PNG row filters (section 6 of RFC 2083) in place, a row at a time, each
 * row predicted from the one above it.
 */
module PngFilter {
  import opened Words

  function Abs(n: int): nat { if n < 0 then -n else n }

  function Paeth(a: byte, b: byte, c: byte): byte {
    var p := a as int + b as int - c as int;
    var pa, pb, pc := Abs(p - a), Abs(p - b), Abs(p - c);
    if pa <= pb && pa <= pc then a else if pb <= pc then b else c
  }

  /** The prediction from the pixels to the left, above, and above left. A filter type
      the reader does not name predicts nothing. */
  function Predict(f: byte, a: byte, b: byte, c: byte): byte {
    if f == 1 then a
    else if f == 2 then b
    else if f == 3 then (a as nat + b as nat) / 2
    else if f == 4 then Paeth(a, b, c)
    else 0
  }

  function Left(row: seq<byte>, x: nat, bpp: nat): byte {
    if bpp <= x < |row| + bpp then row[x - bpp] else 0
  }

  /** What is predicted for position `x` when the row so far is `row`. */
  function PredictAt(f: byte, row: seq<byte>, prev: seq<byte>, x: nat, bpp: nat): byte
    requires x < |prev|
  {
    Predict(f, Left(row, x, bpp), prev[x], Left(prev, x, bpp))
  }

  /** The encoder's side: each byte less its prediction. */
  function Filtered(row: seq<byte>, prev: seq<byte>, f: byte, bpp: nat): (line: seq<byte>)
    requires |row| == |prev|
    ensures |line| == |row|
  {
    seq(|row|, x requires 0 <= x < |row| => (row[x] as int - PredictAt(f, row, prev, x, bpp) as int) % 0x100)
  }

  /** The first `n` bytes of the row that `line` encodes, each from those before it. */
  function Restored(line: seq<byte>, prev: seq<byte>, f: byte, bpp: nat, n: nat): (row: seq<byte>)
    requires n <= |line| == |prev| && bpp > 0
    ensures |row| == n
  {
    if n == 0 then []
    else
      var before := Restored(line, prev, f, bpp, n - 1);
      before + [(line[n - 1] as nat + PredictAt(f, before, prev, n - 1, bpp)) % 0x100]
  }

  /** A prediction looks only at what is already restored. */
  lemma PredictsFromPrefix(f: byte, row: seq<byte>, prev: seq<byte>, x: nat, bpp: nat)
    requires x < |row| && x < |prev| && bpp > 0
    ensures PredictAt(f, row[..x], prev, x, bpp) == PredictAt(f, row, prev, x, bpp)
  {
  }

  lemma {:induction false} RestoresPrefix(row: seq<byte>, prev: seq<byte>, f: byte, bpp: nat, n: nat)
    requires n <= |row| == |prev| && bpp > 0
    ensures Restored(Filtered(row, prev, f, bpp), prev, f, bpp, n) == row[..n]
  {
    hide Predict;
    if n > 0 {
      RestoresPrefix(row, prev, f, bpp, n - 1);
      PredictsFromPrefix(f, row, prev, n - 1, bpp);
      hide PredictAt;
      AddBack(row[n - 1], PredictAt(f, row, prev, n - 1, bpp));
      assert row[..n] == row[..n - 1] + [row[n - 1]];
    }
  }

  lemma AddBack(v: byte, p: byte)
    ensures ((v as int - p as int) % 0x100 + p as int) % 0x100 == v
  {
  }

  /** Un-filtering a filtered row gives the row, for every filter type, bytes per pixel
      and row above. */
  lemma RowRoundTrip(row: seq<byte>, prev: seq<byte>, f: byte, bpp: nat)
    requires |row| == |prev| && bpp > 0
    ensures Restored(Filtered(row, prev, f, bpp), prev, f, bpp, |row|) == row
  {
    RestoresPrefix(row, prev, f, bpp, |row|);
  }

  lemma {:induction false} RestoredPrefix(line: seq<byte>, prev: seq<byte>, f: byte, bpp: nat, m: nat, n: nat)
    requires m <= n <= |line| == |prev| && bpp > 0
    ensures Restored(line, prev, f, bpp, n)[..m] == Restored(line, prev, f, bpp, m)
    decreases n
  {
    if m < n {
      RestoredPrefix(line, prev, f, bpp, m, n - 1);
    }
  }

  /** The first `n` bytes of the row are what the row will hold there. */
  lemma RestoredAt(line: seq<byte>, prev: seq<byte>, f: byte, bpp: nat, x: nat)
    requires x < |line| == |prev| && bpp > 0
    ensures var row := Restored(line, prev, f, bpp, |line|);
            row[x] == (line[x] as nat + PredictAt(f, row, prev, x, bpp)) % 0x100
  {
    hide PredictAt;
    var row := Restored(line, prev, f, bpp, |line|);
    RestoredPrefix(line, prev, f, bpp, x + 1, |line|);
    RestoredPrefix(line, prev, f, bpp, x, |line|);
    PredictsFromPrefix(f, row, prev, x, bpp);
    assert row[x] == row[..x + 1][x];
  }

  /** Paeth's choice: of left, above and above left, the nearest to left + above - above
      left, left winning ties and then above. */
  predicate Nearest(r: byte, a: byte, b: byte, c: byte) {
    var p := a as int + b as int - c as int;
    && (r == a || r == b || r == c)
    && Abs(p - r) <= Abs(p - a) && Abs(p - r) <= Abs(p - b) && Abs(p - r) <= Abs(p - c)
    && (Abs(p - a) == Abs(p - r) ==> r == a)
    && (Abs(p - a) != Abs(p - r) && Abs(p - b) == Abs(p - r) ==> r == b)
  }

  /** What each filter adds back to a byte of the line: the pixel to the left, the one
      above, their mean rounded down, Paeth's choice; and nothing at all for type 0 or a
      type with no name. Left of the row is zero. */
  lemma FilterAdds(line: seq<byte>, prev: seq<byte>, f: byte, bpp: nat, x: nat) returns (p: byte)
    requires x < |line| == |prev| && bpp > 0
    ensures var row := Restored(line, prev, f, bpp, |line|);
            var a: byte, b := if x >= bpp then row[x - bpp] else 0, prev[x];
            var c: byte := if x >= bpp then prev[x - bpp] else 0;
            && row[x] == (line[x] as nat + p) % 0x100
            && (f == 1 ==> p == a) && (f == 2 ==> p == b)
            && (f == 3 ==> 2 * p as nat <= a + b < 2 * p as nat + 2)
            && (f == 4 ==> Nearest(p, a, b, c))
            && (f == 0 || f > 4 ==> p == 0)
  {
    RestoredAt(line, prev, f, bpp, x);
    p := PredictAt(f, Restored(line, prev, f, bpp, |line|), prev, x, bpp);
    hide Restored;
  }

  /** And no two encodings restore to one row, so nothing an encoder distinguishes is
      lost: filtering what was restored gives the line back. */
  lemma LineRoundTrip(line: seq<byte>, prev: seq<byte>, f: byte, bpp: nat)
    requires |line| == |prev| && bpp > 0
    ensures Filtered(Restored(line, prev, f, bpp, |line|), prev, f, bpp) == line
  {
    hide PredictAt, Restored, Filtered;
    var row := Restored(line, prev, f, bpp, |line|);
    forall x | 0 <= x < |line|
      ensures Filtered(row, prev, f, bpp)[x] == line[x]
    {
      LineByte(line, prev, f, bpp, x);
    }
  }

  lemma LineByte(line: seq<byte>, prev: seq<byte>, f: byte, bpp: nat, x: nat)
    requires x < |line| == |prev| && bpp > 0
    ensures Filtered(Restored(line, prev, f, bpp, |line|), prev, f, bpp)[x] == line[x]
  {
    hide Predict, Left;
    var row := Restored(line, prev, f, bpp, |line|);
    RestoredPrefix(line, prev, f, bpp, x, |line|);
    RestoredPrefix(line, prev, f, bpp, x + 1, |line|);
    PredictsFromPrefix(f, row, prev, x, bpp);
    hide PredictAt;
    var p: nat := PredictAt(f, row, prev, x, bpp);
    assert row[x] == row[..x + 1][x] == (line[x] as nat + p) % 0x100;
    TakeAway(line[x], p);
  }

  lemma TakeAway(v: byte, p: nat)
    requires p < 0x100
    ensures ((v as int + p) % 0x100 - p) % 0x100 == v
  {
  }

  // ----- whole images ------------------------------------------------------------------

  function Zeros(n: nat): seq<byte> { seq(n, i => 0) }

  /** The encoder's image: each row its filter byte and its filtered bytes. */
  function EncodeRows(rows: seq<seq<byte>>, fs: seq<byte>, prev: seq<byte>, bpp: nat): seq<byte>
    requires |fs| == |rows| && forall y :: 0 <= y < |rows| ==> |rows[y]| == |prev|
  {
    if rows == [] then []
    else [fs[0]] + Filtered(rows[0], prev, fs[0], bpp) + EncodeRows(rows[1..], fs[1..], rows[0], bpp)
  }

  /** The reader's: `h` rows from `raw`, and nothing of what follows them. */
  function DecodeRows(raw: seq<byte>, h: nat, prev: seq<byte>, bpp: nat): seq<seq<byte>>
    requires |raw| >= h * (|prev| + 1) && bpp > 0
  {
    if h == 0 then []
    else
      OneRow(h, |prev|);
      var stride := |prev|;
      var row := Restored(raw[1..stride + 1], prev, raw[0], bpp, stride);
      [row] + DecodeRows(raw[stride + 1..], h - 1, row, bpp)
  }

  lemma OneRow(h: nat, stride: nat)
    requires h > 0
    ensures h * (stride + 1) == (stride + 1) + (h - 1) * (stride + 1)
    ensures (h - 1) * (stride + 1) >= 0
  {
  }

  lemma RowSplit(f: seq<byte>, line: seq<byte>, rest: seq<byte>, tail: seq<byte>)
    requires |f| == 1
    ensures var raw := f + line + rest + tail;
            raw[0] == f[0] && raw[1..|line| + 1] == line && raw[|line| + 1..] == rest + tail
  {
  }

  /** For every image, every choice of filter for each row and every pixel size, the
      reader restores the original rows, whatever follows them. */
  lemma {:induction false} ImageRoundTrip(rows: seq<seq<byte>>, fs: seq<byte>, prev: seq<byte>, bpp: nat,
                                          tail: seq<byte>)
    requires |fs| == |rows| && bpp > 0 && forall y :: 0 <= y < |rows| ==> |rows[y]| == |prev|
    ensures |EncodeRows(rows, fs, prev, bpp)| == |rows| * (|prev| + 1)
    ensures DecodeRows(EncodeRows(rows, fs, prev, bpp) + tail, |rows|, prev, bpp) == rows
  {
    hide Filtered, Restored;
    if rows != [] {
      OneRow(|rows|, |prev|);
      ImageRoundTrip(rows[1..], fs[1..], rows[0], bpp, tail);
      var line := Filtered(rows[0], prev, fs[0], bpp);
      var rest := EncodeRows(rows[1..], fs[1..], rows[0], bpp);
      var raw := EncodeRows(rows, fs, prev, bpp) + tail;
      RowSplit([fs[0]], line, rest, tail);
      RowRoundTrip(rows[0], prev, fs[0], bpp);
      assert [rows[0]] + rows[1..] == rows;
    }
  }

  // ----- the loops ------------------------------------------------------------------------

  /** One row, in place: each byte is read once and replaced once, left to right. */
  method UnfilterRow(line: array<byte>, prev: seq<byte>, f: byte, bpp: nat)
    requires line.Length == |prev| && bpp > 0
    modifies line
    ensures line[..] == Restored(old(line[..]), prev, f, bpp, |prev|)
  {
    hide Paeth;
    ghost var was := line[..];
    var x := 0;
    while x < line.Length
      invariant 0 <= x <= line.Length
      invariant line[..x] == Restored(was, prev, f, bpp, x)
      invariant line[x..] == was[x..]
    {
      assert line[x] == line[x..][0] == was[x];
      ghost var done := line[..x];
      var a := if x >= bpp then line[x - bpp] else 0;
      var b := prev[x];
      var c := if x >= bpp then prev[x - bpp] else 0;
      assert Left(done, x, bpp) == a && Left(prev, x, bpp) == c;
      line[x] := (line[x] as nat + Predict(f, a, b, c)) % 0x100;
      assert line[..x + 1] == done + [line[x]];
      assert line[x + 1..] == was[x + 1..];
      x := x + 1;
    }
  }

  /** Row after row of the decompressed stream, copied out end to end. */
  method Unfilter(raw: seq<byte>, h: nat, stride: nat, bpp: nat) returns (out: seq<byte>)
    requires |raw| >= h * (stride + 1) && bpp > 0
    ensures out == Flatten(DecodeRows(raw, h, Zeros(stride), bpp))
  {
    hide Restored;
    out := [];
    var prev := Zeros(stride);
    var rest, left := raw, h;
    while left > 0
      invariant 0 <= left && |rest| >= left * (stride + 1) && |prev| == stride
      invariant out + Flatten(DecodeRows(rest, left, prev, bpp)) == Flatten(DecodeRows(raw, h, Zeros(stride), bpp))
    {
      OneRow(left, stride);
      var f, line := rest[0], new byte[stride](i requires 0 <= i < stride => rest[i + 1]);
      assert line[..] == rest[1..stride + 1];
      UnfilterRow(line, prev, f, bpp);
      FlattenCons(line[..], DecodeRows(rest[stride + 1..], left - 1, line[..], bpp));
      out := out + line[..];
      prev := line[..];
      rest, left := rest[stride + 1..], left - 1;
    }
  }

  function Flatten(rows: seq<seq<byte>>): seq<byte> {
    if rows == [] then [] else rows[0] + Flatten(rows[1..])
  }

  lemma FlattenCons(row: seq<byte>, rows: seq<seq<byte>>)
    ensures Flatten([row] + rows) == row + Flatten(rows)
  {
  }

  /** Above the first row there is nothing: predicted from above, it is its own line. */
  lemma TopRow(raw: seq<byte>, h: nat, stride: nat, bpp: nat)
    requires |raw| >= h * (stride + 1) && bpp > 0 && h > 0
    ensures stride + 1 <= |raw| && |DecodeRows(raw, h, Zeros(stride), bpp)| > 0
    ensures raw[0] == 2 ==> DecodeRows(raw, h, Zeros(stride), bpp)[0] == raw[1..stride + 1]
  {
    OneRow(h, stride);
    var line := raw[1..stride + 1];
    if raw[0] == 2 {
      forall x | 0 <= x < stride
        ensures Restored(line, Zeros(stride), 2, bpp, stride)[x] == line[x]
      {
        var p := FilterAdds(line, Zeros(stride), 2, bpp, x);
      }
    }
  }
}
