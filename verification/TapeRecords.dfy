/**
 * The record grammar of a `wbak` tape file: 512-byte blocks with a fourteen-byte
 * header giving the bytes used, and in them records of type, length, stream and
 * payload, padded to even length. Reading is lazy in the source, so a failed read
 * still has the records that came before the failure.
 */
module TapeRecords {
  import opened Words

  const BLOCK: nat := 512
  const HDR_LEN: nat := 14
  const REC_HDR: nat := 6
  const FILLER: seq<byte> := [0xde, 0xaf, 0xfa, 0xed]

  datatype Record = Record(kind: word, stream: word, payload: seq<byte>)

  datatype Fault = Clean | ShortBlock | BadUsed | Overrun | Unreadable | LeftOver

  /** The records read, and how the reading ended. */
  datatype Read = Read(records: seq<Record>, fault: Fault)

  function Even(n: nat): nat { n + n % 2 }

  function SliceTo(b: seq<byte>, lo: nat, hi: nat): seq<byte> {
    if lo >= |b| || hi <= lo then [] else b[lo..if hi <= |b| then hi else |b|]
  }

  /** The chain of records from `p`; `used` bounds it, and under `verify` must be met
      exactly. */
  function Chain(b: seq<byte>, used: nat, p: nat, verify: bool): Read
    decreases used + 1 - p
  {
    if p + REC_HDR > used then Read([], if verify && p != used then LeftOver else Clean)
    else if p + REC_HDR > |b| then Read([], Unreadable)
    else
      var end := p + REC_HDR + U16(b, p + 2);
      if end > used then Read([], Overrun)
      else
        var rest := Chain(b, used, Even(end), verify);
        Read([Record(U16(b, p), U16(b, p + 4), SliceTo(b, p + REC_HDR, end))] + rest.records, rest.fault)
  }

  function ReadBlock(b: seq<byte>, verify: bool): Read {
    if |b| < HDR_LEN then Read([], ShortBlock)
    else if b[..4] == FILLER then Read([], Clean)
    else
      var used := U16(b, 12);
      if used < HDR_LEN || used > BLOCK then Read([], BadUsed) else Chain(b, used, HDR_LEN, verify)
  }

  /** What is wrong with a block before its records are looked at, and when a block is
      passed over. */
  lemma BlockFaults(b: seq<byte>, verify: bool)
    ensures var r := ReadBlock(b, verify);
            && (r.fault == ShortBlock <==> |b| < 14)
            && (|b| >= 14 && b[..4] == [0xde, 0xaf, 0xfa, 0xed] ==> r == Read([], Clean))
            && (r.fault == BadUsed <==> |b| >= 14 && b[..4] != [0xde, 0xaf, 0xfa, 0xed]
                                        && !(14 <= 0x100 * b[12] as nat + b[13] as nat <= 512))
  {
    if |b| >= HDR_LEN { ChainFaults(b, U16(b, 12), HDR_LEN, verify); }
    hide Chain;
  }

  lemma {:induction false} ChainFaults(b: seq<byte>, used: nat, p: nat, verify: bool)
    ensures Chain(b, used, p, verify).fault !in {ShortBlock, BadUsed}
    decreases used + 1 - p
  {
    if p + REC_HDR <= used && p + REC_HDR <= |b| && p + REC_HDR + U16(b, p + 2) <= used {
      ChainFaults(b, used, Even(p + REC_HDR + U16(b, p + 2)), verify);
    }
  }

  /** Block after block from `start`, stopping at the first fault. */
  function ReadFile(image: seq<byte>, start: nat, end: nat, verify: bool): Read
    decreases if start < end then end - start else 0
  {
    if start >= end then Read([], Clean)
    else
      var first := ReadBlock(SliceTo(image, start, start + BLOCK), verify);
      if first.fault != Clean then first
      else
        var rest := ReadFile(image, start + BLOCK, end, verify);
        Read(first.records + rest.records, rest.fault)
  }

  // ----- writing ------------------------------------------------------------------

  function RecordBytes(r: Record): seq<byte>
    requires |r.payload| < 0x1_0000
  {
    Put16(r.kind) + Put16(|r.payload|) + Put16(r.stream) + r.payload + if |r.payload| % 2 == 1 then [0] else []
  }

  function Body(rs: seq<Record>): seq<byte>
    requires forall r :: r in rs ==> |r.payload| < 0x1_0000
  {
    if rs == [] then [] else RecordBytes(rs[0]) + Body(rs[1..])
  }

  function Size(rs: seq<Record>): nat {
    if rs == [] then 0 else REC_HDR + Even(|rs[0].payload|) + Size(rs[1..])
  }

  predicate Fits(rs: seq<Record>) {
    HDR_LEN + Size(rs) <= BLOCK && forall r :: r in rs ==> |r.payload| < 0x1_0000
  }

  lemma {:induction false} BodySize(rs: seq<Record>)
    requires forall r :: r in rs ==> |r.payload| < 0x1_0000
    ensures |Body(rs)| == Size(rs) && Size(rs) % 2 == 0
  {
    hide RecordBytes, Even;
    if rs != [] {
      assert rs[0] in rs && forall r :: r in rs[1..] ==> r in rs;
      RecordSize(rs[0]);
      BodySize(rs[1..]);
      EvenSum(|rs[0].payload|, Size(rs[1..]));
    }
  }

  lemma EvenSum(n: nat, m: nat)
    requires m % 2 == 0
    ensures (REC_HDR + Even(n) + m) % 2 == 0
  {
  }

  lemma RecordSize(r: Record)
    requires |r.payload| < 0x1_0000
    ensures |RecordBytes(r)| == REC_HDR + Even(|r.payload|)
  {
  }

  /** A block with these records, any leading header bytes, and any filling. */
  function WriteBlock(head: seq<byte>, rs: seq<Record>, fill: byte): (b: seq<byte>)
    requires |head| == 12 && Fits(rs)
    ensures |b| == BLOCK
  {
    BodySize(rs);
    var text := head + Put16(HDR_LEN + Size(rs)) + Body(rs);
    text + seq(BLOCK - |text|, i => fill)
  }

  /** Wherever a record list is written, reading from there gives it back and goes on
      from its end. */
  lemma {:induction false} ChainOfBody(b: seq<byte>, p: nat, rs: seq<Record>, used: nat, verify: bool)
    requires forall r :: r in rs ==> |r.payload| < 0x1_0000
    requires p % 2 == 0 && used == p + Size(rs) && Lies(b, p, Body(rs))
    ensures Chain(b, used, p, verify) == Read(rs, Clean)
    decreases |rs|
  {
    hide RecordBytes, U16, SliceTo, Lies, Body;
    if rs == [] {
      assert Chain(b, used, p, verify) == Read([], Clean);
    }
    hide Chain;
    if rs != [] {
      BodyHead(rs, p);
      LiesTogether(b, p, RecordBytes(rs[0]), Body(rs[1..]));
      assert [rs[0]] + rs[1..] == rs;
      RecordAt(b, p, rs[0]);
      ChainOfBody(b, p + |RecordBytes(rs[0])|, rs[1..], used, verify);
      ChainStep(b, used, p, rs[0], verify);
    }
  }

  lemma BodyHead(rs: seq<Record>, p: nat)
    requires rs != [] && p % 2 == 0 && forall r :: r in rs ==> |r.payload| < 0x1_0000
    ensures var text, n := RecordBytes(rs[0]), |rs[0].payload|;
            && Body(rs) == text + Body(rs[1..]) && Size(rs) == |text| + Size(rs[1..])
            && |text| % 2 == 0 && REC_HDR + n <= |text|
            && Even(p + REC_HDR + n) == p + |text|
  {
  }

  /** One step of the chain over a record known to be there. */
  lemma ChainStep(b: seq<byte>, used: nat, p: nat, r: Record, verify: bool)
    requires var n := |r.payload|;
             && p + REC_HDR + n <= |b| && p + REC_HDR + n <= used && n < 0x1_0000
             && U16(b, p) == r.kind && U16(b, p + 2) == n && U16(b, p + 4) == r.stream
             && SliceTo(b, p + REC_HDR, p + REC_HDR + n) == r.payload
    ensures var rest := Chain(b, used, Even(p + REC_HDR + |r.payload|), verify);
            Chain(b, used, p, verify) == Read([r] + rest.records, rest.fault)
  {
  }

  lemma RecordAt(b: seq<byte>, p: nat, r: Record)
    requires |r.payload| < 0x1_0000 && Lies(b, p, RecordBytes(r))
    ensures var n := |r.payload|;
            && p + REC_HDR + n <= |b|
            && U16(b, p) == r.kind && U16(b, p + 2) == n && U16(b, p + 4) == r.stream
            && SliceTo(b, p + REC_HDR, p + REC_HDR + n) == r.payload
  {
    var t := RecordBytes(r);
    RecordFields(r);
    hide RecordBytes, Join;
    Inside(b, p, t);
  }

  lemma RecordFields(r: Record)
    requires |r.payload| < 0x1_0000
    ensures var t, n := RecordBytes(r), |r.payload|;
            && |t| == REC_HDR + Even(n) && t[6..6 + n] == r.payload
            && U16(t, 0) == r.kind && U16(t, 2) == n && U16(t, 4) == r.stream
  {
  }

  lemma Inside(b: seq<byte>, p: nat, t: seq<byte>)
    requires Lies(b, p, t)
    ensures forall k :: 0 <= k && k + 2 <= |t| ==> U16(b, p + k) == U16(t, k)
    ensures forall lo, hi :: 0 <= lo <= hi <= |t| ==> SliceTo(b, p + lo, p + hi) == t[lo..hi]
  {
    assert forall i {:trigger t[i]} :: 0 <= i < |t| ==> b[p + i] == t[i] by {
      assert forall i :: 0 <= i < |t| ==> b[p..p + |t|][i] == t[i];
    }
  }

  /** One block, there and back, checked or not. */
  lemma BlockRoundTrip(head: seq<byte>, rs: seq<Record>, fill: byte, verify: bool)
    requires |head| == 12 && Fits(rs) && head[..4] != FILLER
    ensures ReadBlock(WriteBlock(head, rs, fill), verify) == Read(rs, Clean)
  {
    BodySize(rs);
    var used := HDR_LEN + Size(rs);
    var front := head + Put16(used);
    var b := WriteBlock(head, rs, fill);
    var rest := seq(BLOCK - |front + Body(rs)|, i => fill);
    assert b == front + Body(rs) + rest;
    assert b[..4] == head[..4];
    assert U16(b, 12) == used by { assert b[12] == front[12] && b[13] == front[13]; }
    assert b[HDR_LEN..HDR_LEN + |Body(rs)|] == Body(rs);
    ChainOfBody(b, HDR_LEN, rs, used, verify);
  }

  /** A tape file of several blocks, one record list to each. */
  function WriteFile(head: seq<byte>, blocks: seq<seq<Record>>, fill: byte): (image: seq<byte>)
    requires |head| == 12 && forall k :: 0 <= k < |blocks| ==> Fits(blocks[k])
    ensures |image| == BLOCK * |blocks|
  {
    if blocks == [] then [] else WriteBlock(head, blocks[0], fill) + WriteFile(head, blocks[1..], fill)
  }

  function Flatten(blocks: seq<seq<Record>>): seq<Record> {
    if blocks == [] then [] else blocks[0] + Flatten(blocks[1..])
  }

  lemma {:induction false} FileRoundTrip(before: seq<byte>, head: seq<byte>, blocks: seq<seq<Record>>, fill: byte,
                                         after: seq<byte>, verify: bool)
    requires |head| == 12 && head[..4] != FILLER && forall k :: 0 <= k < |blocks| ==> Fits(blocks[k])
    ensures ReadFile(before + WriteFile(head, blocks, fill) + after, |before|, |before| + BLOCK * |blocks|, verify)
         == Read(Flatten(blocks), Clean)
    decreases |blocks|
  {
    hide WriteBlock, ReadBlock, Fits, Size;
    if blocks != [] {
      var one := WriteBlock(head, blocks[0], fill);
      var image := before + WriteFile(head, blocks, fill) + after;
      assert image == (before + one) + WriteFile(head, blocks[1..], fill) + after;
      assert SliceTo(image, |before|, |before| + BLOCK) == one;
      BlockRoundTrip(head, blocks[0], fill, verify);
      FileRoundTrip(before + one, head, blocks[1..], fill, after, verify);
      assert |before + one| + BLOCK * |blocks[1..]| == |before| + BLOCK * |blocks|;
    }
  }

  /** First fit in order: as many records to a block as it holds. */
  function Pack(open: seq<Record>, rs: seq<Record>): (blocks: seq<seq<Record>>)
    requires Fits(open) && forall r :: r in rs ==> Fits([r])
    ensures forall k :: 0 <= k < |blocks| ==> Fits(blocks[k])
    ensures Flatten(blocks) == open + rs
    decreases |rs|
  {
    if rs == [] then
      assert open + rs == open && [open][1..] == [];
      [open]
    else
      assert rs == [rs[0]] + rs[1..];
      if Fits(open + [rs[0]]) then
        assert open + rs == open + [rs[0]] + rs[1..];
        Pack(open + [rs[0]], rs[1..])
      else
        var more := Pack([rs[0]], rs[1..]);
        assert ([open] + more)[1..] == more;
        [open] + more
  }

  lemma PackedAll(rs: seq<Record>)
    requires forall r :: r in rs ==> Fits([r])
    ensures Fits([]) && Flatten(Pack([], rs)) == rs
  {
    assert [] + rs == rs;
    hide Pack, Flatten;
  }

  lemma Alone(image: seq<byte>)
    ensures [] + image + [] == image
  {
  }

  /** Any record list a block could hold one at a time survives being written to tape
      and read back, in order and complete. */
  lemma TapeRoundTrip(head: seq<byte>, rs: seq<Record>, fill: byte, verify: bool)
    requires |head| == 12 && head[..4] != FILLER && forall r :: r in rs ==> Fits([r])
    ensures var image := WriteFile(head, Pack([], rs), fill);
            ReadFile(image, 0, |image|, verify) == Read(rs, Clean)
  {
    PackedAll(rs);
    hide WriteFile, ReadFile, Pack, Fits, Flatten, Size;
    var blocks := Pack([], rs);
    FileRoundTrip([], head, blocks, fill, [], verify);
    Alone(WriteFile(head, blocks, fill));
  }

  // ----- what verification proves of a block -----------------------------------------

  /** The records lie end to end in the block from `p` to `used`, each byte for byte
      but for the value of its padding. */
  predicate Covers(b: seq<byte>, p: nat, used: nat, rs: seq<Record>)
    decreases |rs|
  {
    if rs == [] then p == used
    else
      var n := |rs[0].payload|;
      && n < 0x1_0000
      && p + REC_HDR + n <= |b|
      && b[p..p + REC_HDR + n] == RecordBytes(rs[0])[..REC_HDR + n]
      && Covers(b, Even(p + REC_HDR + n), used, rs[1..])
  }

  lemma {:induction false} ChainCovers(b: seq<byte>, used: nat, p: nat)
    requires used <= |b| && p % 2 == 0 && Chain(b, used, p, true).fault == Clean
    ensures Covers(b, p, used, Chain(b, used, p, true).records)
    decreases used + 1 - p
  {
    hide RecordBytes, U16, SliceTo;
    if p + REC_HDR > used {
      assert p == used;
    } else {
      var n := U16(b, p + 2) as nat;
      var r := Record(U16(b, p), U16(b, p + 4), SliceTo(b, p + REC_HDR, p + REC_HDR + n));
      RecordLies(b, p);
      var rest := Chain(b, used, Even(p + REC_HDR + n), true);
      ChainCovers(b, used, Even(p + REC_HDR + n));
      assert ([r] + rest.records)[1..] == rest.records;
    }
  }

  lemma RecordLies(b: seq<byte>, p: nat)
    requires p + REC_HDR <= |b| && p + REC_HDR + U16(b, p + 2) <= |b|
    ensures var n := U16(b, p + 2) as nat;
            var r := Record(U16(b, p), U16(b, p + 4), SliceTo(b, p + REC_HDR, p + REC_HDR + n));
            |r.payload| == n && b[p..p + REC_HDR + n] == RecordBytes(r)[..REC_HDR + n]
  {
    hide Put16, U16, Join, RecordBytes, SliceTo;
    PutBack(b, p);
    PutBack(b, p + 2);
    PutBack(b, p + 4);
    var n := U16(b, p + 2) as nat;
    var pad: seq<byte> := if n % 2 == 1 then [0] else [];
    Prefix(b, p, n, pad);
    Parts(b, p);
  }

  lemma Parts(b: seq<byte>, p: nat)
    requires p + REC_HDR <= |b| && p + REC_HDR + U16(b, p + 2) <= |b|
    ensures var n := U16(b, p + 2) as nat;
            var payload := SliceTo(b, p + REC_HDR, p + REC_HDR + n);
            |payload| == n &&
            RecordBytes(Record(U16(b, p), U16(b, p + 4), payload))
            == Put16(U16(b, p)) + Put16(U16(b, p + 2)) + Put16(U16(b, p + 4)) + payload + if n % 2 == 1 then [0] else []
  {
  }

  /** A record's parts, side by side, are its stretch of the block. */
  lemma Prefix(b: seq<byte>, p: nat, n: nat, pad: seq<byte>)
    requires p + REC_HDR + n <= |b|
    ensures SliceTo(b, p + REC_HDR, p + REC_HDR + n) == b[p + 6..p + 6 + n]
    ensures (b[p..p + 2] + b[p + 2..p + 4] + b[p + 4..p + 6] + b[p + 6..p + 6 + n] + pad)[..REC_HDR + n] ==
            b[p..p + REC_HDR + n]
  {
  }

  lemma PutBack(b: seq<byte>, p: nat)
    requires p + 2 <= |b|
    ensures Put16(U16(b, p)) == b[p..p + 2]
  {
  }

  /** A checked block that is not leader or trailer is its records and nothing else. */
  lemma VerifiedBlockIsCovered(b: seq<byte>)
    requires |b| == BLOCK && b[..4] != FILLER && ReadBlock(b, true).fault == Clean
    ensures Covers(b, HDR_LEN, U16(b, 12), ReadBlock(b, true).records)
    ensures U16(b, 12) == HDR_LEN + Size(ReadBlock(b, true).records)
  {
    ChainCovers(b, U16(b, 12), HDR_LEN);
    CoveredSize(b, HDR_LEN, U16(b, 12), ReadBlock(b, true).records);
  }

  lemma {:induction false} CoveredSize(b: seq<byte>, p: nat, used: nat, rs: seq<Record>)
    requires p % 2 == 0 && Covers(b, p, used, rs)
    ensures used == p + Size(rs)
    decreases |rs|
  {
    if rs != [] {
      CoveredSize(b, Even(p + REC_HDR + |rs[0].payload|), used, rs[1..]);
    }
  }

  lemma {:induction false} ChainChecked(b: seq<byte>, used: nat, p: nat)
    ensures Chain(b, used, p, true).records == Chain(b, used, p, false).records
    ensures var t, f := Chain(b, used, p, true).fault, Chain(b, used, p, false).fault;
            t == f || (t == LeftOver && f == Clean)
    decreases used + 1 - p
  {
    hide U16, SliceTo;
    if p + REC_HDR <= used && p + REC_HDR <= |b| && p + REC_HDR + U16(b, p + 2) <= used {
      ChainChecked(b, used, Even(p + REC_HDR + U16(b, p + 2)));
    }
  }

  lemma BlockChecked(b: seq<byte>)
    ensures ReadBlock(b, true).records == ReadBlock(b, false).records
    ensures var t, f := ReadBlock(b, true).fault, ReadBlock(b, false).fault;
            t == f || (t == LeftOver && f == Clean)
  {
    hide Chain;
    if |b| >= HDR_LEN { ChainChecked(b, U16(b, 12), HDR_LEN); }
  }

  /** Checking only refuses: over a whole tape file, reading with it either agrees with
      reading without it, faults and all, or stops short at a block with bytes left
      over, having read the same records up to and through that block. */
  lemma {:induction false} CheckingOnlyRefuses(image: seq<byte>, start: nat, end: nat)
    ensures var t, f := ReadFile(image, start, end, true), ReadFile(image, start, end, false);
            t == f || (t.fault == LeftOver && t.records <= f.records)
    decreases if start < end then end - start else 0
  {
    hide ReadBlock, SliceTo;
    if start < end {
      BlockChecked(SliceTo(image, start, start + BLOCK));
      CheckingOnlyRefuses(image, start + BLOCK, end);
    }
  }

  // ----- the reader as it runs -------------------------------------------------------

  lemma Regroup(a: seq<Record>, b: seq<Record>, c: seq<Record>)
    ensures a + b + c == a + (b + c)
  {
  }

  /** One block's cursor loop. */
  method ScanBlock(b: seq<byte>, used: nat, verify: bool) returns (r: Read)
    ensures r == Chain(b, used, HDR_LEN, verify)
  {
    hide U16, SliceTo;
    var p, out := HDR_LEN, [];
    while p + REC_HDR <= used
      invariant Chain(b, used, HDR_LEN, verify)
             == Read(out + Chain(b, used, p, verify).records, Chain(b, used, p, verify).fault)
      decreases used + 1 - p
    {
      if p + REC_HDR > |b| {
        return Read(out, Unreadable);
      }
      var end := p + REC_HDR + U16(b, p + 2);
      if end > used {
        return Read(out, Overrun);
      }
      var record := Record(U16(b, p), U16(b, p + 4), SliceTo(b, p + REC_HDR, end));
      Regroup(out, [record], Chain(b, used, Even(end), verify).records);
      out := out + [record];
      p := end + end % 2;
    }
    return Read(out, if verify && p != used then LeftOver else Clean);
  }

  /** Every record of one tape file, in order. */
  method Records(image: seq<byte>, start: nat, end: nat, verify: bool) returns (r: Read)
    ensures r == ReadFile(image, start, end, verify)
  {
    hide U16, SliceTo, Chain;
    var off, out := start, [];
    while off < end
      invariant ReadFile(image, start, end, verify)
             == Read(out + ReadFile(image, off, end, verify).records, ReadFile(image, off, end, verify).fault)
      decreases if off < end then end - off else 0
    {
      var b := SliceTo(image, off, off + BLOCK);
      if |b| < HDR_LEN {
        return Read(out, ShortBlock);
      }
      if b[..4] != FILLER {
        var used := U16(b, 12);
        if used < HDR_LEN || used > BLOCK {
          return Read(out, BadUsed);
        }
        var one := ScanBlock(b, used, verify);
        if one.fault != Clean {
          return Read(out + one.records, one.fault);
        }
        Regroup(out, one.records, ReadFile(image, off + BLOCK, end, verify).records);
        out := out + one.records;
      }
      off := off + BLOCK;
    }
    return Read(out, Clean);
  }
}
