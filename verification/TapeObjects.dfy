/**
 * Objects reassembled from a tape file's record stream: opened by one record,
 * measured by another, filled by data records, and checked when closed. With a
 * predicate on the path, the data of rejected objects is never gathered.
 */
module TapeObjects {
  import opened Options
  import opened Words
  import opened TapeRecords

  const REC_ATTRS: word := 0
  const REC_DATA: word := 1
  const REC_OBJECT: word := 2
  const REC_END: word := 8
  const ATTRS_LEN: nat := 144
  const AEGIS_BLOCK: nat := 1024

  datatype Obj = Obj(path: seq<byte>, uid: seq<byte>, length: Option<long>, blocks: long, data: seq<byte>)

  datatype Trouble = Fine | BadAttrs | NoAttrs | BadData | Tape(fault: Fault)

  type Want = Option<seq<byte> -> bool>

  predicate Wanted(want: Want, path: seq<byte>) { want.None? || want.value(path) }

  /** Bytes of data an object of this length must carry: whole Aegis blocks. */
  function Expected(length: long): nat { (length + AEGIS_BLOCK - 1) / AEGIS_BLOCK * AEGIS_BLOCK }

  datatype Progress = Progress(cur: Option<Obj>, keep: bool, objs: seq<Obj>, trouble: Trouble)

  const START := Progress(None, true, [], Fine)

  function Opened(payload: seq<byte>): Obj {
    Obj(SliceTo(payload, 12, |payload|), SliceTo(payload, 0, 8), None, 0, [])
  }

  function Closed(o: Obj): Trouble {
    if o.length.None? then NoAttrs else if |o.data| != Expected(o.length.value) then BadData else Fine
  }

  /** One record. Nothing happens outside an object, and nothing after trouble. */
  function Take(p: Progress, r: Record, want: Want): Progress {
    if p.trouble != Fine then p
    else if r.kind == REC_OBJECT then
      p.(cur := Some(Opened(r.payload)), keep := Wanted(want, Opened(r.payload).path))
    else if p.cur.None? then p
    else if r.kind == REC_ATTRS then
      if |r.payload| != ATTRS_LEN then p.(trouble := BadAttrs)
      else p.(cur := Some(p.cur.value.(length := Some(LongOf(r.payload[20..24])), blocks := LongOf(r.payload[24..28]))))
    else if r.kind == REC_DATA then
      if p.keep then p.(cur := Some(p.cur.value.(data := p.cur.value.data + r.payload))) else p
    else if r.kind == REC_END then
      if !p.keep then p.(cur := None)
      else if Closed(p.cur.value) != Fine then p.(trouble := Closed(p.cur.value))
      else p.(cur := None, objs := p.objs + [p.cur.value])
    else p
  }

  /** An object record opens an object: eight bytes of identifier, four passed over, and
      the path; an attribute record gives it its length and its block count. */
  lemma RecordFields(p: Progress, r: Record, want: Want)
    requires p.trouble == Fine
    ensures r.kind == REC_OBJECT && |r.payload| >= 12 ==>
            Take(p, r, want).cur == Some(Obj(r.payload[12..], r.payload[..8], None, 0, []))
    ensures r.kind == REC_ATTRS && |r.payload| == ATTRS_LEN && p.cur.Some? ==>
            exists v, w :: LongBytes(v) == r.payload[20..24] && LongBytes(w) == r.payload[24..28]
                           && Take(p, r, want) == p.(cur := Some(p.cur.value.(length := Some(v), blocks := w)))
  {
    if r.kind == REC_OBJECT && |r.payload| >= 12 {
      assert SliceTo(r.payload, 12, |r.payload|) == r.payload[12..];
      assert Opened(r.payload) == Obj(r.payload[12..], r.payload[..8], None, 0, []);
    } else if r.kind == REC_ATTRS && |r.payload| == ATTRS_LEN && p.cur.Some? {
      var v, w := LongOf(r.payload[20..24]), LongOf(r.payload[24..28]);
      BytesOfLong(r.payload[20..24]);
      BytesOfLong(r.payload[24..28]);
      hide LongOf, LongBytes;
      assert Take(p, r, want) == p.(cur := Some(p.cur.value.(length := Some(v), blocks := w)));
    }
  }

  function TakeAll(rs: seq<Record>, want: Want): Progress {
    if rs == [] then START else Take(TakeAll(rs[..|rs| - 1], want), rs[|rs| - 1], want)
  }

  // ----- filtering -------------------------------------------------------------------

  function Filter(objs: seq<Obj>, want: seq<byte> -> bool): seq<Obj> {
    if objs == [] then []
    else Filter(objs[..|objs| - 1], want) + if want(objs[|objs| - 1].path) then [objs[|objs| - 1]] else []
  }

  /** A full read and a filtered one, in step: the same object open, and the same data
      gathered whenever the filter keeps it. */
  predicate InStep(p: Progress, q: Progress, want: seq<byte> -> bool) {
    && p.trouble == Fine == q.trouble
    && q.objs == Filter(p.objs, want)
    && p.keep && p.cur.Some? == q.cur.Some?
    && (p.cur.Some? ==>
          && q.keep == want(p.cur.value.path)
          && q.cur.value == p.cur.value.(data := q.cur.value.data)
          && (q.keep ==> q.cur == p.cur))
  }

  lemma TakeInStep(p: Progress, q: Progress, r: Record, want: seq<byte> -> bool)
    requires InStep(p, q, want) && Take(p, r, None).trouble == Fine
    ensures InStep(Take(p, r, None), Take(q, r, Some(want)), want)
  {
  }

  /** Whenever the full extraction succeeds, so does every filtered one, and it yields
      exactly the objects the predicate accepts, in order, with the same contents. */
  lemma {:induction false} FilteredRefinesFull(rs: seq<Record>, want: seq<byte> -> bool)
    requires TakeAll(rs, None).trouble == Fine
    ensures InStep(TakeAll(rs, None), TakeAll(rs, Some(want)), want)
    ensures TakeAll(rs, Some(want)).objs == Filter(TakeAll(rs, None).objs, want)
  {
    if rs != [] {
      FilteredRefinesFull(rs[..|rs| - 1], want);
      TakeInStep(TakeAll(rs[..|rs| - 1], None), TakeAll(rs[..|rs| - 1], Some(want)), rs[|rs| - 1], want);
    }
  }

  // ----- what an object is -------------------------------------------------------------

  predicate Inner(r: Record) {
    r.kind != REC_OBJECT && r.kind != REC_END && (r.kind == REC_ATTRS ==> |r.payload| == ATTRS_LEN)
  }

  /** The data records' payloads, in order. */
  function DataOf(body: seq<Record>): seq<byte> {
    if body == [] then []
    else DataOf(body[..|body| - 1]) + if body[|body| - 1].kind == REC_DATA then body[|body| - 1].payload else []
  }

  /** The last attributes record, if there is one. */
  function AttrsOf(body: seq<Record>): (a: Option<Record>)
    ensures a.Some? ==> a.value in body && a.value.kind == REC_ATTRS
  {
    if body == [] then None
    else if body[|body| - 1].kind == REC_ATTRS then Some(body[|body| - 1])
    else AttrsOf(body[..|body| - 1])
  }

  function Assembled(open: Record, body: seq<Record>): Obj
    requires forall r :: r in body ==> Inner(r)
  {
    var attrs := AttrsOf(body);
    assert attrs.Some? ==> Inner(attrs.value);
    Opened(open.payload).(
      data := DataOf(body),
      length := if attrs.None? then None else Some(LongOf(attrs.value.payload[20..24])),
      blocks := if attrs.None? then 0 else LongOf(attrs.value.payload[24..28]))
  }

  /** Between its opening and its end, the object being read is the opening record's
      names with the last attributes seen and all the data so far. */
  lemma {:induction false} BodyAssembles(before: seq<Record>, open: Record, body: seq<Record>)
    requires TakeAll(before, None).trouble == Fine && open.kind == REC_OBJECT
    requires forall r :: r in body ==> Inner(r)
    ensures var p := TakeAll(before + [open] + body, None);
            p == Progress(Some(Assembled(open, body)), true, TakeAll(before, None).objs, Fine)
    decreases |body|
  {
    var all := before + [open] + body;
    if body == [] {
      assert all == before + [open] && all[..|all| - 1] == before;
    } else {
      var n := |body| - 1;
      BodyAssembles(before, open, body[..n]);
      assert all[..|all| - 1] == before + [open] + body[..n];
      assert all[|all| - 1] == body[n] && Inner(body[n]);
      assert DataOf(body[..n]) + [] == DataOf(body[..n]);
      assert Take(TakeAll(before + [open] + body[..n], None), body[n], None).cur == Some(Assembled(open, body));
    }
  }

  /** A whole object adds itself to what was extracted, complete and in order, exactly
      when it had an attributes record whose length its data agrees with. */
  lemma WholeObject(before: seq<Record>, open: Record, body: seq<Record>, end: Record)
    requires TakeAll(before, None).trouble == Fine && open.kind == REC_OBJECT && end.kind == REC_END
    requires forall r :: r in body ==> Inner(r)
    ensures var o, p := Assembled(open, body), TakeAll(before + [open] + body + [end], None);
            && o.data == DataOf(body)
            && (p.trouble == Fine <==> o.length.Some? && |DataOf(body)| == Expected(o.length.value))
            && p.objs == TakeAll(before, None).objs + if p.trouble == Fine then [o] else []
  {
    BodyAssembles(before, open, body);
    var all := before + [open] + body + [end];
    assert all[..|all| - 1] == before + [open] + body;
  }

  /** Every object ever yielded is whole: its length was read, and its data fills
      exactly the blocks that length needs. */
  lemma {:induction false} YieldedAreWhole(rs: seq<Record>, want: Want)
    ensures forall o :: o in TakeAll(rs, want).objs ==>
              o.length.Some? && |o.data| == Expected(o.length.value)
                  && o.length.value <= |o.data| < o.length.value + AEGIS_BLOCK && |o.data| % AEGIS_BLOCK == 0
    ensures forall o :: o in TakeAll(rs, want).objs ==> Wanted(want, o.path)
    ensures var p := TakeAll(rs, want); p.cur.Some? && p.keep ==> Wanted(want, p.cur.value.path)
  {
    if rs != [] {
      YieldedAreWhole(rs[..|rs| - 1], want);
    }
  }

  // ----- the reader as it runs ------------------------------------------------------------

  /** The extraction over one tape file: the objects yielded, and how it ended. */
  function Extraction(read: Read, want: Want): (seq<Obj>, Trouble) {
    var p := TakeAll(read.records, want);
    (p.objs, if p.trouble != Fine then p.trouble else if read.fault == Clean then Fine else Tape(read.fault))
  }

  /** Over a tape file: whenever the full extraction succeeds, every filtered one does
      and yields exactly the objects accepted. */
  lemma FilteredExtraction(image: seq<byte>, start: nat, end: nat, verify: bool, want: seq<byte> -> bool)
    requires Extraction(ReadFile(image, start, end, verify), None).1 == Fine
    ensures var full := Extraction(ReadFile(image, start, end, verify), None);
            Extraction(ReadFile(image, start, end, verify), Some(want)) == (Filter(full.0, want), Fine)
  {
    FilteredRefinesFull(ReadFile(image, start, end, verify).records, want);
  }

  /** And whatever succeeds with checking succeeds without it, with the same objects. */
  lemma CheckedExtraction(image: seq<byte>, start: nat, end: nat, want: Want)
    requires Extraction(ReadFile(image, start, end, true), want).1 == Fine
    ensures Extraction(ReadFile(image, start, end, false), want) == Extraction(ReadFile(image, start, end, true), want)
  {
    CheckingOnlyRefuses(image, start, end);
  }

  lemma TakeNext(rs: seq<Record>, i: nat, want: Want)
    requires i < |rs|
    ensures TakeAll(rs[..i + 1], want) == Take(TakeAll(rs[..i], want), rs[i], want)
  {
    assert rs[..i + 1][..i] == rs[..i];
  }

  /** The extraction loop over one file's records. */
  method Extract(records: seq<Record>, want: Want) returns (objs: seq<Obj>, trouble: Trouble)
    ensures var p := TakeAll(records, want); objs == p.objs && trouble == p.trouble
  {
    assert TakeAll(records[..0], want) == START;
    hide TakeAll, Opened, Closed, LongOf, Wanted, SliceTo;
    var cur: Option<Obj>, keep := None, true;
    objs := [];
    for i := 0 to |records|
      invariant TakeAll(records[..i], want) == Progress(cur, keep, objs, Fine)
    {
      var r := records[i];
      TakeNext(records, i, want);
      if r.kind == REC_OBJECT {
        cur := Some(Opened(r.payload));
        keep := Wanted(want, cur.value.path);
      } else if cur.Some? {
        if r.kind == REC_ATTRS {
          if |r.payload| != ATTRS_LEN {
            StoppedAt(records, i + 1, want);
            return objs, BadAttrs;
          }
          cur := Some(cur.value.(length := Some(LongOf(r.payload[20..24])), blocks := LongOf(r.payload[24..28])));
        } else if r.kind == REC_DATA {
          if keep {
            cur := Some(cur.value.(data := cur.value.data + r.payload));
          }
        } else if r.kind == REC_END {
          if keep {
            if Closed(cur.value) != Fine {
              StoppedAt(records, i + 1, want);
              return objs, Closed(cur.value);
            }
            objs := objs + [cur.value];
          }
          cur := None;
        }
      }
    }
    assert records[..|records|] == records;
    return objs, Fine;
  }

  /** The records are read as the loop consumes them, so their fault is met last. */
  method Objects(image: seq<byte>, start: nat, end: nat, verify: bool, want: Want)
    returns (objs: seq<Obj>, trouble: Trouble)
    ensures (objs, trouble) == Extraction(ReadFile(image, start, end, verify), want)
  {
    var read := Records(image, start, end, verify);
    objs, trouble := Extract(read.records, want);
    if trouble == Fine && read.fault != Clean {
      trouble := Tape(read.fault);
    }
  }

  /** Trouble is the end of it. */
  lemma {:induction false} StoppedAt(rs: seq<Record>, k: nat, want: Want)
    requires k <= |rs| && TakeAll(rs[..k], want).trouble != Fine
    ensures TakeAll(rs, want) == TakeAll(rs[..k], want)
    decreases |rs|
  {
    if k == |rs| {
      assert rs[..k] == rs;
    } else {
      assert rs[..|rs| - 1][..k] == rs[..k];
      StoppedAt(rs[..|rs| - 1], k, want);
    }
  }
}
