/**
 * The whole board's feed: every part absorbed one after another into one accumulator.
 * Whatever the parts between them feed, as long as its form is settled, two boards feed
 * alike exactly when every part's live state is equal.
 */
module WholeFeed {
  import opened Words
  import opened StateFeed
  import opened DeviceFeeds
  import opened DisplayFeed

  /** One part of the feed. The SCSI queue and the tape's buffers are stretches inside
      their own devices' feeders; `Other` is any stretch besides, item by item. */
  datatype Section =
    | SerialPart(serial: Serial)
    | QueuePart(queue: AscQueue)
    | DisplayPart(display: Display)
    | KeyboardPart(keyboard: Keyboard)
    | TapePart(tape: Tape)
    | EthernetPart(card: Card, adapter: Adapter)
    | RingPart(station: Station)
    | Other(items: seq<Item>)

  predicate Wf(s: Section) {
    match s
    case SerialPart(c) => c.Wf()
    case QueuePart(q) => q.Wf()
    case DisplayPart(d) => d.Wf()
    case KeyboardPart(k) => k.Wf()
    case TapePart(t) => t.Wf()
    case EthernetPart(c, x) => c.Wf() && x.Wf()
    case RingPart(r) => r.Wf()
    case Other(_) => true
  }

  function ItemsOf(s: Section): seq<Item>
    requires Wf(s)
  {
    match s
    case SerialPart(c) => SerialItems(SerialLive(c))
    case QueuePart(q) => AscItems(AscLive(q), q.count)
    case DisplayPart(d) => DisplayItems(DisplayLive(d))
    case KeyboardPart(k) => KeyboardItems(KeyboardLive(k))
    case TapePart(t) => TapeItems(TapeLive(t))
    case EthernetPart(c, x) => CardItems(CardLive(c)) + AdapterItems(AdapterLive(x))
    case RingPart(r) => StationItems(StationLive(r))
    case Other(items) => items
  }

  predicate SameLive(s: Section, t: Section)
    requires Wf(s) && Wf(t)
  {
    match (s, t)
    case (SerialPart(c), SerialPart(d)) => SerialLive(c) == SerialLive(d)
    case (QueuePart(q), QueuePart(r)) => AscLive(q) == AscLive(r)
    case (DisplayPart(d), DisplayPart(e)) => DisplayLive(d) == DisplayLive(e)
    case (KeyboardPart(j), KeyboardPart(k)) => KeyboardLive(j) == KeyboardLive(k)
    case (TapePart(t), TapePart(u)) => TapeLive(t) == TapeLive(u)
    case (EthernetPart(c, x), EthernetPart(d, y)) => CardLive(c) == CardLive(d) && AdapterLive(x) == AdapterLive(y)
    case (RingPart(r), RingPart(q)) => StationLive(r) == StationLive(q)
    case (Other(a), Other(b)) => a == b
    case _ => false
  }

  /** Parts of the same kind, and other stretches that a decoder could read. */
  predicate SameForm(s: Section, t: Section) {
    match (s, t)
    case (SerialPart(_), SerialPart(_)) => true
    case (QueuePart(_), QueuePart(_)) => true
    case (DisplayPart(_), DisplayPart(_)) => true
    case (KeyboardPart(_), KeyboardPart(_)) => true
    case (TapePart(_), TapePart(_)) => true
    case (EthernetPart(_, _), EthernetPart(_, _)) => true
    case (RingPart(_), RingPart(_)) => true
    case (Other(a), Other(b)) => Readable(a, b)
    case _ => false
  }

  lemma SectionExact(s: Section, x: seq<byte>, t: Section, y: seq<byte>)
    requires Wf(s) && Wf(t) && SameForm(s, t)
    ensures Stream(ItemsOf(s)) + x == Stream(ItemsOf(t)) + y <==> SameLive(s, t) && x == y
  {
    hide Stream, Readable;
    match s
    case SerialPart(c) => SerialExact(c, x, t.serial, y);
    case QueuePart(q) => AscExact(q, x, t.queue, y);
    case DisplayPart(d) => DisplayExact(d, x, t.display, y);
    case KeyboardPart(k) => KeyboardExact(k, x, t.keyboard, y);
    case TapePart(u) => TapeExact(u, x, t.tape, y);
    case EthernetPart(c, a) => EthernetExact(c, a, x, t.card, t.adapter, y);
    case RingPart(r) => StationExact(r, x, t.station, y);
    case Other(items) =>
      if Stream(items) + x == Stream(t.items) + y { StreamInjective(items, x, t.items, y); }
  }

  /** The card is followed at once by its adapter. */
  lemma EthernetExact(c: Card, a: Adapter, x: seq<byte>, d: Card, b: Adapter, y: seq<byte>)
    requires c.Wf() && a.Wf() && d.Wf() && b.Wf()
    ensures var p := CardItems(CardLive(c)) + AdapterItems(AdapterLive(a));
            var q := CardItems(CardLive(d)) + AdapterItems(AdapterLive(b));
            Stream(p) + x == Stream(q) + y <==> CardLive(c) == CardLive(d) && AdapterLive(a) == AdapterLive(b) && x == y
  {
    hide Stream, CardItems, AdapterItems, CardLive, AdapterLive;
    var p, q := AdapterItems(AdapterLive(a)), AdapterItems(AdapterLive(b));
    StreamConcat(CardItems(CardLive(c)), p);
    StreamConcat(CardItems(CardLive(d)), q);
    Regroup(Stream(CardItems(CardLive(c))), Stream(p), x);
    Regroup(Stream(CardItems(CardLive(d))), Stream(q), y);
    CardExact(c, Stream(p) + x, d, Stream(q) + y);
    AdapterExact(a, x, b, y);
  }

  function Feed(parts: seq<Section>): seq<byte>
    requires forall i :: 0 <= i < |parts| ==> Wf(parts[i])
  {
    if parts == [] then [] else Stream(ItemsOf(parts[0])) + Feed(parts[1..])
  }

  predicate Alike(a: seq<Section>, b: seq<Section>)
    requires |a| == |b| && forall i :: 0 <= i < |a| ==> Wf(a[i]) && Wf(b[i])
  {
    forall i :: 0 <= i < |a| ==> SameLive(a[i], b[i])
  }

  /** Parts that can be compared one by one. */
  predicate Comparable(a: seq<Section>, b: seq<Section>) {
    |a| == |b| && forall i :: 0 <= i < |a| ==> Wf(a[i]) && Wf(b[i]) && SameForm(a[i], b[i])
  }

  /** However many parts, in whatever order: one stream of bytes decides them all. */
  lemma {:induction false} FeedExact(a: seq<Section>, x: seq<byte>, b: seq<Section>, y: seq<byte>)
    requires Comparable(a, b)
    ensures Feed(a) + x == Feed(b) + y <==> Alike(a, b) && x == y
  {
    hide Stream, ItemsOf, SameForm, SameLive;
    if a == [] {
      assert Feed(a) + x == x && Feed(b) + y == y;
    } else {
      Regroup(Stream(ItemsOf(a[0])), Feed(a[1..]), x);
      Regroup(Stream(ItemsOf(b[0])), Feed(b[1..]), y);
      SectionExact(a[0], Feed(a[1..]) + x, b[0], Feed(b[1..]) + y);
      FeedExact(a[1..], x, b[1..], y);
      AlikeHead(a, b);
    }
  }

  lemma AlikeHead(a: seq<Section>, b: seq<Section>)
    requires |a| == |b| > 0 && forall i :: 0 <= i < |a| ==> Wf(a[i]) && Wf(b[i])
    ensures Alike(a, b) <==> SameLive(a[0], b[0]) && Alike(a[1..], b[1..])
  {
    hide SameLive;
    if SameLive(a[0], b[0]) && Alike(a[1..], b[1..]) {
      forall i | 0 <= i < |a| ensures SameLive(a[i], b[i]) {
        if i > 0 { assert SameLive(a[1..][i - 1], b[1..][i - 1]); }
      }
    }
    if Alike(a, b) {
      forall i | 0 <= i < |a[1..]| ensures SameLive(a[1..][i], b[1..][i]) {
        assert SameLive(a[i + 1], b[i + 1]);
      }
    }
  }

  // ----- the board's own order ----------------------------------------------------------

  /** What the board feeds: the four serial channels in their two ports, the tape's
      buffers, the SCSI queue when the adapter is fitted, the display, the keyboard, the
      802.3 card with its adapter, and the ring station; `gaps` is what is fed between
      them. */
  datatype Board = Board(channels: seq<Serial>, tape: Tape, scsi: bool, queue: AscQueue, display: Display,
                         keyboard: Keyboard, card: Card, adapter: Adapter, station: Station, gaps: seq<seq<Item>>)
  {
    predicate Wf() {
      && |channels| == 4 && (forall i :: 0 <= i < 4 ==> channels[i].Wf())
      && tape.Wf() && queue.Wf() && display.Wf() && keyboard.Wf() && card.Wf() && adapter.Wf() && station.Wf()
      && |gaps| == 8
    }
  }

  function Front(b: Board): (parts: seq<Section>)
    requires b.Wf()
    ensures |parts| == 6 && forall i :: 0 <= i < |parts| ==> Wf(parts[i])
  {
    [Other(b.gaps[0]), SerialPart(b.channels[0]), SerialPart(b.channels[1]), Other(b.gaps[1]),
     SerialPart(b.channels[2]), SerialPart(b.channels[3])]
  }

  function Middle(b: Board): (parts: seq<Section>)
    requires b.Wf()
    ensures |parts| == 7 && forall i :: 0 <= i < |parts| ==> Wf(parts[i])
  {
    [Other(b.gaps[2]), TapePart(b.tape), Other(b.gaps[3]), if b.scsi then QueuePart(b.queue) else Other([]),
     Other(b.gaps[4]), DisplayPart(b.display), Other(b.gaps[5])]
  }

  function Back(b: Board): (parts: seq<Section>)
    requires b.Wf()
    ensures |parts| == 5 && forall i :: 0 <= i < |parts| ==> Wf(parts[i])
  {
    [KeyboardPart(b.keyboard), Other(b.gaps[6]), EthernetPart(b.card, b.adapter), RingPart(b.station), Other(b.gaps[7])]
  }

  /** The whole board's bytes. */
  function BoardFeed(b: Board): seq<byte>
    requires b.Wf()
  {
    Feed(Front(b)) + (Feed(Middle(b)) + Feed(Back(b)))
  }

  /** The same model with the same cards fitted. */
  predicate SameMachine(a: Board, b: Board)
    requires a.Wf() && b.Wf()
  {
    a.scsi == b.scsi && forall i :: 0 <= i < 8 ==> Readable(a.gaps[i], b.gaps[i])
  }

  predicate SameBoard(a: Board, b: Board)
    requires a.Wf() && b.Wf()
  {
    && (forall i :: 0 <= i < 4 ==> SerialLive(a.channels[i]) == SerialLive(b.channels[i]))
    && TapeLive(a.tape) == TapeLive(b.tape)
    && (a.scsi ==> AscLive(a.queue) == AscLive(b.queue))
    && DisplayLive(a.display) == DisplayLive(b.display)
    && KeyboardLive(a.keyboard) == KeyboardLive(b.keyboard)
    && CardLive(a.card) == CardLive(b.card) && AdapterLive(a.adapter) == AdapterLive(b.adapter)
    && StationLive(a.station) == StationLive(b.station)
    && forall i :: 0 <= i < 8 ==> a.gaps[i] == b.gaps[i]
  }

  /** Two boards of one model with the same cards absorb the same bytes if and only if
      the live contents of every queue, ring and buffer, and everything between them,
      are equal. */
  lemma WholeFeedExact(a: Board, b: Board)
    requires a.Wf() && b.Wf() && SameMachine(a, b)
    ensures BoardFeed(a) == BoardFeed(b) <==> SameBoard(a, b)
  {
    hide Front, Middle, Back, Comparable, Alike, Feed, Readable, SameMachine, Wf;
    hide SerialLive, TapeLive, AscLive, DisplayLive, KeyboardLive, CardLive, AdapterLive, StationLive;
    FrontForm(a, b);
    MiddleForm(a, b);
    BackForm(a, b);
    FrontAlike(a, b);
    MiddleAlike(a, b);
    BackAlike(a, b);
    ThreeFeeds(Front(a), Middle(a), Back(a), Front(b), Middle(b), Back(b));
  }

  lemma ThreeFeeds(p: seq<Section>, q: seq<Section>, r: seq<Section>, u: seq<Section>, v: seq<Section>, w: seq<Section>)
    requires Comparable(p, u) && Comparable(q, v) && Comparable(r, w)
    ensures Feed(p) + (Feed(q) + Feed(r)) == Feed(u) + (Feed(v) + Feed(w)) <==>
            Alike(p, u) && Alike(q, v) && Alike(r, w)
  {
    hide Feed, SameForm, SameLive, Wf, Alike;
    FeedExact(p, Feed(q) + Feed(r), u, Feed(v) + Feed(w));
    FeedExact(q, Feed(r), v, Feed(w));
    FeedExact(r, [], w, []);
    assert Feed(r) + [] == Feed(r) && Feed(w) + [] == Feed(w);
  }

  lemma FrontForm(a: Board, b: Board)
    requires a.Wf() && b.Wf() && SameMachine(a, b)
    ensures Comparable(Front(a), Front(b))
  {
    hide Readable, Wf;
  }

  lemma MiddleForm(a: Board, b: Board)
    requires a.Wf() && b.Wf() && SameMachine(a, b)
    ensures Comparable(Middle(a), Middle(b))
  {
    assert Readable([], []);
    hide Readable, Wf;
  }

  lemma BackForm(a: Board, b: Board)
    requires a.Wf() && b.Wf() && SameMachine(a, b)
    ensures Comparable(Back(a), Back(b))
  {
    hide Readable, Wf;
  }

  lemma FrontAlike(a: Board, b: Board)
    requires a.Wf() && b.Wf()
    ensures Alike(Front(a), Front(b)) <==>
            && a.gaps[0] == b.gaps[0] && a.gaps[1] == b.gaps[1]
            && forall i :: 0 <= i < 4 ==> SerialLive(a.channels[i]) == SerialLive(b.channels[i])
  {
    hide SerialLive;
    var p, q := Front(a), Front(b);
    assert Alike(p, q) ==> SameLive(p[0], q[0]) && SameLive(p[1], q[1]) && SameLive(p[2], q[2]) && SameLive(p[3], q[3])
                           && SameLive(p[4], q[4]) && SameLive(p[5], q[5]);
  }

  lemma MiddleAlike(a: Board, b: Board)
    requires a.Wf() && b.Wf() && SameMachine(a, b)
    ensures Alike(Middle(a), Middle(b)) <==>
            && a.gaps[2] == b.gaps[2] && a.gaps[3] == b.gaps[3] && a.gaps[4] == b.gaps[4]
            && a.gaps[5] == b.gaps[5] && DisplayLive(a.display) == DisplayLive(b.display)
            && TapeLive(a.tape) == TapeLive(b.tape) && (a.scsi ==> AscLive(a.queue) == AscLive(b.queue))
  {
    hide TapeLive, AscLive, DisplayLive, Readable;
    var p, q := Middle(a), Middle(b);
    assert Alike(p, q) ==> SameLive(p[0], q[0]) && SameLive(p[1], q[1]) && SameLive(p[2], q[2]) && SameLive(p[3], q[3])
                           && SameLive(p[4], q[4]) && SameLive(p[5], q[5]) && SameLive(p[6], q[6]);
  }

  lemma BackAlike(a: Board, b: Board)
    requires a.Wf() && b.Wf()
    ensures Alike(Back(a), Back(b)) <==>
            && a.gaps[6] == b.gaps[6] && a.gaps[7] == b.gaps[7]
            && KeyboardLive(a.keyboard) == KeyboardLive(b.keyboard)
            && CardLive(a.card) == CardLive(b.card) && AdapterLive(a.adapter) == AdapterLive(b.adapter)
            && StationLive(a.station) == StationLive(b.station)
  {
    hide KeyboardLive, CardLive, AdapterLive, StationLive;
    var p, q := Back(a), Back(b);
    assert Alike(p, q) ==> SameLive(p[0], q[0]) && SameLive(p[1], q[1]) && SameLive(p[2], q[2]) && SameLive(p[3], q[3])
                           && SameLive(p[4], q[4]);
  }

  // ----- the feeders that join others ---------------------------------------------------

  method FeedEthernet(st: Hash, c: Card, x: Adapter)
    requires st.Valid() && c.Wf() && x.Wf()
    modifies st
    ensures st.Valid() && st.fed == old(st.fed) + Stream(ItemsOf(EthernetPart(c, x)))
  {
    hide Stream, Digest, CardItems, AdapterItems, CardLive, AdapterLive;
    FeedCard(st, c);
    FeedAdapter(st, x);
    StreamConcat(CardItems(CardLive(c)), AdapterItems(AdapterLive(x)));
  }

  /** A serial part: its two channels, then its own registers. */
  datatype Port = Port(a: Serial, b: Serial, registers: seq<Scalar>)

  function PortParts(p: Port): (s: seq<Section>)
    ensures p.a.Wf() && p.b.Wf() ==> forall i :: 0 <= i < |s| ==> Wf(s[i])
  {
    [SerialPart(p.a), SerialPart(p.b), Other([Scalars(p.registers)])]
  }

  method FeedPort(st: Hash, p: Port)
    requires st.Valid() && p.a.Wf() && p.b.Wf()
    modifies st
    ensures st.Valid() && st.fed == old(st.fed) + Feed(PortParts(p))
  {
    hide Feed, Line, Digest, Stream, SerialItems, SerialLive;
    PortStream(PortParts(p), p.registers);
    FeedSerial(st, p.a);
    FeedSerial(st, p.b);
    st.Fields(p.registers);
  }

  lemma PortStream(s: seq<Section>, registers: seq<Scalar>)
    requires |s| == 3 && Wf(s[0]) && Wf(s[1]) && s[2] == Other([Scalars(registers)])
    ensures Feed(s) == Stream(ItemsOf(s[0])) + Stream(ItemsOf(s[1])) + Line(registers)
  {
    OneLine(registers);
    assert s[1..][0] == s[1] && s[1..][1..] == s[2..] && s[2..][0] == s[2] && s[2..][1..] == [];
    hide Line, Stream, Wf;
    assert Feed(s[2..]) == Stream([Scalars(registers)]) + Feed([]);
    hide ItemsOf;
  }

  lemma OneLine(registers: seq<Scalar>)
    ensures Stream([Scalars(registers)]) == Line(registers)
  {
    hide Line;
    assert Stream([Scalars(registers)]) == Line(registers) + Stream([]);
  }
}
