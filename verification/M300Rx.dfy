/** The M300 receiver: burst and packet reads of one word stream, one channel buffer or two. */
module M300Rx {
  import opened Arithmetic
  import opened M300Demux
  import opened M300Protocol
  import opened M300Sequence
  import opened Options

  type frame = seq<byte>

  function HeaderOf(f: frame): Header
    requires |f| >= HEADER_BYTES
  {
    ParseRaw(Load(f[..8]))
  }

  function StampOf(f: frame): u64
    requires |f| >= HEADER_BYTES
  {
    Ranges();
    Load(f[8..16])
  }

  /** What load_next_packet lets through. */
  predicate Accepted(f: frame, packetBytes: nat) {
    && |f| >= HEADER_BYTES
    && HeaderOf(f).magic == MAGIC_RX
    && HEADER_BYTES <= HeaderOf(f).length <= packetBytes
  }

  /** The payload words: the header's length, or what was read if that is less. */
  function Payload(f: frame, packetBytes: nat): seq<word>
    requires Accepted(f, packetBytes)
  {
    WordsOf(f[HEADER_BYTES..if HeaderOf(f).length < |f| then HeaderOf(f).length else |f|])
  }

  /** There is no payload word exactly when the header claims none, or the frame carries none. */
  lemma PayloadIsEmpty(f: frame, packetBytes: nat)
    requires Accepted(f, packetBytes)
    ensures Payload(f, packetBytes) == [] <==> HeaderOf(f).length < HEADER_BYTES + 4 || |f| < HEADER_BYTES + 4
  {
  }

  /** The bytes of a frame's header, as numbers. */
  lemma HeaderFields(f: frame)
    requires |f| >= HEADER_BYTES
    ensures HeaderOf(f) == Header(Two(f[6], f[7]), Two(f[4], f[5]), f[3], Three(f[0], f[1], f[2]))
  {
    ParsedBytes(f[..8]);
  }

  lemma SliceOfSlice(s: seq<byte>, a: nat, b: nat, c: nat, d: nat)
    requires a <= b <= |s| && c <= d <= b - a
    ensures s[a..b][c..d] == s[a + c..a + d]
  {
    assert forall i {:trigger s[a..b][c..d][i]} :: 0 <= i < d - c ==> s[a..b][c..d][i] == s[a..b][c + i] == s[a + c + i];
  }

  lemma StampFields(f: frame)
    requires |f| >= HEADER_BYTES
    ensures Spells(f[8..12], StampOf(f) % 0x1_0000_0000) && Spells(f[12..16], StampOf(f) / 0x1_0000_0000)
  {
    var stamp := StampOf(f);
    StoreLoad(f[8..16]);
    EightBytes(stamp);
    FourBytes(stamp % 0x1_0000_0000);
    FourBytes(stamp / 0x1_0000_0000);
    SliceOfSlice(f, 8, 16, 0, 4);
    SliceOfSlice(f, 8, 16, 4, 8);
    assert f[8..16] == Le(stamp % 0x1_0000_0000, 4) + Le(stamp / 0x1_0000_0000, 4);
  }

  lemma {:induction false} WordsSpelled(s: seq<byte>, j: nat)
    requires 4 * j + 4 <= |s|
    ensures j < |WordsOf(s)| && Spells(s[4 * j..4 * j + 4], WordsOf(s)[j])
  {
    if j == 0 {
      StoreLoad(s[..4]);
      FourBytes(WordsOf(s)[0]);
      assert s[0..4] == s[..4];
    } else {
      WordsSpelled(s[4..], j - 1);
      SliceOfSlice(s, 4, |s|, 4 * (j - 1), 4 * (j - 1) + 4);
      assert s[4..|s|] == s[4..];
    }
  }

  /** What a frame from the ring amounts to: a receive packet, or nothing. */
  datatype Decoded = Skipped | Received(seqNo: u16, stamp: u64, words: seq<word>)

  function Decode(f: frame, packetBytes: nat): (d: Decoded)
    ensures d.Received? <==> Accepted(f, packetBytes)
  {
    if Accepted(f, packetBytes) then Received(HeaderOf(f).seqNo, StampOf(f), Payload(f, packetBytes)) else Skipped
  }

  /**
   * Spelled out on the bytes: a frame is a receive packet exactly when it has a header of type 0x5503 and a length from the
   * header's own to the configured one; it then has the header's number and time, and the words up to that length or to its end.
   */
  lemma DecodedBytes(f: frame, packetBytes: nat)
    ensures var d := Decode(f, packetBytes);
            if |f| < 16 then d == Skipped
            else
              var length, number, kind := Three(f[0], f[1], f[2]), Two(f[4], f[5]), Two(f[6], f[7]);
              && (d.Received? <==> kind == 0x5503 && 16 <= length <= packetBytes)
              && (d.Received? ==>
                    && d.seqNo == number && Spells(f[8..12], d.stamp % 0x1_0000_0000) && Spells(f[12..16], d.stamp / 0x1_0000_0000)
                    && |d.words| == ((if length < |f| then length else |f|) - 16) / 4
                    && forall j {:trigger d.words[j]} :: 0 <= j < |d.words| ==> Spells(f[16 + 4 * j..20 + 4 * j], d.words[j]))
  {
    if |f| >= 16 {
      hide ParseRaw, Spells;
      HeaderFields(f);
      StampFields(f);
      if Accepted(f, packetBytes) {
        PayloadSpelled(f, packetBytes);
      }
    }
  }

  lemma PayloadSpelled(f: frame, packetBytes: nat)
    requires Accepted(f, packetBytes)
    ensures var ws := Payload(f, packetBytes); forall j {:trigger ws[j]} :: 0 <= j < |ws| ==> Spells(f[16 + 4 * j..20 + 4 * j], ws[j])
  {
    var end := if HeaderOf(f).length < |f| then HeaderOf(f).length else |f|;
    var s := f[16..end];
    forall j: nat | j < |WordsOf(s)| ensures Spells(f[16 + 4 * j..20 + 4 * j], WordsOf(s)[j]) {
      WordsSpelled(s, j);
      SliceOfSlice(f, 16, end, 4 * j, 4 * j + 4);
    }
  }

  /** j / channels, for one or two channels. */
  function SampleOf(j: nat, channels: nat): nat {
    if channels == 2 then j / 2 else j
  }

  /** The channel count, and what everything the ring will ever hand out amounts to. */
  datatype Link = Link(channels: nat, frames: seq<Decoded>)

  /** link.frames is the decoded form of the ring's frames. */
  ghost predicate Decodes(link: Link, ring: seq<frame>, packetBytes: nat) {
    |link.frames| == |ring| && forall k {:trigger Decode(ring[k], packetBytes)} :: 0 <= k < |ring| ==> link.frames[k] == Decode(ring[k], packetBytes)
  }

  /** The packet size and the ring's frames, as bytes and decoded; none of this changes. */
  datatype Device = Device(packetBytes: nat, ring: seq<frame>, link: Link)

  type Setup = d: Device |
      && d.packetBytes > HEADER_BYTES && d.packetBytes % 16 == 0 && 1 <= d.link.channels <= 2
      && Decodes(d.link, d.ring, d.packetBytes)
    witness Device(32, [], Link(1, []))

  /** A payload word with its place: word number `index` of frame number `frame`. */
  datatype Item = Item(w: word, frame: nat, index: nat)

  /** The words of frame k of the ring. */
  function ItemsOf(link: Link, k: nat): (items: seq<Item>)
    requires k < |link.frames|
    ensures |items| == if link.frames[k].Received? then |link.frames[k].words| else 0
  {
    if link.frames[k].Received?
    then var ws := link.frames[k].words; seq(|ws|, j requires 0 <= j < |ws| => Item(ws[j], k, j))
    else []
  }

  /** The payload words of the first k frames, in order. */
  function Stream(link: Link, k: nat): seq<Item>
    requires k <= |link.frames|
  {
    if k == 0 then [] else Stream(link, k - 1) + ItemsOf(link, k - 1)
  }

  function Words(items: seq<Item>): (ws: seq<word>)
    ensures |ws| == |items|
  {
    seq(|items|, j requires 0 <= j < |items| => items[j].w)
  }

  lemma WordsAppend(a: seq<Item>, b: seq<Item>)
    ensures Words(a + b) == Words(a) + Words(b)
  {
  }

  /** The time of a word: its packet's timestamp plus its place among the packet's samples. */
  function TimeOf(link: Link, item: Item): u64 {
    if item.frame < |link.frames| && link.frames[item.frame].Received?
    then (link.frames[item.frame].stamp + SampleOf(item.index, link.channels)) % 0x1_0000_0000_0000_0000 else 0
  }

  /** Word number `index` of the payload of frame number `frame`. */
  ghost predicate FromRing(link: Link, item: Item) {
    && item.frame < |link.frames| && link.frames[item.frame].Received?
    && item.index < |link.frames[item.frame].words| && item.w == link.frames[item.frame].words[item.index]
  }

  /** time is that of this word: its packet's time, and one more tick for every sample time in front of it, modulo 2^64. */
  ghost predicate Stamped(link: Link, item: Item, time: nat) {
    && FromRing(link, item) && link.channels > 0
    && time == (link.frames[item.frame].stamp + item.index / link.channels) % 0x1_0000_0000_0000_0000
  }

  lemma TimeIs(link: Link, item: Item)
    requires FromRing(link, item) && 1 <= link.channels <= 2
    ensures Stamped(link, item, TimeOf(link, item))
  {
    assert link.channels == 1 ==> item.index / 1 == item.index;
  }

  lemma {:induction false} StreamFromRing(link: Link, k: nat)
    requires k <= |link.frames|
    ensures forall x :: x in Stream(link, k) ==> FromRing(link, x)
  {
    if k > 0 {
      StreamFromRing(link, k - 1);
    }
  }

  /** The _pending_ members: a packet partly copied out. */
  datatype Pending = Nothing | Loaded(words: seq<word>, offset: nat, stamp: u64)

  /** The pending packet is the last one read. */
  ghost predicate IsLast(link: Link, k: nat, p: Pending) {
    p.Loaded? ==>
      && 0 < k <= |link.frames| && (p.offset < |p.words| || p.offset == |p.words| == 0)
      && link.frames[k - 1].Received? && p.words == link.frames[k - 1].words && p.stamp == link.frames[k - 1].stamp
  }

  /** The words of the pending packet that are still to be taken. */
  ghost function Rest(link: Link, k: nat, p: Pending): seq<Item> {
    if p.Loaded? && IsLast(link, k, p) then ItemsOf(link, k - 1)[p.offset..] else []
  }

  // ---- What is given of what is taken ----

  /** n times the same mark. */
  function Marks(n: nat, mark: bool): (ms: seq<bool>)
    ensures |ms| == n
  {
    seq(n, j => mark)
  }

  /** The items with a mark. */
  function Kept(items: seq<Item>, given: seq<bool>): seq<Item>
    requires |items| == |given|
  {
    if items == [] then []
    else Kept(items[..|items| - 1], given[..|items| - 1]) + (if given[|items| - 1] then [items[|items| - 1]] else [])
  }

  lemma {:induction false} KeptMore(items: seq<Item>, given: seq<bool>, more: seq<Item>, mark: bool)
    requires |items| == |given|
    ensures Kept(items + more, given + Marks(|more|, mark)) == Kept(items, given) + (if mark then more else [])
  {
    if more == [] {
      assert items + more == items && given + Marks(0, mark) == given;
    } else {
      var n := |more| - 1;
      KeptMore(items, given, more[..n], mark);
      assert (items + more)[..|items| + n] == items + more[..n];
      assert (given + Marks(n + 1, mark))[..|items| + n] == given + Marks(n, mark);
    }
  }

  // ---- Which packets were noted ----

  /** A call of note_packet_sequence: the frames first .. first + count - 1. */
  datatype Call = Call(first: nat, count: nat)

  ghost predicate AllReceived(link: Link, a: nat, b: nat) {
    b <= |link.frames| && forall i {:trigger link.frames[i]} :: a <= i < b ==> link.frames[i].Received?
  }

  ghost predicate NoneReceived(link: Link, a: nat, b: nat) {
    b <= |link.frames| && forall i {:trigger link.frames[i]} :: a <= i < b ==> !link.frames[i].Received?
  }

  /** The calls cover every received frame in front of `noted` once, in order. */
  ghost predicate Tiled(link: Link, calls: seq<Call>, noted: nat) {
    if calls == [] then NoneReceived(link, 0, noted)
    else
      var c := calls[|calls| - 1];
      && c.count > 0 && c.first + c.count <= noted && AllReceived(link, c.first, c.first + c.count)
      && NoneReceived(link, c.first + c.count, noted) && Tiled(link, calls[..|calls| - 1], c.first)
  }

  lemma TiledCall(link: Link, calls: seq<Call>, noted: nat, k: nat)
    requires Tiled(link, calls, noted) && noted < k && AllReceived(link, noted, k)
    ensures Tiled(link, calls + [Call(noted, k - noted)], k)
  {
    assert (calls + [Call(noted, k - noted)])[..|calls|] == calls;
  }

  lemma TiledSkip(link: Link, calls: seq<Call>, noted: nat)
    requires Tiled(link, calls, noted) && noted < |link.frames| && !link.frames[noted].Received?
    ensures Tiled(link, calls, noted + 1)
  {
  }

  /** The counters after these calls. */
  function Folded(link: Link, calls: seq<Call>): Continuity {
    if calls == [] then FRESH
    else
      var c := calls[|calls| - 1];
      Note(Folded(link, calls[..|calls| - 1]),
           if c.first < |link.frames| && link.frames[c.first].Received? then link.frames[c.first].seqNo else 0, c.count)
  }

  lemma FoldedCall(link: Link, calls: seq<Call>, c: Call)
    requires c.first < |link.frames| && link.frames[c.first].Received?
    ensures Folded(link, calls + [c]) == Note(Folded(link, calls), link.frames[c.first].seqNo, c.count)
  {
    assert (calls + [c])[..|calls|] == calls;
  }

  // ---- Where a receiver is ----

  /**
   * k frames of the link read, the last of them perhaps pending; the words taken from the ring and which of them were given
   * to callers (a dropped word is not); the frames noted, and how.
   */
  datatype Place = Place(link: Link, k: nat, pending: Pending, taken: seq<Item>, given: seq<bool>, delivered: seq<Item>,
                         noted: nat, calls: seq<Call>)

  /** The words read from the ring are those taken and those still pending, and the callers have those that are marked. */
  ghost predicate Accounted(s: Place) {
    && s.noted <= s.k <= |s.link.frames| && IsLast(s.link, s.k, s.pending)
    && Stream(s.link, s.k) == s.taken + Rest(s.link, s.k, s.pending)
    && |s.taken| == |s.given| && s.delivered == Kept(s.taken, s.given)
    && Tiled(s.link, s.calls, s.noted) && AllReceived(s.link, s.noted, s.k)
  }

  ghost const NOWHERE: Place := Place(Link(1, []), 0, Nothing, [], [], [], 0, [])

  type Sound = s: Place | Accounted(s) ghost witness NOWHERE

  function Start(link: Link): (s: Sound) {
    Place(link, 0, Nothing, [], [], [], 0, [])
  }

  /** The pending packet after n more words, gone when they were the last. */
  function Advanced(p: Pending, n: nat): Pending
    requires p.Loaded? && p.offset + n <= |p.words|
  {
    if p.offset + n >= |p.words| then Nothing else p.(offset := p.offset + n)
  }

  /** The next n pending words. */
  ghost function Next(link: Link, k: nat, p: Pending, n: nat): (items: seq<Item>)
    requires IsLast(link, k, p) && p.Loaded? && p.offset + n <= |p.words|
    ensures |items| == n && Words(items) == p.words[p.offset..p.offset + n]
    ensures forall j {:trigger items[j]} :: 0 <= j < n ==> items[j].index == p.offset + j
    ensures n > 0 ==> TimeOf(link, items[0]) == (p.stamp + SampleOf(p.offset, link.channels)) % 0x1_0000_0000_0000_0000
  {
    ItemsOf(link, k - 1)[p.offset..p.offset + n]
  }

  lemma RestAdvanced(link: Link, k: nat, p: Pending, n: nat)
    requires IsLast(link, k, p) && p.Loaded? && p.offset + n <= |p.words|
    ensures Rest(link, k, p) == Next(link, k, p, n) + Rest(link, k, Advanced(p, n))
  {
    var all := ItemsOf(link, k - 1);
    assert all[p.offset..] == Next(link, k, p, n) + all[p.offset + n..];
  }

  lemma Joined(a: seq<Item>, b: seq<Item>, c: seq<Item>)
    ensures a + b + c == a + (b + c)
  {
  }

  /** n pending words go to the caller. */
  ghost function Copied(s: Sound, n: nat): (t: Sound)
    requires s.pending.Loaded? && s.pending.offset + n <= |s.pending.words|
  {
    hide Stream, Kept, Tiled, Rest;
    var items := Next(s.link, s.k, s.pending, n);
    RestAdvanced(s.link, s.k, s.pending, n);
    Joined(s.taken, items, Rest(s.link, s.k, Advanced(s.pending, n)));
    KeptMore(s.taken, s.given, items, true);
    s.(pending := Advanced(s.pending, n), taken := s.taken + items, given := s.given + Marks(n, true), delivered := s.delivered + items)
  }

  /** What is left of a pending packet is dropped. */
  ghost function Dropped(s: Sound): (t: Sound)
    requires s.pending.Loaded?
  {
    hide Stream, Kept, Tiled;
    var rest := Rest(s.link, s.k, s.pending);
    KeptMore(s.taken, s.given, rest, false);
    s.(pending := Nothing, taken := s.taken + rest, given := s.given + Marks(|rest|, false))
  }

  /** The next frame is read: skipped, or pending now. */
  ghost function ReadOne(s: Sound): (t: Sound)
    requires s.k < |s.link.frames| && s.pending.Nothing? && s.noted == s.k
  {
    hide Kept, Tiled;
    var f := s.link.frames[s.k];
    assert s.taken + [] == s.taken;
    assert ItemsOf(s.link, s.k)[0..] == ItemsOf(s.link, s.k);
    if f.Received? then s.(k := s.k + 1, pending := Loaded(f.words, 0, f.stamp))
    else
      TiledSkip(s.link, s.calls, s.noted);
      s.(k := s.k + 1, noted := s.noted + 1)
  }

  /** A packet of a burst is read and handed to the caller at once. */
  ghost function BurstOne(s: Sound): (t: Sound)
    requires s.k < |s.link.frames| && s.pending.Nothing? && s.link.frames[s.k].Received?
  {
    hide Kept, Tiled;
    var items := ItemsOf(s.link, s.k);
    KeptMore(s.taken, s.given, items, true);
    assert s.taken + [] == s.taken && s.taken + items + [] == s.taken + items;
    s.(k := s.k + 1, taken := s.taken + items, given := s.given + Marks(|items|, true), delivered := s.delivered + items)
  }

  /** The packets read and not yet noted are noted, in one call. */
  ghost function Noted(s: Sound): (t: Sound) {
    hide Kept, Stream;
    if s.noted == s.k then s
    else
      TiledCall(s.link, s.calls, s.noted, s.k);
      s.(noted := s.k, calls := s.calls + [Call(s.noted, s.k - s.noted)])
  }

  lemma {:induction false} StreamGrows(link: Link, k: nat, k': nat)
    requires k <= k' <= |link.frames|
    ensures Stream(link, k) <= Stream(link, k')
    decreases k'
  {
    if k < k' {
      StreamGrows(link, k, k' - 1);
    }
  }

  predicate AllMarked(given: seq<bool>) {
    forall j :: 0 <= j < |given| ==> given[j]
  }

  lemma AllMarkedMore(given: seq<bool>, mark: bool)
    ensures AllMarked(given + [mark]) <==> AllMarked(given) && mark
  {
    assert forall j :: 0 <= j < |given| ==> (given + [mark])[j] == given[j];
    assert (given + [mark])[|given|] == mark;
  }

  lemma {:induction false} KeptAll(items: seq<Item>, given: seq<bool>)
    requires |items| == |given|
    ensures |Kept(items, given)| <= |items|
    ensures |Kept(items, given)| == |items| <==> AllMarked(given)
    ensures AllMarked(given) ==> Kept(items, given) == items
  {
    if items != [] {
      var n := |items| - 1;
      KeptAll(items[..n], given[..n]);
      AllMarkedMore(given[..n], given[n]);
      hide AllMarked;
      assert given == given[..n] + [given[n]] && items == items[..n] + [items[n]];
    }
  }

  /** If all are kept but one, it is this one that is missing. */
  lemma {:induction false} KeptButOne(items: seq<Item>, given: seq<bool>) returns (d: nat)
    requires |items| == |given| && |Kept(items, given)| + 1 == |items|
    ensures d < |items| && Kept(items, given) == items[..d] + items[d + 1..]
  {
    var n := |items| - 1;
    KeptAll(items[..n], given[..n]);
    if given[n] {
      d := KeptButOne(items[..n], given[..n]);
      assert items[..n][..d] == items[..d] && items[..n][d + 1..] + [items[n]] == items[d + 1..];
    } else {
      d := n;
      assert items[d + 1..] == [];
    }
  }

  /**
   * Whatever mix of reads led here, what was taken is a prefix of the ring's payload stream, the rest of it up to the last
   * frame read is pending, and the callers have what was taken, in order, without what was dropped.
   */
  lemma TakenIsPrefix(s: Sound)
    ensures s.taken <= Stream(s.link, |s.link.frames|)
    ensures s.taken + Rest(s.link, s.k, s.pending) == Stream(s.link, s.k)
    ensures s.delivered == Kept(s.taken, s.given)
  {
    StreamGrows(s.link, s.k, |s.link.frames|);
  }

  /** The callers have a prefix of the stream, nothing lost, repeated or reordered, if and only if no word was ever dropped. */
  lemma DeliveredIsPrefix(s: Sound)
    ensures |s.delivered| == |s.taken| <==> AllMarked(s.given)
    ensures |s.delivered| == |s.taken| ==> s.delivered == s.taken <= Stream(s.link, |s.link.frames|)
  {
    TakenIsPrefix(s);
    KeptAll(s.taken, s.given);
  }

  lemma {:induction false} KeptIn(items: seq<Item>, given: seq<bool>)
    requires |items| == |given|
    ensures forall x :: x in Kept(items, given) ==> x in items
  {
    if items != [] {
      KeptIn(items[..|items| - 1], given[..|items| - 1]);
    }
  }

  /** Whatever a caller is given is a word of a received packet. */
  lemma DeliveredFromRing(s: Sound)
    ensures forall x :: x in s.delivered ==> FromRing(s.link, x)
  {
    hide Stream, Kept, Tiled, Rest, FromRing;
    TakenIsPrefix(s);
    KeptIn(s.taken, s.given);
    StreamFromRing(s.link, |s.link.frames|);
  }

  /** These are words from the ring, and this is the time of the first. */
  ghost predicate Given(link: Link, out: seq<Item>, time: nat) {
    (forall j: nat :: j < |out| ==> FromRing(link, out[j])) && (out != [] ==> Stamped(link, out[0], time))
  }

  lemma OutFromRing(s: Sound, from: Place, out: seq<Item>, time: nat)
    requires s.delivered == from.delivered + out && 1 <= s.link.channels <= 2
    requires out != [] ==> time == TimeOf(s.link, out[0])
    ensures Given(s.link, out, time)
  {
    hide Accounted, TimeOf, Stamped, FromRing;
    DeliveredFromRing(s);
    forall j: nat | j < |out| ensures FromRing(s.link, out[j]) {
      assert out[j] == s.delivered[|from.delivered| + j];
    }
    if out != [] {
      TimeIs(s.link, out[0]);
    }
  }

  /** Sample j of the buffer is word j. */
  ghost predicate Holds(buffer: seq<Value>, out: seq<Item>, format: Format) {
    2 * |out| <= |buffer| && forall j: nat :: j < |out| ==> IsSample(buffer, j, out[j].w, format)
  }

  /** Sample j of the buffers are words 2 j and 2 j + 1. */
  ghost predicate HoldBoth(buffer0: seq<Value>, buffer1: seq<Value>, out: seq<Item>, format: Format) {
    && |out| <= |buffer0| && |out| <= |buffer1|
    && forall j: nat :: 2 * j + 1 < |out| ==> IsSample(buffer0, j, out[2 * j].w, format) && IsSample(buffer1, j, out[2 * j + 1].w, format)
  }

  /** Packets with a full payload, from frame k on: what the kernel's burst read hands out. */
  function FullRun(link: Link, k: nat, payloadWords: nat): (n: nat)
    requires k <= |link.frames|
    ensures k + n <= |link.frames|
    decreases |link.frames| - k
  {
    if k < |link.frames| && link.frames[k].Received? && |link.frames[k].words| == payloadWords
    then 1 + FullRun(link, k + 1, payloadWords) else 0
  }

  predicate Full(link: Link, k: nat, payloadWords: nat) {
    k < |link.frames| && link.frames[k].Received? && |link.frames[k].words| == payloadWords
  }

  ghost predicate AllFull(link: Link, a: nat, b: nat, payloadWords: nat) {
    forall i: nat {:trigger Full(link, i, payloadWords)} :: a <= i < b ==> Full(link, i, payloadWords)
  }

  lemma {:induction false} FullRunIs(link: Link, k: nat, payloadWords: nat)
    requires k <= |link.frames|
    ensures var n := FullRun(link, k, payloadWords);
            AllFull(link, k, k + n, payloadWords) && !Full(link, k + n, payloadWords)
    decreases |link.frames| - k
  {
    if FullRun(link, k, payloadWords) > 0 {
      FullRunIs(link, k + 1, payloadWords);
    }
  }

  function Min(a: nat, b: nat): nat {
    if a < b then a else b
  }

  // ---- Stalling ----

  /** A packet without payload is pending: the one-buffer receive will not get past it. */
  predicate Stalled(p: Pending) {
    p.Loaded? && p.words == []
  }

  ghost predicate NoneEmpty(link: Link) {
    forall k {:trigger link.frames[k]} :: 0 <= k < |link.frames| && link.frames[k].Received? ==> link.frames[k].words != []
  }

  /** The receive packets among the frames a .. b - 1 have a payload. */
  ghost predicate Loud(link: Link, a: nat, b: int) {
    b <= |link.frames| && forall k {:trigger link.frames[k]} :: a <= k < b && link.frames[k].Received? ==> link.frames[k].words != []
  }

  /** The frames read: up to the one that stalls the receiver, if one does. */
  function Past(k: nat, p: Pending): int {
    if Stalled(p) then k - 1 else k
  }

  lemma LoudMore(link: Link, a: nat, b: nat, c: int)
    requires Loud(link, a, b) && Loud(link, b, c)
    ensures Loud(link, a, c)
  {
  }

  /** The first receive packet without payload from frame k on, if there is one. */
  function FirstSilent(link: Link, k: nat): (f: nat)
    requires k <= |link.frames|
    ensures k <= f <= |link.frames| && Loud(link, k, f)
    ensures f < |link.frames| ==> link.frames[f].Received? && link.frames[f].words == []
    decreases |link.frames| - k
  {
    if k == |link.frames| || (link.frames[k].Received? && link.frames[k].words == []) then k else FirstSilent(link, k + 1)
  }

  /** The words of the frames read, up to one that stalls the receiver, are those taken and those pending. */
  lemma PastIsTaken(s: Sound)
    ensures 0 <= Past(s.k, s.pending) && |Stream(s.link, Past(s.k, s.pending))| >= |s.taken|
    ensures s.pending.Nothing? || Stalled(s.pending) ==> |Stream(s.link, Past(s.k, s.pending))| == |s.taken|
  {
    hide Kept, Tiled;
    assert |Stream(s.link, s.k)| == |s.taken| + |Rest(s.link, s.k, s.pending)|;
  }

  /** The polls a .. b - 1 find something while there are frames. */
  ghost predicate Plenty(schedule: seq<nat>, a: nat, b: int) {
    b <= |schedule| && forall i {:trigger schedule[i]} :: a <= i < b ==> schedule[i] > 0
  }

  /** What a receive call does to the place: load_next_packet, a copy out of the pending packet, a burst of full packets. */
  datatype Move = LoadPacket | Take(n: nat) | TakeBurst(count: nat)

  ghost function Moved(s: Sound, m: Move, payloadWords: nat): (t: Sound)
    ensures t.link == s.link
  {
    hide Stream, Kept, Tiled, Rest;
    match m
    case LoadPacket =>
      if s.k < |s.link.frames| && s.pending.Nothing? && s.noted == s.k then Noted(ReadOne(s)) else s
    case Take(n) =>
      if s.pending.Loaded? && 0 < n <= |s.pending.words| - s.pending.offset then Copied(s, n) else s
    case TakeBurst(count) =>
      if s.pending.Nothing? && payloadWords > 0 && count <= FullRun(s.link, s.k, payloadWords) then
        FullRunReceived(s.link, s.k, payloadWords);
        Noted(Bursts(s, count))
      else s
  }

  ghost function Bursts(s: Sound, count: nat): (t: Sound)
    requires s.pending.Nothing? && s.k + count <= |s.link.frames| && AllReceived(s.link, s.k, s.k + count)
    ensures t.link == s.link && t.pending.Nothing? && t.k == s.k + count
  {
    hide Stream, Kept, Tiled, Rest;
    if count == 0 then s else BurstOne(Bursts(s, count - 1))
  }

  lemma {:induction false} FullRunReceived(link: Link, k: nat, payloadWords: nat)
    requires k <= |link.frames|
    ensures AllReceived(link, k, k + FullRun(link, k, payloadWords))
    decreases |link.frames| - k
  {
    if FullRun(link, k, payloadWords) > 0 {
      FullRunReceived(link, k + 1, payloadWords);
    }
  }

  /** Where these moves lead from the start of the ring. */
  ghost function PlaceAfter(link: Link, moves: seq<Move>, payloadWords: nat): (s: Sound)
    ensures s.link == link
  {
    if moves == [] then Start(link) else Moved(PlaceAfter(link, moves[..|moves| - 1], payloadWords), moves[|moves| - 1], payloadWords)
  }

  /** Packet reads of the first k frames, each used up. */
  function Reads(link: Link, k: nat): seq<Move>
    requires k <= |link.frames|
  {
    if k == 0 then []
    else Reads(link, k - 1) + [LoadPacket] + (if link.frames[k - 1].Received? then [Take(|link.frames[k - 1].words|)] else [])
  }

  lemma PlaceAfterMove(link: Link, moves: seq<Move>, m: Move, payloadWords: nat)
    ensures PlaceAfter(link, moves + [m], payloadWords) == Moved(PlaceAfter(link, moves, payloadWords), m, payloadWords)
  {
    assert (moves + [m])[..|moves|] == moves;
  }

  /** A packet read and used up. */
  lemma OneRead(s: Sound, payloadWords: nat)
    requires s.k < |s.link.frames| && Loud(s.link, s.k, s.k + 1) && s.noted == s.k && s.pending.Nothing?
    ensures var f, one := s.link.frames[s.k], Moved(s, LoadPacket, payloadWords);
            var t := if f.Received? then Moved(one, Take(|f.words|), payloadWords) else one;
            t.k == s.k + 1 == t.noted && t.pending.Nothing?
  {
    hide Stream, Kept, Tiled, Rest;
  }

  lemma {:induction false} ReadsLead(link: Link, k: nat, payloadWords: nat)
    requires k <= |link.frames| && Loud(link, 0, k)
    ensures var s := PlaceAfter(link, Reads(link, k), payloadWords); s.k == k == s.noted && s.pending.Nothing?
  {
    hide Stream, Kept, Tiled, Rest, Accounted, Moved;
    if k > 0 {
      ReadsLead(link, k - 1, payloadWords);
      OneRead(PlaceAfter(link, Reads(link, k - 1), payloadWords), payloadWords);
      var before := Reads(link, k - 1);
      PlaceAfterMove(link, before, LoadPacket, payloadWords);
      if link.frames[k - 1].Received? {
        PlaceAfterMove(link, before + [LoadPacket], Take(|link.frames[k - 1].words|), payloadWords);
      } else {
        assert Reads(link, k) == before + [LoadPacket];
      }
    }
  }

  /** No place that the receiver's own moves reach is stalled if and only if every receive packet has a payload word. */
  lemma StallsExactly(link: Link, payloadWords: nat)
    ensures NoneEmpty(link) <==> forall moves: seq<Move> :: !Stalled(PlaceAfter(link, moves, payloadWords).pending)
  {
    hide Stream, Kept, Tiled, PlaceAfter, Moved, Reads;
    var k := FirstSilent(link, 0);
    if k < |link.frames| {
      StallsThere(link, k, payloadWords);
    }
  }

  lemma StallsThere(link: Link, k: nat, payloadWords: nat)
    requires k < |link.frames| && Loud(link, 0, k) && link.frames[k].Received? && link.frames[k].words == []
    ensures Stalled(PlaceAfter(link, Reads(link, k) + [LoadPacket], payloadWords).pending)
  {
    hide Stream, Kept, Tiled, PlaceAfter, Reads;
    ReadsLead(link, k, payloadWords);
    PlaceAfterMove(link, Reads(link, k), LoadPacket, payloadWords);
  }

  /** A stalled receiver stays where it is; another one does not stall on the packet it had, and uses it. */
  predicate Moving(total: nat, pending: Pending, next: nat, pending0: Pending, next0: nat) {
    && (Stalled(pending0) ==> total == 0 && pending == pending0 && next == next0)
    && (total > 0 || pending == pending0 || pending0.Nothing?)
    && (next == next0 && Stalled(pending) ==> Stalled(pending0))
  }

  lemma BufferSpelled(dest: array<Value>, format: Format, ws: seq<word>)
    requires 2 * |ws| <= dest.Length && dest[..2 * |ws|] == Values(format, ws)
    ensures forall j: nat :: j < |ws| ==> IsSample(dest[..], j, ws[j], format)
  {
    hide IsSample, Values;
    assert dest[..][..2 * (0 + |ws|)] == [] + Values(format, ws);
    forall j: nat | j < |ws| ensures IsSample(dest[..], j, ws[j], format) {
      StoredSamples(dest[..], 0, [], format, ws, j);
    }
  }

  /** Words stored behind those a buffer holds already. */
  method StoreMore(dest: array<Value>, total: nat, ws: seq<word>, format: Format, ghost out: seq<Item>, ghost items: seq<Item>)
    requires |out| == total && Words(items) == ws && 2 * (total + |ws|) <= dest.Length && dest[..2 * total] == Values(format, Words(out))
    modifies dest
    ensures dest[..2 * (total + |ws|)] == Values(format, Words(out + items))
  {
    CopySamples(dest, total, ws, format);
    WordsAppend(out, items);
    ValuesConcat(format, Words(out), ws);
  }

  class M300RxStreamer {
    const setup: Setup
    var pending: Pending
    var continuity: Continuity
    /** For each poll of the ring, how many frames are there when its wait ends; none after the last of these. */
    const schedule: seq<nat>
    /** How many of the ring's frames have been read, and how many polls were made. */
    var next: nat
    var polls: nat
    /** The frames read again, with the words taken and given to callers since the start, and their account. */
    ghost var place: Sound

    /** The fields agree with the account; the packets of a burst need not have been noted yet. */
    ghost predicate Agrees()
      reads this
    {
      place.link == setup.link && place.k == next && place.pending == pending && continuity == Folded(setup.link, place.calls)
    }

    ghost predicate Valid()
      reads this
    {
      Agrees() && place.noted == next
    }

    constructor (packetBytes: nat, channels: nat, ring: seq<frame>, schedule: seq<nat>)
      requires packetBytes > HEADER_BYTES && packetBytes % 16 == 0 && 1 <= channels <= 2
      ensures Valid() && place == Start(setup.link) && continuity == FRESH && polls == 0
      ensures setup.packetBytes == packetBytes && setup.ring == ring && setup.link.channels == channels && this.schedule == schedule
    {
      var frames := seq(|ring|, k requires 0 <= k < |ring| => Decode(ring[k], packetBytes));
      setup := Device(packetBytes, ring, Link(channels, frames));
      place := Start(Link(channels, frames));
      this.schedule := schedule;
      pending, continuity, next, polls := Nothing, FRESH, 0, 0;
    }

    function PayloadWords(): nat {
      (setup.packetBytes - HEADER_BYTES) / 4
    }

    method NotePacketSequence(first: u16, packets: nat)
      modifies `continuity
      ensures continuity == Note(old(continuity), first, packets)
    {
      if packets == 0 {
        return;
      }
      var c := continuity;
      if !c.have {
        c := c.(have := true);
      } else if first != c.expected {
        c := c.(jumps := c.jumps + 1, lost := c.lost + (first - c.expected) % 0x1_0000);
      }
      continuity := c.(packets := c.packets + packets, last := (first + packets - 1) % 0x1_0000, expected := (first + packets) % 0x1_0000);
    }

    /** The notice of the packets read since the last one. */
    method NoteRead(first: u16, packets: nat)
      requires Agrees() && place.noted + packets == next
      requires packets > 0 ==> setup.link.frames[place.noted].Received? && setup.link.frames[place.noted].seqNo == first
      modifies `continuity, `place
      ensures Valid() && place == Noted(old(place))
    {
      if packets > 0 {
        FoldedCall(setup.link, place.calls, Call(place.noted, packets));
      }
      NotePacketSequence(first, packets);
      place := Noted(place);
    }

    /** What poll number i finds. */
    function Ready(i: nat): nat
      requires next <= |setup.ring|
      reads this
    {
      if i < |schedule| then Min(schedule[i], |setup.ring| - next) else 0
    }

    /** One poll of the ring: how many packets are there. */
    method Poll() returns (ready: nat)
      requires next <= |setup.ring|
      modifies `polls
      ensures ready == old(Ready(polls)) && polls == old(polls) + 1
    {
      ready := 0;
      if polls < |schedule| {
        ready := Min(schedule[polls], |setup.ring| - next);
      }
      polls := polls + 1;
    }

    /** Why a receive call may come back with less than was asked for: its last poll found nothing, or a packet has no payload. */
    ghost predicate Dry(polls0: nat)
      reads this
    {
      (pending.Nothing? && polls0 < polls && next <= |setup.ring| && Ready(polls - 1) == 0) || Stalled(pending)
    }

    /** Polls are not made in vain: two for each frame read, and two more when nothing is left pending. */
    ghost predicate Prompt(polls0: nat, next0: nat)
      reads this
    {
      next0 <= next && polls0 <= polls <= polls0 + 2 * (next - next0) + (if pending.Nothing? then 2 else 0)
    }

    /** load_next_packet: frames that are no receive packets are skipped; false after a poll that found nothing or a packet without payload. */
    method LoadNextPacket() returns (ok: bool)
      requires Valid() && pending.Nothing?
      modifies `next, `pending, `continuity, `place, `polls
      ensures Valid() && old(next) <= next && old(polls) < polls == old(polls) + next - old(next) + (if pending.Nothing? then 1 else 0)
      ensures place.delivered == old(place).delivered && place.taken == old(place).taken
      ensures ok ==> pending.Loaded? && pending.offset == 0 < |pending.words|
      ensures !ok ==> Dry(old(polls))
      ensures pending.Loaded? ==> pending.offset == 0
      ensures Loud(setup.link, old(next), Past(next, pending))
    {
      hide Stream, Kept, Tiled, Folded, Decode, Rest;
      while true
        invariant Valid() && pending.Nothing? && old(next) <= next && polls - old(polls) == next - old(next)
        invariant place.delivered == old(place).delivered && place.taken == old(place).taken
        invariant Loud(setup.link, old(next), next)
        decreases |setup.ring| - next
      {
        var ready := Poll();
        if ready == 0 {
          return false;
        }
        var f := Decode(setup.ring[next], setup.packetBytes);
        assert f == setup.link.frames[next];
        place := ReadOne(place);
        next := next + 1;
        if f.Skipped? {
          continue;
        }
        pending := Loaded(f.words, 0, f.stamp);
        NoteRead(f.seqNo, 1);
        return pending.words != [];
      }
    }

    /** How many full packets are at the head of the ring. */
    method FullNow() returns (full: nat)
      requires Valid()
      ensures full == FullRun(setup.link, next, PayloadWords())
    {
      full := 0;
      while true
        invariant next + full <= |setup.ring|
        invariant FullRun(setup.link, next, PayloadWords()) == full + FullRun(setup.link, next + full, PayloadWords())
        decreases |setup.ring| - full
      {
        if next + full == |setup.ring| {
          return;
        }
        var f := Decode(setup.ring[next + full], setup.packetBytes);
        if f.Skipped? || |f.words| != PayloadWords() {
          return;
        }
        full := full + 1;
      }
    }

    /** What the ring's burst read hands out: as many full packets as are there, fit, and one read may bring. */
    ghost function Burst(ready: nat, limit: nat): nat
      reads this
      requires next <= |setup.link.frames|
    {
      Min(Min(Min(ready, FullRun(setup.link, next, PayloadWords())), limit), 64)
    }

    /** recv_payload_burst: the payloads of up to `limit` full packets, in one go. */
    method RecvPayloadBurst(limit: nat)
      returns (packets: nat, words: seq<word>, firstStamp: u64, firstSequence: u16, ghost items: seq<Item>)
      requires Valid() && pending.Nothing?
      modifies `next, `place, `polls
      ensures Agrees() && next == old(next) + packets && place.noted == old(next)
      ensures packets == old(Burst(Ready(polls), limit))
      ensures Fetched(old(place), items, words, packets)
      ensures packets > 0 ==> firstStamp == TimeOf(setup.link, items[0])
      ensures packets > 0 ==> setup.link.frames[old(next)].Received? && firstSequence == setup.link.frames[old(next)].seqNo
      ensures polls == old(polls) + 1 && (PayloadWords() > 0 ==> Loud(setup.link, old(next), next))
      ensures packets <= old(Ready(polls)) && packets <= limit && packets <= 64
      ensures AllFull(setup.link, old(next), next, (setup.packetBytes - 16) / 4)
      ensures packets < old(Ready(polls)) && packets < limit && packets < 64 ==> !Full(setup.link, next, (setup.packetBytes - 16) / 4)
    {
      hide Stream, Kept, Tiled, Folded, Decode, Rest;
      FullRunIs(setup.link, next, PayloadWords());
      var ready := Poll();
      var full := FullNow();
      packets := Min(Min(Min(ready, full), limit), 64);
      words, firstStamp, firstSequence, items := ReadFull(packets);
    }

    /** These packets' words have been taken and given since. */
    ghost predicate Fetched(from: Place, items: seq<Item>, words: seq<word>, packets: nat)
      reads this
    {
      && place.delivered == from.delivered + items && place.taken == from.taken + items && words == Words(items)
      && |items| == Times(packets, PayloadWords()) && (packets > 0 <==> items != [])
      && (PayloadWords() % 2 == 0 ==> Straight(items, 0))
    }

    /** The packets of a burst. */
    method ReadFull(count: nat) returns (words: seq<word>, firstStamp: u64, firstSequence: u16, ghost items: seq<Item>)
      requires Valid() && pending.Nothing? && FullRun(setup.link, next, PayloadWords()) >= count
      modifies `next, `place
      ensures Agrees() && next == old(next) + count && place.noted == old(next)
      ensures Fetched(old(place), items, words, count) && (PayloadWords() > 0 ==> Loud(setup.link, old(next), next))
      ensures count > 0 ==> firstStamp == TimeOf(setup.link, items[0])
      ensures count > 0 ==> setup.link.frames[old(next)].Received? && firstSequence == setup.link.frames[old(next)].seqNo
    {
      hide Stream, Kept, Tiled, Folded, Decode, Rest, ItemsOf;
      words, firstStamp, firstSequence, items := [], 0, 0, [];
      assert place.delivered + items == place.delivered && place.taken + items == place.taken;
      for packets := 0 to count
        invariant Agrees() && pending.Nothing? && next == old(next) + packets && place.noted == old(next)
        invariant Fetched(old(place), items, words, packets) && (PayloadWords() > 0 ==> Loud(setup.link, old(next), next))
        invariant FullRun(setup.link, next, PayloadWords()) >= count - packets
        invariant packets > 0 ==> firstStamp == TimeOf(setup.link, items[0])
        invariant packets > 0 ==> setup.link.frames[old(next)].Received? && firstSequence == setup.link.frames[old(next)].seqNo
      {
        var f;
        ghost var more;
        f, more := TakeFull();
        if packets == 0 {
          firstStamp, firstSequence := f.stamp, f.seqNo;
        }
        Joined(old(place).delivered, items, more);
        Joined(old(place).taken, items, more);
        WordsAppend(items, more);
        if PayloadWords() % 2 == 0 {
          TimesEven(packets, PayloadWords());
          StraightAppend(items, more, 0);
        }
        words := words + f.words;
        items := items + more;
      }
    }

    /** One packet of a burst. */
    method TakeFull() returns (f: Decoded, ghost items: seq<Item>)
      requires Agrees() && pending.Nothing? && FullRun(setup.link, next, PayloadWords()) > 0
      modifies `next, `place
      ensures Agrees() && next == old(next) + 1 && place.noted == old(place).noted
      ensures f.Received? && f == setup.link.frames[old(next)] && |f.words| == PayloadWords() > 0
      ensures items == ItemsOf(setup.link, old(next)) && Words(items) == f.words && Straight(items, 0) && TimeOf(setup.link, items[0]) == f.stamp
      ensures place.delivered == old(place).delivered + items && place.taken == old(place).taken + items
      ensures FullRun(setup.link, next, PayloadWords()) == FullRun(setup.link, old(next), PayloadWords()) - 1
    {
      hide Stream, Kept, Tiled, Folded, Rest;
      f := Decode(setup.ring[next], setup.packetBytes);
      items := ItemsOf(setup.link, next);
      place := BurstOne(place);
      next := next + 1;
    }

    /**
     * A receive call has put the words `out` into its one buffer since `from`, knows the time of the first, and has not got
     * past a packet without payload.
     */
    ghost predicate Served(dest: array<Value>, n: nat, total: nat, format: Format, from: Place, out: seq<Item>, time: u64)
      reads this, dest
    {
      && Valid() && |out| == total <= n && 2 * n <= dest.Length
      && place.delivered == from.delivered + out && place.taken == from.taken + out
      && dest[..2 * total] == Values(format, Words(out))
      && (total > 0 ==> time == TimeOf(setup.link, out[0]))
      && from.k <= next && Loud(setup.link, from.k, Past(next, pending))
    }

    /** The burst branch of recv with one buffer. */
    method BurstSingle(dest: array<Value>, n: nat, total: nat, ghost from: Place, ghost out: seq<Item>, time: u64)
      returns (total': nat, time': u64, ghost out': seq<Item>)
      requires Served(dest, n, total, Int16, from, out, time) && pending.Nothing? && n - total >= PayloadWords() > 0
      modifies dest, `next, `place, `continuity, `polls
      ensures Served(dest, n, total', Int16, from, out', time') && pending.Nothing?
      ensures Valid() && total <= total' <= n && old(next) <= next && (total == total' <==> old(next) == next) && polls == old(polls) + 1
    {
      hide Stream, Kept, Tiled, Folded, Rest, Values, Loud;
      var limit := Quot(n - total, PayloadWords());
      var packets, words, firstStamp, firstSequence;
      ghost var items;
      packets, words, firstStamp, firstSequence, items := RecvPayloadBurst(limit);
      total', time', out' := total + |words|, time, out + items;
      TimesFits(packets, PayloadWords(), n - total);
      Joined(from.delivered, out, items);
      Joined(from.taken, out, items);
      if total == 0 {
        time' := firstStamp;
      }
      LoudMore(setup.link, from.k, old(next), next);
      NoteRead(firstSequence, packets);
      StoreMore(dest, total, words, Int16, out, items);
    }

    /** The packet branch of recv with one buffer, once a packet is pending. */
    method CopySingle(dest: array<Value>, n: nat, total: nat, format: Format, ghost from: Place, ghost out: seq<Item>, time: u64)
      returns (total': nat, time': u64, ghost out': seq<Item>)
      requires Served(dest, n, total, format, from, out, time) && pending.Loaded? && total < n
      modifies dest, `pending, `place
      ensures Served(dest, n, total', format, from, out', time')
      ensures Valid() && total' == total + Min(n - total, |old(pending).words| - old(pending).offset)
      ensures (total' == total ==> pending == old(pending)) && (Stalled(pending) ==> pending == old(pending))
      ensures total' < n ==> pending.Nothing? || Stalled(pending)
    {
      hide Stream, Kept, Tiled, Folded, Rest, Values, Loud;
      var copied, ws;
      ghost var items;
      copied, ws, time', items := TakeSamples(n - total, total > 0, time);
      total', out' := total + copied, out + items;
      Joined(from.delivered, out, items);
      Joined(from.taken, out, items);
      StoreMore(dest, total, ws, format, out, items);
    }

    /** Its share of the pending packet: at most `left` words. */
    method TakeSamples(left: nat, timed: bool, time: u64) returns (copied: nat, ws: seq<word>, time': u64, ghost items: seq<Item>)
      requires Valid() && pending.Loaded? && left > 0
      modifies `pending, `place
      ensures Valid() && copied == |items| == Min(left, |old(pending).words| - old(pending).offset) && ws == Words(items)
      ensures place.delivered == old(place).delivered + items && place.taken == old(place).taken + items
      ensures copied == 0 ==> pending == old(pending)
      ensures copied < left ==> pending.Nothing? || Stalled(pending)
      ensures if timed then time' == time else copied > 0 ==> time' == TimeOf(setup.link, items[0])
    {
      hide Stream, Kept, Tiled, Folded, Rest;
      time' := if timed then time else (pending.stamp + SampleOf(pending.offset, setup.link.channels)) % 0x1_0000_0000_0000_0000;
      copied := Min(left, |pending.words| - pending.offset);
      ws := pending.words[pending.offset..pending.offset + copied];
      items := Next(setup.link, next, pending, copied);
      if copied > 0 {
        place := Copied(place, copied);
        pending := Advanced(pending, copied);
      } else {
        assert items == [];
      }
    }

    /** load_next_packet in the middle of a receive call with one buffer. */
    method LoadSingle(dest: array<Value>, n: nat, total: nat, format: Format, ghost from: Place, ghost out: seq<Item>, time: u64)
      returns (ok: bool)
      requires Served(dest, n, total, format, from, out, time) && pending.Nothing?
      modifies `next, `pending, `continuity, `place, `polls
      ensures Served(dest, n, total, format, from, out, time)
      ensures Valid() && old(next) <= next && old(polls) < polls == old(polls) + next - old(next) + (if pending.Nothing? then 1 else 0)
      ensures if ok then pending.Loaded? && !Stalled(pending) else Dry(old(polls))
    {
      hide Stream, Kept, Tiled, Folded, Rest, Values, Loud;
      ok := LoadNextPacket();
      LoudMore(setup.link, from.k, old(next), Past(next, pending));
    }

    /** At the start of a receive call with one buffer. */
    lemma NoneServedYet(dest: array<Value>, n: nat, format: Format)
      requires Valid() && 2 * n <= dest.Length
      ensures Served(dest, n, 0, format, place, [], 0)
    {
      hide Stream, Kept, Tiled, Folded, Rest;
      assert place.delivered + [] == place.delivered && place.taken + [] == place.taken;
    }

    /** No poll of the ones to come, two a frame and two more, finds nothing while there are frames. */
    ghost predicate Ample()
      reads this
    {
      Plenty(schedule, polls, polls + 2 * (|setup.ring| - next) + 2)
    }

    /** The words from here on to the first packet without payload. */
    ghost function Ahead(): int
      requires next <= |setup.link.frames|
      reads this
    {
      if Stalled(pending) then 0 else |Stream(setup.link, FirstSilent(setup.link, next))| - |place.taken|
    }

    /** With polls like that a call delivers these words, as many as it wants. */
    lemma HowMuch(dest: array<Value>, n: nat, total: nat, format: Format, from: Sound, out: seq<Item>, time: u64, polls0: nat)
      requires Served(dest, n, total, format, from, out, time) && from.link == setup.link && !Stalled(from.pending)
      requires (total < n ==> Dry(polls0)) && Prompt(polls0, from.k) && (next == from.k ==> !Stalled(pending))
      requires Plenty(schedule, polls0, polls0 + 2 * (|setup.ring| - from.k) + 2)
      ensures var ahead := |Stream(setup.link, FirstSilent(setup.link, from.k))| - |from.taken|; total == if n < ahead then n else ahead
    {
      hide Stream, Kept, Tiled, Values, TimeOf;
      var link, f := setup.link, FirstSilent(setup.link, from.k);
      var past := Past(next, pending);
      assert past <= f;
      StreamGrows(link, past, f);
      PastIsTaken(place);
      if total < n {
        if Stalled(pending) {
          assert f == past;
        } else {
          assert schedule[polls - 1] > 0;
          assert f == past == |link.frames|;
        }
      }
    }

    /** The loop of recv with one buffer: bursts for 16-bit samples, packets otherwise and for the rest. */
    method FillSingle(dest: array<Value>, n: nat, format: Format) returns (total: nat, time: u64, ghost out: seq<Item>)
      requires Valid() && 2 * n <= dest.Length
      modifies dest, `pending, `continuity, `next, `place, `polls
      ensures Served(dest, n, total, format, old(place), out, time)
      ensures total < n ==> Dry(old(polls))
      ensures Prompt(old(polls), old(next))
      ensures Stalled(old(pending)) ==> total == 0 && pending == old(pending) && next == old(next)
      ensures n > 0 && old(pending).Loaded? && !Stalled(old(pending)) ==> total > 0
      ensures next == old(next) && Stalled(pending) ==> Stalled(old(pending))
    {
      hide Served, Stream, Kept, Tiled, Folded, Rest, Words, TimeOf, FullRun, PayloadWords;
      ghost var from := place;
      total, time, out := 0, 0, [];
      NoneServedYet(dest, n, format);
      while total < n
        invariant Valid() && total <= n && Served(dest, n, total, format, from, out, time) && 0 <= polls - old(polls) <= 2 * (next - old(next))
        invariant Moving(total, pending, next, old(pending), old(next))
        decreases n - total, |setup.ring| - next
      {
        var before := total;
        if pending.Nothing? && format.Int16? && n - total >= PayloadWords() > 0 {
          total, time, out := BurstSingle(dest, n, total, from, out, time);
          if total > before {
            continue;
          }
        }
        if pending.Nothing? {
          var ok := LoadSingle(dest, n, total, format, from, out, time);
          if !ok {
            break;
          }
        }
        total, time, out := CopySingle(dest, n, total, format, from, out, time);
        if total == before {
          break;
        }
      }
    }

    /** recv with one buffer. */
    method RecvSingle(dest: array<Value>, n: nat, format: Format) returns (total: nat, time: u64, ghost out: seq<Item>)
      requires Valid() && 2 * n <= dest.Length
      modifies dest, `pending, `continuity, `next, `place, `polls
      ensures Served(dest, n, total, format, old(place), out, time)
      ensures total < n ==> Dry(old(polls))
      ensures Prompt(old(polls), old(next))
      ensures Stalled(old(pending)) ==> total == 0 && pending == old(pending) && next == old(next)
      ensures n > 0 && old(pending).Loaded? && !Stalled(old(pending)) ==> total > 0
      ensures old(Ample()) ==> total == if n < old(Ahead()) then n else old(Ahead())
      ensures |out| == total && Given(setup.link, out, time) && Holds(dest[..], out, format)
    {
      hide Given, Holds;
      hide Served, Stream, Kept, Tiled, Folded, Rest, Words, TimeOf, Plenty, FirstSilent, Dry, Prompt;
      ghost var from, ample := place, Ample();
      total, time, out := FillSingle(dest, n, format);
      if !Stalled(old(pending)) && ample {
        HowMuch(dest, n, total, format, from, out, time, old(polls));
      }
      SingleSpelled(dest, n, total, format, from, out, time);
    }

    /** What the buffer of a call holds, and its time. */
    lemma SingleSpelled(dest: array<Value>, n: nat, total: nat, format: Format, from: Place, out: seq<Item>, time: u64)
      requires Served(dest, n, total, format, from, out, time)
      ensures |out| == total && Given(setup.link, out, time) && Holds(dest[..], out, format)
    {
      hide FromRing, Stamped, IsSample, Accounted, Values, TimeOf;
      OutFromRing(place, from, out, time);
      BufferSpelled(dest, format, Words(out));
      assert forall j: nat :: j < total ==> Words(out)[j] == out[j].w;
    }

    /** As Served, for two buffers: each holds its half of the words `out`. */
    ghost predicate ServedBoth(dest0: array<Value>, dest1: array<Value>, n: nat, received: nat, format: Format,
                               from: Place, out: seq<Item>, time: u64)
      reads this, dest0, dest1
    {
      && Valid() && received <= n && |out| == 2 * received && place.delivered == from.delivered + out
      && dest0 != dest1 && 2 * n <= dest0.Length && 2 * n <= dest1.Length
      && dest0[..2 * received] == Values(format, Channel(Words(out), 0, received))
      && dest1[..2 * received] == Values(format, Channel(Words(out), 1, received))
      && (received > 0 ==> time == TimeOf(setup.link, out[0]))
    }

    lemma PayloadIsEven()
      ensures PayloadWords() % 2 == 0
    {
      QuarterIsEven(setup.packetBytes);
    }

    /** The burst branch of recv with two buffers. */
    method BurstDual(dest0: array<Value>, dest1: array<Value>, n: nat, received: nat, format: Format, hasAvx2: bool,
                     ghost from: Place, ghost out: seq<Item>, time: u64, ghost skew: nat)
      returns (received': nat, time': u64, ghost out': seq<Item>)
      requires ServedBoth(dest0, dest1, n, received, format, from, out, time)
      requires OnTrack(pending, out, skew) && Thrifty(setup.link, pending, place.taken, from, out)
      requires pending.Nothing? && n - received >= PayloadWords() / 2 > 0
      modifies dest0, dest1, `next, `place, `continuity, `polls
      ensures ServedBoth(dest0, dest1, n, received', format, from, out', time')
      ensures OnTrack(pending, out', skew) && Thrifty(setup.link, pending, place.taken, from, out')
      ensures Valid() && received' <= n && pending.Nothing? && received <= received'
      ensures old(next) <= next && (received == received' <==> old(next) == next) && polls == old(polls) + 1
    {
      hide Stream, Kept, Tiled, Folded, Rest, Values, Channel, FullRun, Straight, OnTrack, Thrifty;
      hide Accounted, Agrees, Valid, TimeOf, Words, PayloadWords;
      var copied, words, stamp;
      ghost var items;
      copied, words, stamp, items := BurstFrames(n - received);
      received', out' := received + copied, out + items;
      time' := if received > 0 then time else stamp;
      Joined(from.delivered, out, items);
      BurstTracks(setup.link, pending, old(place).taken, from, out, items, skew);
      StoreFrames(dest0, dest1, received, words, copied, format, hasAvx2, out, items);
    }

    /** Its ring read: at most `left` frames. */
    method BurstFrames(left: nat) returns (copied: nat, words: seq<word>, stamp: u64, ghost items: seq<Item>)
      requires Valid() && pending.Nothing? && left >= PayloadWords() / 2 > 0
      modifies `next, `place, `continuity, `polls
      ensures Valid() && pending.Nothing? && old(next) <= next && (copied == 0 <==> old(next) == next) && polls == old(polls) + 1
      ensures |items| == 2 * copied && copied <= left && words == Words(items) && Straight(items, 0)
      ensures place.delivered == old(place).delivered + items && place.taken == old(place).taken + items
      ensures items != [] ==> stamp == TimeOf(setup.link, items[0])
    {
      hide Stream, Kept, Tiled, Folded, Rest, FullRun;
      PayloadIsEven();
      var payloadFrames := PayloadWords() / 2;
      var limit := Min(Quot(left, payloadFrames), 64);
      var packets, firstSequence;
      packets, words, stamp, firstSequence, items := RecvPayloadBurst(limit);
      copied := Times(packets, payloadFrames);
      TimesFits(packets, payloadFrames, left);
      TimesTwice(packets, payloadFrames);
      NoteRead(firstSequence, packets);
    }

    /** The packet branch of recv with two buffers, once a packet with frames is pending. */
    method CopyDual(dest0: array<Value>, dest1: array<Value>, n: nat, received: nat, format: Format, hasAvx2: bool,
                    ghost from: Place, ghost out: seq<Item>, time: u64, ghost skew: nat)
      returns (received': nat, time': u64, ghost out': seq<Item>)
      requires ServedBoth(dest0, dest1, n, received, format, from, out, time)
      requires OnTrack(pending, out, skew) && Thrifty(setup.link, pending, place.taken, from, out)
      requires setup.link.channels == 2 && pending.Loaded? && received < n && |pending.words| - pending.offset >= 2
      modifies dest0, dest1, `pending, `place
      ensures ServedBoth(dest0, dest1, n, received', format, from, out', time')
      ensures OnTrack(pending, out', skew) && Thrifty(setup.link, pending, place.taken, from, out')
      ensures Valid() && received < received' <= n
    {
      hide Stream, Kept, Tiled, Folded, Rest, Values, Channel, Straight, OnTrack, Thrifty;
      var copied, ws, stamp;
      ghost var items;
      copied, ws, stamp, items := TakeFrames(n - received);
      received', out' := received + copied, out + items;
      time' := if received > 0 then time else stamp;
      Joined(from.delivered, out, items);
      CopyTracks(setup.link, old(pending), old(place).taken, from, out, items, skew);
      StoreFrames(dest0, dest1, received, ws, copied, format, hasAvx2, out, items);
    }

    /** Its share of the pending packet: at most `left` frames. */
    method TakeFrames(left: nat) returns (copied: nat, ws: seq<word>, stamp: u64, ghost items: seq<Item>)
      requires Valid() && setup.link.channels == 2 && pending.Loaded? && left > 0 && |pending.words| - pending.offset >= 2
      modifies `pending, `place
      ensures Valid() && 0 < copied <= left && |items| == 2 * copied && ws == Words(items)
      ensures place.delivered == old(place).delivered + items && place.taken == old(place).taken + items
      ensures stamp == TimeOf(setup.link, items[0])
      ensures old(pending).offset + 2 * copied <= |old(pending).words| && pending == Advanced(old(pending), 2 * copied)
      ensures forall j {:trigger items[j]} :: 0 <= j < |items| ==> items[j].index == old(pending).offset + j
    {
      hide Stream, Kept, Tiled, Folded, Rest;
      stamp := (pending.stamp + pending.offset / 2) % 0x1_0000_0000_0000_0000;
      copied := Min(left, (|pending.words| - pending.offset) / 2);
      ws := pending.words[pending.offset..pending.offset + 2 * copied];
      items := Next(setup.link, next, pending, 2 * copied);
      place := Copied(place, 2 * copied);
      pending := Advanced(pending, 2 * copied);
    }

    /** load_next_packet in the middle of a receive call with two buffers. */
    method LoadBoth(dest0: array<Value>, dest1: array<Value>, n: nat, received: nat, format: Format,
                    ghost from: Place, ghost out: seq<Item>, time: u64, ghost skew: nat) returns (ok: bool)
      requires ServedBoth(dest0, dest1, n, received, format, from, out, time)
      requires OnTrack(pending, out, skew) && Thrifty(setup.link, pending, place.taken, from, out)
      requires pending.Nothing?
      modifies `pending, `continuity, `next, `place, `polls
      ensures ServedBoth(dest0, dest1, n, received, format, from, out, time)
      ensures OnTrack(pending, out, skew) && Thrifty(setup.link, pending, place.taken, from, out)
      ensures Valid() && old(next) <= next && old(polls) < polls == old(polls) + next - old(next) + (if pending.Nothing? then 1 else 0)
      ensures if ok then pending.Loaded? else Dry(old(polls))
    {
      hide Stream, Kept, Tiled, Folded, Rest, Values, Channel, Straight;
      ok := LoadNextPacket();
    }

    /** A pending packet without a frame left is dropped. */
    method DropEmpty(dest0: array<Value>, dest1: array<Value>, n: nat, received: nat, format: Format,
                     ghost from: Place, ghost out: seq<Item>, time: u64, ghost skew: nat)
      requires ServedBoth(dest0, dest1, n, received, format, from, out, time)
      requires OnTrack(pending, out, skew) && Thrifty(setup.link, pending, place.taken, from, out)
      requires pending.Loaded? && |pending.words| - pending.offset < 2
      modifies `pending, `place
      ensures ServedBoth(dest0, dest1, n, received, format, from, out, time)
      ensures OnTrack(pending, out, skew) && Thrifty(setup.link, pending, place.taken, from, out)
      ensures Valid() && pending.Nothing?
    {
      hide Stream, Kept, Tiled, Folded, Values, Channel, Straight;
      assert EvenPending(pending) ==> place.taken + Rest(setup.link, next, pending) == place.taken;
      place := Dropped(place);
      pending := Nothing;
    }

    /** At the start of a receive call with two buffers. */
    lemma NoneServed(dest0: array<Value>, dest1: array<Value>, n: nat, format: Format)
      requires Valid() && dest0 != dest1 && 2 * n <= dest0.Length && 2 * n <= dest1.Length
      ensures ServedBoth(dest0, dest1, n, 0, format, place, [], 0)
      ensures OnTrack(pending, [], Skew(pending)) && Thrifty(setup.link, pending, place.taken, place, [])
    {
      hide Stream, Kept, Tiled, Folded, Rest;
      assert place.delivered + [] == place.delivered && place.taken + [] == place.taken;
    }

    /**
     * recv with two buffers, for channel mask 0x03. The words reach the buffers of their own channels, all of them, unless a
     * one-buffer read has left an odd number of words of a packet behind it. Then the rest of that packet goes to the wrong
     * buffers and, if that is odd, its last word is lost; from the next packet on all is right again.
     */
    method RecvDual(dest0: array<Value>, dest1: array<Value>, n: nat, format: Format, hasAvx2: bool)
      returns (received: nat, time: u64, ghost out: seq<Item>)
      requires Valid() && setup.link.channels == 2 && dest0 != dest1 && 2 * n <= dest0.Length && 2 * n <= dest1.Length
      modifies dest0, dest1, `pending, `continuity, `next, `place, `polls
      ensures ServedBoth(dest0, dest1, n, received, format, old(place), out, time)
      ensures Straight(out, old(Skew(pending))) && Thrifty(setup.link, pending, place.taken, old(place), out)
      ensures received < n ==> Dry(old(polls))
      ensures Prompt(old(polls), old(next))
      ensures |out| == 2 * received && Given(setup.link, out, time) && HoldBoth(dest0[..], dest1[..], out, format)
    {
      hide Given, HoldBoth;
      received, time, out := FillDual(dest0, dest1, n, format, hasAvx2);
      BothSpelled(dest0, dest1, n, received, format, old(place), out, time);
    }

    lemma BothSpelled(dest0: array<Value>, dest1: array<Value>, n: nat, received: nat, format: Format, from: Place, out: seq<Item>, time: u64)
      requires ServedBoth(dest0, dest1, n, received, format, from, out, time)
      ensures |out| == 2 * received && Given(setup.link, out, time) && HoldBoth(dest0[..], dest1[..], out, format)
    {
      hide FromRing, Stamped, IsSample, Accounted, Values, TimeOf;
      OutFromRing(place, from, out, time);
      var ws0, ws1 := Channel(Words(out), 0, received), Channel(Words(out), 1, received);
      BufferSpelled(dest0, format, ws0);
      BufferSpelled(dest1, format, ws1);
      forall j: nat | j < received
        ensures IsSample(dest0[..], j, out[2 * j].w, format) && IsSample(dest1[..], j, out[2 * j + 1].w, format)
      {
        assert ws0[j] == out[2 * j].w && ws1[j] == out[2 * j + 1].w;
      }
    }

    /** Its loop: bursts where nothing is pending, packets otherwise. */
    method FillDual(dest0: array<Value>, dest1: array<Value>, n: nat, format: Format, hasAvx2: bool)
      returns (received: nat, time: u64, ghost out: seq<Item>)
      requires Valid() && setup.link.channels == 2 && dest0 != dest1 && 2 * n <= dest0.Length && 2 * n <= dest1.Length
      modifies dest0, dest1, `pending, `continuity, `next, `place, `polls
      ensures ServedBoth(dest0, dest1, n, received, format, old(place), out, time)
      ensures Straight(out, old(Skew(pending))) && Thrifty(setup.link, pending, place.taken, old(place), out)
      ensures received < n ==> Dry(old(polls))
      ensures Prompt(old(polls), old(next))
    {
      hide ServedBoth, Thrifty, Straight, PayloadWords, Stream, Kept, Tiled, Folded, Rest;
      ghost var from, skew := place, Skew(pending);
      received, time, out := 0, 0, [];
      NoneServed(dest0, dest1, n, format);
      while received < n
        invariant Valid() && 0 <= polls - old(polls) <= 2 * (next - old(next)) && received <= n
        invariant ServedBoth(dest0, dest1, n, received, format, from, out, time)
        invariant OnTrack(pending, out, skew) && Thrifty(setup.link, pending, place.taken, from, out)
        decreases n - received, |setup.ring| - next, pending.Loaded?
      {
        var before := received;
        if pending.Nothing? && n - received >= PayloadWords() / 2 > 0 {
          received, time, out := BurstDual(dest0, dest1, n, received, format, hasAvx2, from, out, time, skew);
          if received > before {
            continue;
          }
        }
        if pending.Nothing? {
          var ok := LoadBoth(dest0, dest1, n, received, format, from, out, time, skew);
          if !ok {
            break;
          }
        }
        if |pending.words| - pending.offset < 2 {
          DropEmpty(dest0, dest1, n, received, format, from, out, time, skew);
          continue;
        }
        received, time, out := CopyDual(dest0, dest1, n, received, format, hasAvx2, from, out, time, skew);
      }
    }
  }

  /** Whole frames of both channels: what the FPGA's packets hold, being whole AXI words. */
  ghost predicate EvenFrames(link: Link) {
    forall k {:trigger link.frames[k]} :: 0 <= k < |link.frames| && link.frames[k].Received? ==> |link.frames[k].words| % 2 == 0
  }

  predicate EvenPending(p: Pending) {
    p.Loaded? ==> p.offset % 2 == 0 && |p.words| % 2 == 0
  }

  /** The words, two by two, of a pending packet of which an odd number of words is gone. */
  function Skew(p: Pending): nat {
    if p.Loaded? && p.offset % 2 == 1 && p.offset <= |p.words| then (|p.words| - p.offset) / 2 * 2 else 0
  }

  /** From place `skew` on, and only from there, words of even number in their packet are at even places. */
  ghost predicate Straight(items: seq<Item>, skew: nat) {
    forall j {:trigger items[j]} :: 0 <= j < |items| ==> (items[j].index % 2 == j % 2 <==> j >= skew)
  }

  lemma StraightAppend(items: seq<Item>, more: seq<Item>, skew: nat)
    requires Straight(items, skew) && |items| % 2 == 0
    requires if |items| < skew then |items| + |more| <= skew && forall j {:trigger more[j]} :: 0 <= j < |more| ==> more[j].index % 2 != j % 2
             else Straight(more, 0)
    ensures Straight(items + more, skew)
  {
    forall j {:trigger (items + more)[j]} | 0 <= j < |items + more|
      ensures (items + more)[j].index % 2 == j % 2 <==> j >= skew
    {
      if j >= |items| {
        assert (items + more)[j] == more[j - |items|];
      }
    }
  }

  /** Up to the skew the words are in the wrong halves, and the packet that makes them so is still pending; from there on they are right. */
  ghost predicate OnTrack(p: Pending, out: seq<Item>, skew: nat) {
    && Straight(out, skew) && |out| % 2 == 0
    && if p.Loaded? && p.offset % 2 == 1 then |out| + Skew(p) == skew else |out| >= skew
  }

  /** What was dropped, if packets are whole frames: nothing, or after an odd number of words the last word of that packet. */
  ghost predicate Thrifty(link: Link, p: Pending, taken: seq<Item>, from: Place, out: seq<Item>) {
    EvenFrames(link) ==>
      if EvenPending(from.pending) then EvenPending(p) && taken == from.taken + out
      else |taken| <= |from.taken| + |out| + (if EvenPending(p) then 1 else 0)
  }

  lemma BurstTracks(link: Link, p: Pending, taken: seq<Item>, from: Place, out: seq<Item>, items: seq<Item>, skew: nat)
    requires OnTrack(p, out, skew) && Thrifty(link, p, taken, from, out)
    requires p.Nothing? && |items| % 2 == 0 && Straight(items, 0)
    ensures OnTrack(p, out + items, skew) && Thrifty(link, p, taken + items, from, out + items)
  {
    StraightAppend(out, items, skew);
    Joined(from.taken, out, items);
  }

  lemma CopyTracks(link: Link, p: Pending, taken: seq<Item>, from: Place, out: seq<Item>, items: seq<Item>, skew: nat)
    requires OnTrack(p, out, skew) && Thrifty(link, p, taken, from, out)
    requires p.Loaded? && |items| % 2 == 0 && p.offset + |items| <= |p.words|
    requires forall j {:trigger items[j]} :: 0 <= j < |items| ==> items[j].index == p.offset + j
    ensures var q := Advanced(p, |items|); OnTrack(q, out + items, skew) && Thrifty(link, q, taken + items, from, out + items)
  {
    CopyOnTrack(p, out, items, skew);
    CopyThrifty(link, p, taken, from, out, items);
  }

  lemma CopyOnTrack(p: Pending, out: seq<Item>, items: seq<Item>, skew: nat)
    requires OnTrack(p, out, skew) && p.Loaded? && |items| % 2 == 0 && p.offset + |items| <= |p.words|
    requires forall j {:trigger items[j]} :: 0 <= j < |items| ==> items[j].index == p.offset + j
    ensures OnTrack(Advanced(p, |items|), out + items, skew)
  {
    PairsFit(|items|, |p.words| - p.offset);
    StraightAppend(out, items, skew);
    hide Straight;
  }

  /** An even number of words goes into whole pairs, and leaves the other pairs. */
  lemma PairsFit(n: nat, m: nat)
    requires n % 2 == 0 && n <= m
    ensures n <= m / 2 * 2 && (m - n) / 2 * 2 == m / 2 * 2 - n
  {
  }

  lemma CopyThrifty(link: Link, p: Pending, taken: seq<Item>, from: Place, out: seq<Item>, items: seq<Item>)
    requires Thrifty(link, p, taken, from, out) && p.Loaded? && |items| % 2 == 0 && p.offset + |items| <= |p.words|
    ensures Thrifty(link, Advanced(p, |items|), taken + items, from, out + items)
  {
    hide EvenFrames;
    Joined(from.taken, out, items);
  }

  lemma {:induction false} EvenStream(link: Link, k: nat)
    requires EvenFrames(link) && k <= |link.frames|
    ensures |Stream(link, k)| % 2 == 0
  {
    if k > 0 {
      EvenStream(link, k - 1);
      assert |ItemsOf(link, k - 1)| % 2 == 0;
    }
  }

  /** With whole-frame packets the number of words taken so far says whether a two-buffer read starts at a frame. */
  lemma TakenDecides(s: Sound)
    requires EvenFrames(s.link)
    ensures EvenPending(s.pending) <==> |s.taken| % 2 == 0
    ensures Skew(s.pending) == if |s.taken| % 2 == 0 then 0 else |Rest(s.link, s.k, s.pending)| - 1
  {
    hide Stream, Kept, Tiled;
    EvenStream(s.link, s.k);
    assert |Stream(s.link, s.k)| == |s.taken| + |Rest(s.link, s.k, s.pending)|;
  }

  /**
   * A two-buffer read that gives `out` from place s on: sample i of buffer c is word 2 i + c of it, and every one of them is a
   * word of channel c if and only if an even number of words was taken before, or no more than one is left of the packet pending.
   */
  lemma OwnChannel(s: Sound, out: seq<Item>, samples: nat)
    requires EvenFrames(s.link) && Straight(out, Skew(s.pending)) && |out| == 2 * samples > 0
    ensures forall c, i :: 0 <= c < 2 && 0 <= i < samples ==> Channel(Words(out), c, samples)[i] == out[2 * i + c].w
    ensures (forall j {:trigger out[j]} :: 0 <= j < |out| ==> out[j].index % 2 == j % 2)
            <==> |s.taken| % 2 == 0 || |Rest(s.link, s.k, s.pending)| <= 1
  {
    hide Rest, Accounted;
    TakenDecides(s);
    if Skew(s.pending) > 0 {
      assert out[0].index % 2 != 0;
    }
  }

  lemma ChannelConcat(a: seq<word>, b: seq<word>, c: nat, n: nat, m: nat)
    requires |a| == 2 * n && |b| >= 2 * m && c < 2
    ensures Channel(a + b, c, n + m) == Channel(a, c, n) + Channel(b, c, m)
  {
  }

  lemma BothAppend(format: Format, out: seq<word>, ws: seq<word>, c: nat, n: nat, m: nat)
    requires |out| == 2 * n && |ws| == 2 * m && c < 2
    ensures Values(format, Channel(out, c, n)) + Values(format, Channel(ws, c, m)) == Values(format, Channel(out + ws, c, n + m))
  {
    ChannelConcat(out, ws, c, n, m);
    ValuesConcat(format, Channel(out, c, n), Channel(ws, c, m));
  }

  lemma QuarterIsEven(packetBytes: nat)
    requires packetBytes >= HEADER_BYTES && packetBytes % 16 == 0
    ensures (packetBytes - HEADER_BYTES) / 4 % 2 == 0
  {
    var q := packetBytes / 16;
    assert packetBytes == 16 * q;
    assert (packetBytes - HEADER_BYTES) / 4 == 2 * (2 * q - 2) by {
      FourFits(4 * q - 4);
    }
    TwiceIsEven(2 * q - 2);
  }

  lemma FourFits(n: int)
    ensures 4 * n / 4 == n
  {
  }

  lemma TwiceIsEven(n: int)
    ensures 2 * n % 2 == 0
  {
  }

  lemma {:induction false} TimesTwice(k: nat, m: nat)
    ensures Times(k, 2 * m) == 2 * Times(k, m)
  {
    if k > 0 {
      TimesTwice(k - 1, m);
    }
  }

  lemma {:induction false} TimesEven(k: nat, m: nat)
    requires m % 2 == 0
    ensures Times(k, m) % 2 == 0
  {
    if k > 0 {
      TimesEven(k - 1, m);
    }
  }

  // ---- What the loss count means for the frames read ----

  /**
   * The frames are packets of an endless count: frame i is number positions[i] of it, carries the low 16 bits of that, and
   * comes behind the packets of the frames in front of it.
   */
  ghost predicate Numbered(link: Link, positions: seq<nat>) {
    && |positions| == |link.frames|
    && (forall i {:trigger link.frames[i]} :: 0 <= i < |link.frames| && link.frames[i].Received? ==> link.frames[i].seqNo == NumberOf(positions[i]))
    && forall i, j {:trigger link.frames[i], link.frames[j]} ::
         0 <= i < j < |link.frames| && link.frames[i].Received? && link.frames[j].Received? ==> positions[i] < positions[j]
  }

  /** The calls as notices of the endless count. */
  function Notices(positions: seq<nat>, calls: seq<Call>): (ns: seq<Notice>)
    ensures |ns| == |calls|
  {
    if calls == [] then []
    else
      var c := calls[|calls| - 1];
      Notices(positions, calls[..|calls| - 1]) + [Notice(if c.first < |positions| then positions[c.first] else 0, c.count)]
  }

  /** Receive packets among the first k frames. */
  function ReceivedIn(link: Link, k: nat): nat
    requires k <= |link.frames|
  {
    if k == 0 then 0 else ReceivedIn(link, k - 1) + if link.frames[k - 1].Received? then 1 else 0
  }

  lemma {:induction false} ReceivedSpan(link: Link, a: nat, b: nat, all: bool)
    requires a <= b && if all then AllReceived(link, a, b) else NoneReceived(link, a, b)
    ensures ReceivedIn(link, b) == ReceivedIn(link, a) + if all then b - a else 0
  {
    if a < b {
      ReceivedSpan(link, a, b - 1, all);
      assert link.frames[b - 1].Received? == all;
    }
  }

  lemma {:induction false} Spread(link: Link, positions: seq<nat>, a: nat, b: nat)
    requires Numbered(link, positions) && a < b && AllReceived(link, a, b)
    ensures positions[a] + (b - a) <= positions[b - 1] + 1
  {
    if a + 1 < b {
      Spread(link, positions, a, b - 1);
      assert link.frames[b - 2].Received? && link.frames[b - 1].Received?;
    }
  }

  lemma NoNotices()
    ensures InOrder([]) && Counted([]) == FRESH
  {
  }

  lemma OrderMore(ns: seq<Notice>, n: Notice)
    requires InOrder(ns) && n.count > 0 && (ns != [] ==> After(ns[|ns| - 1]) <= n.position)
    ensures InOrder(ns + [n])
  {
  }

  lemma CountedMore(ns: seq<Notice>, n: Notice)
    ensures Counted(ns + [n]) == Note(Counted(ns), NumberOf(n.position), n.count)
  {
    hide Note, NumberOf;
    assert (ns + [n])[..|ns|] == ns;
  }

  /** The receiver's calls are notices in order, the counters count them, and the frames to come lie behind the last. */
  lemma {:induction false} CallsAreNotices(link: Link, positions: seq<nat>, calls: seq<Call>, noted: nat)
    requires Numbered(link, positions) && Tiled(link, calls, noted)
    ensures var ns := Notices(positions, calls); InOrder(ns) && Counted(ns) == Folded(link, calls)
    ensures Folded(link, calls).packets == ReceivedIn(link, noted)
    ensures calls != [] ==> forall j {:trigger link.frames[j]} :: noted <= j < |link.frames| && link.frames[j].Received? ==>
              After(Notices(positions, calls)[|calls| - 1]) <= positions[j]
  {
    hide InOrder, Counted, NumberOf;
    if calls == [] {
      NoNotices();
      ReceivedSpan(link, 0, noted, false);
    } else {
      var m := |calls| - 1;
      var c := calls[m];
      var end := c.first + c.count;
      CallsAreNotices(link, positions, calls[..m], c.first);
      ReceivedSpan(link, c.first, end, true);
      ReceivedSpan(link, end, noted, false);
      Spread(link, positions, c.first, end);
      assert link.frames[c.first].Received? && link.frames[end - 1].Received?;
      var ns, n := Notices(positions, calls[..m]), Notice(positions[c.first], c.count);
      OrderMore(ns, n);
      CountedMore(ns, n);
    }
  }

  /**
   * The loss count of a receiver, whatever reads it made: lost_packets is the number of packets from the first one received to
   * the next one expected that were not received, if and only if no gap between two reads hid 65536 packets or more.
   */
  lemma LossIsCounted(r: M300RxStreamer, positions: seq<nat>)
    requires r.Valid() && Numbered(r.setup.link, positions) && r.place.calls != []
    ensures r.continuity.packets == ReceivedIn(r.setup.link, r.next)
    ensures var ns := Notices(positions, r.place.calls);
            && InOrder(ns)
            && (r.continuity.lost == After(ns[|ns| - 1]) - ns[0].position - ReceivedIn(r.setup.link, r.next) <==> SmallGaps(ns))
            && r.continuity.jumps == |Jumps(ns)| && r.continuity.last == (After(ns[|ns| - 1]) - 1) % 0x1_0000
  {
    hide Stream, Kept, Tiled, Rest, Jumps, InOrder, SmallGaps, Counted;
    CallsAreNotices(r.setup.link, positions, r.place.calls, r.place.noted);
    LossCountIsExact(Notices(positions, r.place.calls));
    JumpsAreCounted(Notices(positions, r.place.calls));
  }

  /** Frames stored behind those two buffers hold already. */
  method StoreFrames(dest0: array<Value>, dest1: array<Value>, received: nat, ws: seq<word>, frames: nat, format: Format, hasAvx2: bool,
                     ghost out: seq<Item>, ghost items: seq<Item>)
    requires dest0 != dest1 && |out| == 2 * received && |ws| == 2 * frames && ws == Words(items)
    requires 2 * (received + frames) <= dest0.Length && 2 * (received + frames) <= dest1.Length
    requires dest0[..2 * received] == Values(format, Channel(Words(out), 0, received))
    requires dest1[..2 * received] == Values(format, Channel(Words(out), 1, received))
    modifies dest0, dest1
    ensures dest0[..2 * (received + frames)] == Values(format, Channel(Words(out + items), 0, received + frames))
    ensures dest1[..2 * (received + frames)] == Values(format, Channel(Words(out + items), 1, received + frames))
  {
    WordsAppend(out, items);
    BothAppend(format, Words(out), ws, 0, received, frames);
    BothAppend(format, Words(out), ws, 1, received, frames);
    Demux(ws, dest0, dest1, received, frames, format, hasAvx2);
  }
}
