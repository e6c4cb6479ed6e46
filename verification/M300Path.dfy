/** The M300 components together: what the device gets from a send, and what the receiver makes of packets as they are printed. */
module M300Path {
  import opened M300Demux
  import opened M300Protocol
  import opened M300Sequence
  import Rx = M300Rx
  import Tx = M300Tx
  import Worker = M300SendWorker

  lemma {:induction false} ConcatPrefix(some: seq<seq<byte>>, all: seq<seq<byte>>)
    requires some <= all
    ensures Tx.Concat(some) <= Tx.Concat(all)
  {
    if |some| < |all| {
      ConcatPrefix(some, all[..|all| - 1]);
    } else {
      assert some == all;
    }
  }

  /** A send call: its job, the packets of the job in order, and how many of them went out. */
  datatype Send = Send(job: Tx.Job, plan: nat -> Packet, k: nat)

  /** The packets of several sends, one send behind the other. */
  function Packets(sends: seq<Send>): seq<Packet> {
    if |sends| == 0 then [] else var s := sends[|sends| - 1]; Packets(sends[..|sends| - 1]) + Tx.FirstPackets(s.plan, s.k)
  }

  /** Sends of a streamer between start and stop: each goes on with the sequence number the one before it ended with. */
  ghost predicate Chained(maxPacketBytes: nat, sends: seq<Send>, seqNo: nat) {
    if sends == [] then seqNo == 0
    else
      var s := sends[|sends| - 1];
      && Tx.Room(maxPacketBytes, s.job) && Tx.Planned(s.job, s.plan) && seqNo == Tx.SeqAt(s.job.seqNo, s.k)
      && Chained(maxPacketBytes, sends[..|sends| - 1], s.job.seqNo)
  }

  /** One more send call, as the contract of send_impl has it: the buffers still spell the packets of all sends. */
  lemma SendMore(before: seq<seq<byte>>, after: seq<seq<byte>>, maxPacketBytes: nat, sends: seq<Send>, s: Send)
    requires Tx.Concat(before) == Print(Packets(sends)) && Chained(maxPacketBytes, sends, s.job.seqNo)
    requires Tx.Room(maxPacketBytes, s.job) && Tx.Planned(s.job, s.plan)
    requires Tx.Concat(after) == Tx.Concat(before) + Print(Tx.FirstPackets(s.plan, s.k))
    ensures Tx.Concat(after) == Print(Packets(sends + [s])) && Chained(maxPacketBytes, sends + [s], Tx.SeqAt(s.job.seqNo, s.k))
  {
    assert (sends + [s])[..|sends|] == sends;
    PrintConcat(Packets(sends), Tx.FirstPackets(s.plan, s.k));
  }

  /** Sound packets numbered consecutively from `start` modulo 2^16, no longer than configured. */
  ghost predicate RunOn(ps: seq<Packet>, start: nat, maxPacketBytes: nat) {
    forall i {:trigger ps[i]} :: 0 <= i < |ps| ==> Sound(ps[i]) && ps[i].h.seqNo == (start + i) % 0x1_0000 && ps[i].h.length <= maxPacketBytes
  }

  lemma NumberAt(start: nat, i: nat)
    ensures (start % 0x1_0000 + i) % 0x1_0000 == (start + i) % 0x1_0000
  {
  }

  lemma SendRunsOn(maxPacketBytes: nat, s: Send, start: nat)
    requires Tx.Room(maxPacketBytes, s.job) && Tx.Planned(s.job, s.plan) && s.job.seqNo == start % 0x1_0000
    ensures RunOn(Tx.FirstPackets(s.plan, s.k), start, maxPacketBytes)
  {
    hide Tx.PacketFor, Tx.Room, Tx.SentBy;
    var ps := Tx.FirstPackets(s.plan, s.k);
    forall i {:trigger ps[i]} | 0 <= i < s.k
      ensures Sound(ps[i]) && ps[i].h.seqNo == (start + i) % 0x1_0000 && ps[i].h.length <= maxPacketBytes
    {
      Tx.FirstPacketsAt(s.plan, s.k, i);
      PacketRunsOn(maxPacketBytes, s, start, i);
    }
  }

  lemma PacketRunsOn(maxPacketBytes: nat, s: Send, start: nat, i: nat)
    requires Tx.Room(maxPacketBytes, s.job) && Tx.Planned(s.job, s.plan) && s.job.seqNo == start % 0x1_0000
    ensures Sound(s.plan(i)) && s.plan(i).h.seqNo == (start + i) % 0x1_0000 && s.plan(i).h.length <= maxPacketBytes
  {
    hide Tx.PacketFor, Tx.Room, Tx.SentBy, Sound;
    assert s.plan(i) == Tx.PacketNo(s.job, i);
    Tx.PacketFacts(s.job, i);
    Tx.PacketShort(maxPacketBytes, s.job, i);
    NumberAt(start, i);
  }

  lemma RunOnAppend(a: seq<Packet>, b: seq<Packet>, maxPacketBytes: nat)
    requires RunOn(a, 0, maxPacketBytes) && RunOn(b, |a|, maxPacketBytes)
    ensures RunOn(a + b, 0, maxPacketBytes)
  {
    hide Sound;
    forall i {:trigger (a + b)[i]} | |a| <= i < |a + b|
      ensures (a + b)[i] == b[i - |a|] && (a + b)[i].h.seqNo == i % 0x1_0000
    {
      assert b[i - |a|].h.seqNo == (|a| + (i - |a|)) % 0x1_0000;
    }
  }

  /** The packets of all sends are sound, numbered consecutively from 0 modulo 2^16, and no longer than configured. */
  lemma {:induction false} PacketsRunOn(maxPacketBytes: nat, sends: seq<Send>, seqNo: nat)
    requires Chained(maxPacketBytes, sends, seqNo)
    ensures seqNo == |Packets(sends)| % 0x1_0000 && RunOn(Packets(sends), 0, maxPacketBytes)
  {
    hide Tx.Room, Tx.Planned, Tx.SeqAt;
    if sends != [] {
      var front, s := sends[..|sends| - 1], sends[|sends| - 1];
      PacketsRunOn(maxPacketBytes, front, s.job.seqNo);
      Tx.SeqAtIsSum(s.job.seqNo, s.k);
      NumberAt(|Packets(front)|, s.k);
      SendRunsOn(maxPacketBytes, s, |Packets(front)|);
      RunOnAppend(Packets(front), Tx.FirstPackets(s.plan, s.k), maxPacketBytes);
    }
  }

  lemma AllSound(ps: seq<Packet>, maxPacketBytes: nat)
    requires RunOn(ps, 0, maxPacketBytes)
    ensures forall p :: p in ps ==> Sound(p) && p.h.length <= maxPacketBytes
  {
    hide Sound;
  }

  lemma Remainder(before: seq<seq<byte>>, more: seq<seq<byte>>, all: seq<seq<byte>>)
    requires before <= all <= before + more
    ensures all[|before|..] <= more && (all == before + more ==> all[|before|..] == more)
  {
  }

  /**
   * In every cycle of start and stop, from a state a without a worker on: at any moment the bytes written to the device since are
   * a prefix of the printed packets of the sends since. The hypothesis is about the calling thread alone: the buffers it has
   * handed over spell those packets.
   */
  lemma DeviceGetsPrefix(states: seq<Worker.State>, events: seq<Worker.Event>, memory: seq<seq<byte>>, a: nat, i: nat, sends: seq<Send>)
    requires memory != [] && Worker.Run(states, events) && states[0] == Worker.Initial(memory)
    requires a <= i <= |events| && states[a].worker.NotStarted?
    requires Tx.Concat(Worker.Handed(states, events, a, i)) == Print(Packets(sends))
    ensures states[a].written <= states[i].written && Tx.Concat(states[i].written[|states[a].written|..]) <= Print(Packets(sends))
  {
    assert |states| == |events| + 1;
    hide Worker.Run, Worker.Handed, Packets, Print, Tx.Concat;
    Worker.WrittenGrows(states, events, a, i);
    Worker.SentIsHanded(states, events, a, i);
    Worker.RestIsWritten(states, events, memory, a);
    Worker.WritesInOrder(states, events, memory, i);
    var since, handed := states[i].written[|states[a].written|..], Worker.Handed(states, events, a, i);
    Remainder(states[a].sent, handed, states[i].written);
    ConcatPrefix(since, handed);
  }

  /**
   * Once stop returns, a device that splits the bytes it got in this cycle by the packets' length fields finds exactly the packets
   * of all the sends made since start, numbered without a gap.
   */
  lemma DeviceGetsPackets(states: seq<Worker.State>, events: seq<Worker.Event>, memory: seq<seq<byte>>, a: nat, i: nat,
                          maxPacketBytes: nat, sends: seq<Send>, seqNo: nat)
    requires memory != [] && Worker.Run(states, events) && states[0] == Worker.Initial(memory)
    requires a <= i < |events| && states[a].worker.NotStarted? && events[i].Join?
    requires Chained(maxPacketBytes, sends, seqNo) && maxPacketBytes < 0x100_0000
    requires Tx.Concat(Worker.Handed(states, events, a, i + 1)) == Print(Packets(sends))
    ensures states[a].written <= states[i + 1].written
    ensures var got := ParseStream(Tx.Concat(states[i + 1].written[|states[a].written|..]));
            got == Packets(sends) && RunOn(got, 0, maxPacketBytes)
  {
    assert |states| == |events| + 1;
    hide Worker.Run, Worker.Handed, RunOn, Chained, Packets, Tx.Concat, Print, ParseStream, Sound;
    Worker.WrittenGrows(states, events, a, i + 1);
    Worker.SentIsHanded(states, events, a, i + 1);
    Worker.RestIsWritten(states, events, memory, a);
    Worker.StopDrains(states, events, memory, i);
    Remainder(states[a].sent, Worker.Handed(states, events, a, i + 1), states[i + 1].written);
    PacketsRunOn(maxPacketBytes, sends, seqNo);
    AllSound(Packets(sends), maxPacketBytes);
    PrintParses(Packets(sends));
  }

  /** A receive packet as it is printed is received as it was, unless it is longer than the receiver was set up for. */
  lemma PacketIsReceived(p: Packet, packetBytes: nat)
    requires Sound(p) && p.h.magic == MAGIC_RX && p.h.length < 0x100_0000
    ensures Rx.Decode(Encode(p), packetBytes)
            == if p.h.length <= packetBytes then Rx.Received(p.h.seqNo, p.timestamp, p.payload) else Rx.Skipped
  {
    var f := Encode(p);
    HeaderRoundTrip(p.h);
    Ranges();
    LoadStore(Raw(p.h), 8);
    LoadStore(p.timestamp, 8);
    WordsRoundTrip(p.payload);
    assert f[..8] == Le(Raw(p.h), 8) && f[8..16] == Le(p.timestamp, 8) && f[16..] == WordBytes(p.payload);
    assert f[16..|f|] == f[16..];
  }

  function ReceivePacket(seqNo: u16, stamp: u64, payload: seq<word>): Packet {
    Packet(Header(MAGIC_RX, seqNo, 0, HEADER_BYTES + 4 * |payload|), stamp, payload)
  }

  /** A receive packet that is all header. */
  function EmptyPacket(seqNo: u16, stamp: u64): Packet {
    ReceivePacket(seqNo, stamp, [])
  }

  /** It is received, without a word. */
  lemma EmptyIsReceived(seqNo: u16, stamp: u64, packetBytes: nat)
    requires packetBytes >= HEADER_BYTES
    ensures Rx.Decode(Encode(EmptyPacket(seqNo, stamp)), packetBytes) == Rx.Received(seqNo, stamp, [])
  {
    PacketIsReceived(EmptyPacket(seqNo, stamp), packetBytes);
  }

  /** Nothing is taken from a ring of which only that packet has been read. */
  lemma NothingTaken(s: Rx.Sound)
    requires s.k <= 1 && s.link.frames != [] && s.link.frames[0].Received? && s.link.frames[0].words == []
    ensures s.taken == []
  {
    hide Rx.Tiled, Rx.Kept;
    assert Rx.Stream(s.link, 0) == [];
  }

  /** With such a packet at the head of the ring a one-buffer receive gives nothing, and so does the next, whatever is behind. */
  method EmptyPacketStalls(seqNo: u16, stamp: u64, behind: seq<Rx.frame>, schedule: seq<nat>, packetBytes: nat,
                           dest: array<Value>, n: nat, format: Format) returns (first: nat, second: nat)
    requires packetBytes > HEADER_BYTES && packetBytes % 16 == 0 && 0 < 2 * n <= dest.Length
    requires |schedule| >= 2 && schedule[0] > 0 && schedule[1] > 0
    modifies dest
    ensures first == 0 && second == 0
  {
    hide Encode, Rx.Decode, Rx.Stream, Rx.Kept, Rx.Tiled, Rx.Folded, Rx.Rest, Rx.Accounted, Values;
    var ring := [Encode(EmptyPacket(seqNo, stamp))] + behind;
    var streamer := new Rx.M300RxStreamer(packetBytes, 1, ring, schedule);
    EmptyIsReceived(seqNo, stamp, packetBytes);
    assert streamer.setup.link.frames[0] == Rx.Decode(ring[0], packetBytes);
    var time;
    ghost var out;
    first, time, out := streamer.RecvSingle(dest, n, format);
    NothingTaken(streamer.place);
    second, time, out := streamer.RecvSingle(dest, n, format);
  }

  /** A link of two channels with two packets, two frames each. */
  ghost predicate TwoPackets(link: Rx.Link, a: seq<word>, b: seq<word>) {
    && link.channels == 2 && |link.frames| == 2 && |a| == |b| == 4
    && link.frames[0].Received? && link.frames[0].words == a && link.frames[1].Received? && link.frames[1].words == b
  }

  lemma TwoStreams(link: Rx.Link, a: seq<word>, b: seq<word>)
    requires TwoPackets(link, a, b)
    ensures Rx.Stream(link, 0) == [] && |Rx.Stream(link, 1)| == 4 && |Rx.Stream(link, 2)| == 8
    ensures forall j {:trigger Rx.Stream(link, 2)[j]} :: 0 <= j < 8 ==>
              Rx.Stream(link, 2)[j] == if j < 4 then Rx.Item(a[j], 0, j) else Rx.Item(b[j - 4], 1, j - 4)
    ensures Rx.EvenFrames(link) && Rx.FirstSilent(link, 0) == 2
  {
    assert Rx.Stream(link, 1) == Rx.Stream(link, 0) + Rx.ItemsOf(link, 0);
    assert Rx.Stream(link, 2) == Rx.Stream(link, 1) + Rx.ItemsOf(link, 1);
  }

  /** After one word the rest of the first packet is pending. */
  lemma AfterOneWord(s: Rx.Sound, a: seq<word>, b: seq<word>)
    requires TwoPackets(s.link, a, b) && |s.taken| == 1
    ensures s.k == 1 && s.pending.Loaded? && s.pending.offset == 1 && s.pending.words == a
    ensures Rx.Skew(s.pending) == 2 && !Rx.EvenPending(s.pending)
  {
    hide Rx.Kept, Rx.Tiled, Rx.Stream;
    TwoStreams(s.link, a, b);
    assert |Rx.Stream(s.link, s.k)| == 1 + |Rx.Rest(s.link, s.k, s.pending)|;
  }

  /** The words after the first one, if none is missing, are not in the halves that the read puts them in. */
  lemma FirstFiveAreMixed(items: seq<Rx.Item>, out: seq<Rx.Item>)
    requires |items| == 5 && |out| == 4 && items[3].index == 3
    ensures [items[0]] + out == items ==> !Rx.Straight(out, 2)
  {
    if [items[0]] + out == items {
      assert out[2] == ([items[0]] + out)[3];
    }
  }

  lemma MixedCount(s: Rx.Sound, t: Rx.Sound, out: seq<Rx.Item>, a: seq<word>, b: seq<word>)
    requires TwoPackets(t.link, a, b) && s.link == t.link && |s.taken| == 1 && s.delivered == s.taken
    requires t.delivered == s.delivered + out && |out| <= 4 && |t.taken| <= |out| + 2
    requires |out| < 4 ==> t.k == 2 && t.pending.Nothing? && |out| <= 2
    ensures var all := Rx.Stream(t.link, 2);
            |out| == 4 && 5 <= |t.taken| <= 6 && |t.taken| == |t.given| && t.taken <= all && |all| == 8 && Rx.Kept(t.taken, t.given) == [all[0]] + out
  {
    hide Rx.Kept, Rx.Tiled, Rx.Stream, Rx.AllMarked;
    TwoStreams(t.link, a, b);
    Rx.TakenIsPrefix(s);
    Rx.TakenIsPrefix(t);
    Rx.KeptAll(t.taken, t.given);
    assert |Rx.Stream(t.link, t.k)| == |t.taken| + |Rx.Rest(t.link, t.k, t.pending)|;
    assert s.taken == [Rx.Stream(t.link, 2)[0]];
  }

  lemma NeverStalled(s: Rx.Sound, a: seq<word>, b: seq<word>)
    requires TwoPackets(s.link, a, b)
    ensures !Rx.Stalled(s.pending) && s.k <= 2
  {
    hide Rx.Kept, Rx.Tiled, Rx.Stream;
  }

  /** What two frames of a two-buffer read are then. */
  lemma MixedWords(s: Rx.Sound, t: Rx.Sound, out: seq<Rx.Item>, a: seq<word>, b: seq<word>)
    requires TwoPackets(t.link, a, b) && s.link == t.link && |s.taken| == 1 && s.delivered == s.taken
    requires t.delivered == s.delivered + out && |out| <= 4 && |t.taken| <= |out| + 2 && Rx.Straight(out, 2)
    requires |out| < 4 ==> t.k == 2 && t.pending.Nothing? && |out| <= 2
    ensures Rx.Words(out) == [a[1], a[2], b[0], b[1]]
  {
    hide Rx.Accounted, Rx.Kept, Rx.Stream, Rx.Straight, Rx.Words, Rx.AllMarked;
    MixedCount(s, t, out, a, b);
    TwoStreams(t.link, a, b);
    var all := Rx.Stream(t.link, 2);
    Rx.KeptAll(t.taken, t.given);
    FirstFiveAreMixed(all[..5], out);
    assert t.taken == all[..|t.taken|];
    var d := Rx.KeptButOne(t.taken, t.given);
    OneMissing(all[..6], d, out, a, b);
  }

  /** Of the words from the second on, one is missing: by the halves they are in, it is the last of the first packet. */
  lemma OneMissing(items: seq<Rx.Item>, d: nat, out: seq<Rx.Item>, a: seq<word>, b: seq<word>)
    requires |a| == |b| == 4 && |items| == 6 && |out| == 4 && d < 6
    requires forall j {:trigger items[j]} :: 0 <= j < 6 ==> items[j] == if j < 4 then Rx.Item(a[j], 0, j) else Rx.Item(b[j - 4], 1, j - 4)
    requires [items[0]] + out == items[..d] + items[d + 1..] && Rx.Straight(out, 2)
    ensures Rx.Words(out) == [a[1], a[2], b[0], b[1]]
  {
    var left := items[..d] + items[d + 1..];
    assert forall j :: 0 <= j < 4 ==> out[j] == ([items[0]] + out)[j + 1] == left[j + 1] == items[if j + 1 < d then j + 1 else j + 2];
    assert out[0].index % 2 != 0 && out[1].index % 2 != 1 && out[2].index % 2 == 0 && out[3].index % 2 == 1;
    assert d == 3;
  }

  /**
   * Two packets of two frames, a and b, read with one buffer for one word and then with two buffers for two frames: the rest of a
   * is in the wrong buffers, its last word is lost, and b is where it belongs.
   */
  method OddReadMixes(a: seq<word>, b: seq<word>, seqNo: u16, stamp: u64, schedule: seq<nat>, packetBytes: nat,
                      dest: array<Value>, dest0: array<Value>, dest1: array<Value>, format: Format, hasAvx2: bool)
    requires |a| == |b| == 4 && packetBytes >= HEADER_BYTES + 16 && packetBytes % 16 == 0
    requires |schedule| >= 8 && Rx.Plenty(schedule, 0, 8)
    requires dest.Length >= 2 && dest0.Length >= 4 && dest1.Length >= 4 && dest0 != dest1
    modifies dest, dest0, dest1
    ensures dest0[..4] == Values(format, [a[1], b[0]]) && dest1[..4] == Values(format, [a[2], b[1]])
  {
    hide Encode, Rx.Decode, Rx.Stream, Rx.Kept, Rx.Tiled, Rx.Folded, Rx.Rest, Rx.Accounted, Rx.Straight, Rx.TimeOf, Rx.Given, Rx.Holds, Rx.HoldBoth, Values;
    var p, q := ReceivePacket(seqNo, stamp, a), ReceivePacket(seqNo, stamp, b);
    var ring := [Encode(p), Encode(q)];
    var streamer := new Rx.M300RxStreamer(packetBytes, 2, ring, schedule);
    ghost var link := streamer.setup.link;
    PacketIsReceived(p, packetBytes);
    PacketIsReceived(q, packetBytes);
    assert link.frames[0] == Rx.Decode(ring[0], packetBytes) && link.frames[1] == Rx.Decode(ring[1], packetBytes);
    TwoStreams(link, a, b);
    var total, time;
    ghost var out;
    total, time, out := streamer.RecvSingle(dest, 1, format);
    ghost var s := streamer.place;
    AfterOneWord(s, a, b);
    total, time, out := streamer.RecvDual(dest0, dest1, 2, format, hasAvx2);
    NeverStalled(streamer.place, a, b);
    MixedWords(s, streamer.place, out, a, b);
    assert Channel(Rx.Words(out), 0, 2) == [a[1], b[0]] && Channel(Rx.Words(out), 1, 2) == [a[2], b[1]];
  }

  /** Payloads one behind the other. */
  function Payloads(ps: seq<Packet>, k: nat): seq<word>
    requires k <= |ps|
  {
    if k == 0 then [] else Payloads(ps, k - 1) + ps[k - 1].payload
  }

  /** The ring's frames are these receive packets as they are printed. */
  ghost predicate Printed(ring: seq<Rx.frame>, ps: seq<Packet>, packetBytes: nat) {
    && |ps| == |ring| && packetBytes < 0x100_0000
    && forall i {:trigger ring[i]} :: 0 <= i < |ring| ==>
         ring[i] == Encode(ps[i]) && Sound(ps[i]) && ps[i].h.magic == MAGIC_RX && ps[i].h.length <= packetBytes
  }

  /** A ring of printed receive packets is the stream of their payloads. */
  lemma {:induction false} StreamIsPayloads(link: Rx.Link, ring: seq<Rx.frame>, packetBytes: nat, ps: seq<Packet>, k: nat)
    requires Rx.Decodes(link, ring, packetBytes) && Printed(ring, ps, packetBytes) && k <= |ps|
    ensures Rx.Words(Rx.Stream(link, k)) == Payloads(ps, k)
  {
    if k > 0 {
      StreamIsPayloads(link, ring, packetBytes, ps, k - 1);
      assert ring[k - 1] == Encode(ps[k - 1]);
      PacketIsReceived(ps[k - 1], packetBytes);
      assert link.frames[k - 1] == Rx.Decode(ring[k - 1], packetBytes);
      Rx.WordsAppend(Rx.Stream(link, k - 1), Rx.ItemsOf(link, k - 1));
      assert Rx.Words(Rx.ItemsOf(link, k - 1)) == ps[k - 1].payload;
    }
  }
}
