/** Matching control responses to commands over a channel that may lose, delay, duplicate and reorder. */
module ControlMatch {
  import opened M300Protocol

  const PACKET_TYPE_CTRL: nat := 0x5501
  const PACKET_TYPE_RESP: nat := 0x5502
  const CTRL_PACKET_BYTES: nat := 32
  const CTRL_PACKET_WORDS: nat := 8
  const READBACK_ADDR: nat := 0xFFFF

  /** sdr_header_t. */
  datatype CtrlHeader = CtrlHeader(magic: nat, seqNo: nat, sid: nat, length: nat, timestamp: u64)

  /** The field widths of sdr_header_t. */
  predicate FitsWidths(h: CtrlHeader) {
    h.magic < 0x1_0000 && h.seqNo < 0x1_0000 && h.sid < 0x100 && h.length < 0x1_0000_0000
  }

  /** Bitwise or. */
  function Or(a: nat, b: nat): nat {
    if a == 0 then b else if b == 0 then a else (if a % 2 == 1 || b % 2 == 1 then 1 else 0) + 2 * Or(a / 2, b / 2)
  }

  function PowerOfTwo(n: nat): nat {
    if n == 0 then 1 else 2 * PowerOfTwo(n - 1)
  }

  /** n-bit numbers or'ed are an n-bit number. */
  lemma {:induction false} OrBound(a: nat, b: nat, n: nat)
    requires a < PowerOfTwo(n) && b < PowerOfTwo(n)
    ensures Or(a, b) < PowerOfTwo(n)
  {
    if n > 0 && a != 0 && b != 0 {
      OrBound(a / 2, b / 2, n - 1);
    }
  }

  lemma ByteOr(a: nat, b: nat)
    requires a < 0x100 && b < 0x100
    ensures Or(a, b) < 0x100
  {
    assert PowerOfTwo(8) == 2 * (2 * (2 * (2 * PowerOfTwo(4)))) && PowerOfTwo(4) == 2 * (2 * (2 * (2 * PowerOfTwo(0))));
    OrBound(a, b, 8);
  }

  /** serialize_hdr: the stream id is or'ed into the top byte, over whatever the length has there. */
  function Serialize(h: CtrlHeader): (ws: seq<word>)
    requires FitsWidths(h)
    ensures |ws| == 4
  {
    ByteOr(h.sid, h.length / 0x100_0000);
    [Or(h.sid, h.length / 0x100_0000) * 0x100_0000 + h.length % 0x100_0000, h.magic * 0x1_0000 + h.seqNo,
     h.timestamp % 0x1_0000_0000, h.timestamp / 0x1_0000_0000]
  }

  /** Two words as one 64-bit number. */
  function Join(high: nat, low: nat): nat {
    high * 0x1_0000_0000 + low
  }

  /** deserialize_hdr. */
  function Deserialize(ws: seq<word>): CtrlHeader
    requires |ws| >= 4
  {
    CtrlHeader(ws[1] / 0x1_0000, ws[1] % 0x1_0000, ws[0] / 0x100_0000, ws[0] % 0x100_0000, Join(ws[3], ws[2]))
  }

  /** A header comes back as it was exactly when its length fits 24 bits. */
  lemma CtrlRoundTrip(h: CtrlHeader)
    requires FitsWidths(h)
    ensures Deserialize(Serialize(h)) == h <==> h.length < 0x100_0000
  {
    ByteOr(h.sid, h.length / 0x100_0000);
    var top := Or(h.sid, h.length / 0x100_0000);
    assert (top * 0x100_0000 + h.length % 0x100_0000) % 0x100_0000 == h.length % 0x100_0000;
    if h.length < 0x100_0000 {
      assert top == h.sid;
    }
  }

  /** What the device answers to a command. */
  datatype Answer = Answer(timestamp: u64, low: word, high: word)

  /** The packet that answers command j: the command's number modulo 65536 is all that names it. */
  function AnswerPacket(j: nat, sid: nat, status: word, rest: word, a: Answer): (p: seq<word>)
    requires sid < 0x100
    ensures |p| == CTRL_PACKET_WORDS
  {
    Serialize(CtrlHeader(PACKET_TYPE_RESP, j % 0x1_0000, sid, CTRL_PACKET_BYTES, a.timestamp)) + [status, a.low, a.high, rest]
  }

  /** The checks of wait_for_ack on a packet of `size` bytes in the receive buffer. */
  predicate Accepts(expected: nat, buffer: seq<word>, size: nat)
    requires |buffer| >= 4
  {
    var h := Deserialize(buffer);
    h.magic == PACKET_TYPE_RESP && h.seqNo == expected && h.length == CTRL_PACKET_BYTES && size >= CTRL_PACKET_BYTES
  }

  lemma AnswerHeader(j: nat, sid: nat, status: word, rest: word, a: Answer)
    requires sid < 0x100
    ensures Deserialize(AnswerPacket(j, sid, status, rest, a)) == CtrlHeader(PACKET_TYPE_RESP, j % 0x1_0000, sid, CTRL_PACKET_BYTES, a.timestamp)
  {
    var h := CtrlHeader(PACKET_TYPE_RESP, j % 0x1_0000, sid, CTRL_PACKET_BYTES, a.timestamp);
    CtrlRoundTrip(h);
    var p := AnswerPacket(j, sid, status, rest, a);
    assert p[..4] == Serialize(h) && Deserialize(p) == Deserialize(p[..4]);
  }

  /** Waiting for the answer to command k, the answer to command j is taken exactly when k - j is a multiple of 65536. */
  lemma AnswerTaken(j: nat, k: nat, sid: nat, status: word, rest: word, a: Answer)
    requires sid < 0x100 && j <= k
    ensures Accepts(k % 0x1_0000, AnswerPacket(j, sid, status, rest, a), CTRL_PACKET_BYTES) <==> (k - j) % 0x1_0000 == 0
  {
    AnswerHeader(j, sid, status, rest, a);
    SameLowBits(j, k);
  }

  lemma SameLowBits(j: nat, k: nat)
    requires j <= k
    ensures k % 0x1_0000 == j % 0x1_0000 <==> (k - j) % 0x1_0000 == 0
  {
  }

  /** A wait on the channel: nothing in time, or a packet of whole words. */
  datatype Arrival = TimeOut | Packet(words: seq<word>)

  /** words is an answer to command j that says a. */
  ghost predicate IsAnswer(words: seq<word>, j: nat, a: Answer) {
    exists sid: nat, status: word, rest: word :: sid < 0x100 && words == AnswerPacket(j, sid, status, rest, a)
  }

  lemma AnswerIs(j: nat, sid: nat, status: word, rest: word, a: Answer)
    requires sid < 0x100
    ensures AnswerPacket(j, sid, status, rest, a)
            == [sid * 0x100_0000 + 32, 0x5502 * 0x1_0000 + j % 0x1_0000, a.timestamp % 0x1_0000_0000, a.timestamp / 0x1_0000_0000]
               + [status, a.low, a.high, rest]
  {
    ByteOr(sid, 0);
  }

  /** Word for word: eight words, the length 32, the type and the command's number, the time low word first, and the value likewise. */
  lemma AnswerWords(words: seq<word>, j: nat, a: Answer)
    ensures IsAnswer(words, j, a) <==>
              && |words| == 8 && words[0] % 0x100_0000 == 32 && words[1] == 0x5502 * 0x1_0000 + j % 0x1_0000
              && words[2] == a.timestamp % 0x1_0000_0000 && words[3] == a.timestamp / 0x1_0000_0000
              && words[5] == a.low && words[6] == a.high
  {
    hide AnswerPacket;
    forall sid: nat, status: word, rest: word | sid < 0x100
      ensures AnswerPacket(j, sid, status, rest, a)
              == [sid * 0x100_0000 + 32, 0x5502 * 0x1_0000 + j % 0x1_0000, a.timestamp % 0x1_0000_0000, a.timestamp / 0x1_0000_0000]
                 + [status, a.low, a.high, rest]
    {
      AnswerIs(j, sid, status, rest, a);
    }
    if |words| == 8 && words[0] % 0x100_0000 == 32 {
      var sid := words[0] / 0x100_0000;
      assert words[0] == sid * 0x100_0000 + 32 && sid < 0x100;
      if words[1] == 0x5502 * 0x1_0000 + j % 0x1_0000 && words[5] == a.low && words[6] == a.high
         && words[2] == a.timestamp % 0x1_0000_0000 && words[3] == a.timestamp / 0x1_0000_0000 {
        assert words == AnswerPacket(j, sid, words[4], words[7], a);
      }
    }
  }

  /** What the device has answered to each command: nothing, once, or several times if the command was repeated on its way. */
  type Answers = nat -> set<Answer>

  ghost predicate Answered(words: seq<word>, j: nat, answers: Answers) {
    exists a :: a in answers(j) && IsAnswer(words, j, a)
  }

  /**
   * What may arrive while command k waits: packets that are no responses, and answers to this or earlier commands, as
   * often and in whatever order, none of them older than 65535 commands.
   */
  ghost predicate Plausible(words: seq<word>, k: nat, answers: Answers) {
    || |words| < CTRL_PACKET_WORDS
    || (|words| == CTRL_PACKET_WORDS && Deserialize(words).magic != PACKET_TYPE_RESP)
    || exists j: nat :: j <= k && k - j < 0x1_0000 && Answered(words, j, answers)
  }

  /** The first answer to command k says a, and comes in before anything ends the wait: a time-out, or a packet without a byte. */
  ghost predicate AnsweredInTime(arrivals: seq<Arrival>, k: nat, answers: Answers, a: Answer) {
    exists i {:trigger arrivals[i]} :: 0 <= i < |arrivals| && Quiet(arrivals, i, k, answers)
      && arrivals[i].Packet? && IsAnswer(arrivals[i].words, k, a) && a in answers(k)
  }

  /** Nothing among the first n arrivals ends the wait. */
  ghost predicate Quiet(arrivals: seq<Arrival>, n: nat, k: nat, answers: Answers) {
    && n <= |arrivals|
    && forall j {:trigger arrivals[j]} :: 0 <= j < n ==>
         arrivals[j].Packet? && arrivals[j].words != [] && !Answered(arrivals[j].words, k, answers)
  }

  /** Some answer comes in in time. */
  ghost predicate Answering(arrivals: seq<Arrival>, k: nat, answers: Answers) {
    exists a :: AnsweredInTime(arrivals, k, answers, a)
  }

  /** v is the value of the first answer that comes in in time. */
  ghost predicate Said(arrivals: seq<Arrival>, k: nat, answers: Answers, v: nat) {
    exists a :: AnsweredInTime(arrivals, k, answers, a) && v == a.high * 0x1_0000_0000 + a.low
  }

  /** t is its time. */
  ghost predicate Stamped(arrivals: seq<Arrival>, k: nat, answers: Answers, t: nat) {
    exists a :: AnsweredInTime(arrivals, k, answers, a) && t == a.timestamp
  }

  /** Likewise for its low word. */
  ghost predicate LowSaid(arrivals: seq<Arrival>, k: nat, answers: Answers, v: nat) {
    exists a :: AnsweredInTime(arrivals, k, answers, a) && v == a.low
  }

  lemma LowOfSaid(arrivals: seq<Arrival>, k: nat, answers: Answers, v: nat)
    requires Said(arrivals, k, answers, v)
    ensures LowSaid(arrivals, k, answers, v % 0x1_0000_0000)
  {
    hide AnsweredInTime;
    var a :| AnsweredInTime(arrivals, k, answers, a) && v == a.high * 0x1_0000_0000 + a.low;
    assert v % 0x1_0000_0000 == a.low;
  }

  /** No answer came in before the wait ended. */
  lemma NotAnswered(arrivals: seq<Arrival>, n: nat, k: nat, answers: Answers)
    requires Quiet(arrivals, n, k, answers)
    requires n < |arrivals| ==> arrivals[n].TimeOut? || (arrivals[n].words == [] && !Answered([], k, answers))
    ensures !Answering(arrivals, k, answers)
  {
    if Answering(arrivals, k, answers) {
      var a :| AnsweredInTime(arrivals, k, answers, a);
      var i :| 0 <= i < |arrivals| && Quiet(arrivals, i, k, answers)
        && arrivals[i].Packet? && IsAnswer(arrivals[i].words, k, a) && a in answers(k);
      assert Answered(arrivals[i].words, k, answers);
      assert false;
    }
  }

  /** The first answer came in as number n. */
  lemma AnsweredFirst(arrivals: seq<Arrival>, n: nat, k: nat, answers: Answers, a: Answer)
    requires n < |arrivals| && Quiet(arrivals, n, k, answers)
    requires arrivals[n].Packet? && IsAnswer(arrivals[n].words, k, a) && a in answers(k)
    ensures AnsweredInTime(arrivals, k, answers, a) && Answering(arrivals, k, answers)
    ensures Said(arrivals, k, answers, a.high * 0x1_0000_0000 + a.low) && Stamped(arrivals, k, answers, a.timestamp)
  {
    assert AnsweredInTime(arrivals, k, answers, a);
  }

  /** An answer to the command that waits is accepted. */
  lemma OwnIsAccepted(words: seq<word>, k: nat, answers: Answers)
    requires Answered(words, k, answers)
    ensures |words| == CTRL_PACKET_WORDS && Accepts(k % 0x1_0000, words, CTRL_PACKET_BYTES)
  {
    var a :| a in answers(k) && IsAnswer(words, k, a);
    var sid: nat, status: word, rest: word :| sid < 0x100 && words == AnswerPacket(k, sid, status, rest, a);
    AnswerTaken(k, k, sid, status, rest, a);
  }

  /** An accepted plausible packet is an answer to the very command that waits, and carries what that answer says. */
  lemma AcceptedIsOwn(words: seq<word>, k: nat, answers: Answers) returns (a: Answer)
    requires |words| == CTRL_PACKET_WORDS && Plausible(words, k, answers) && Accepts(k % 0x1_0000, words, CTRL_PACKET_BYTES)
    ensures a in answers(k) && IsAnswer(words, k, a) && words[5] == a.low && words[6] == a.high
    ensures Deserialize(words).timestamp == a.timestamp
  {
    var j: nat :| j <= k && k - j < 0x1_0000 && Answered(words, j, answers);
    a :| a in answers(j) && IsAnswer(words, j, a);
    var sid: nat, status: word, rest: word :| sid < 0x100 && words == AnswerPacket(j, sid, status, rest, a);
    AnswerTaken(j, k, sid, status, rest, a);
    AnswerHeader(j, sid, status, rest, a);
    assert k - j == 0;
  }

  /** The packet send_pkt64 builds: for a read the register goes where a write has its address. */
  function CommandPacket(seqNo: nat, sid: nat, addr: word, data: u64): (p: seq<word>)
    requires seqNo < 0x1_0000 && sid < 0x100
    ensures |p| == CTRL_PACKET_WORDS
  {
    var read := addr == READBACK_ADDR;
    Serialize(CtrlHeader(PACKET_TYPE_CTRL, seqNo, sid, CTRL_PACKET_BYTES, 0))
    + [if read then 0x1_0003 else 0x2_0002, if read then data % 0x1_0000_0000 else addr,
       if read then 0 else data % 0x1_0000_0000, if read then 0 else data / 0x1_0000_0000]
  }

  lemma CommandHeader(seqNo: nat, sid: nat, addr: word, data: u64)
    requires seqNo < 0x1_0000 && sid < 0x100
    ensures Deserialize(CommandPacket(seqNo, sid, addr, data)) == CtrlHeader(PACKET_TYPE_CTRL, seqNo, sid, CTRL_PACKET_BYTES, 0)
  {
    var h := CtrlHeader(PACKET_TYPE_CTRL, seqNo, sid, CTRL_PACKET_BYTES, 0);
    CtrlRoundTrip(h);
    var p := CommandPacket(seqNo, sid, addr, data);
    assert p[..4] == Serialize(h) && Deserialize(p) == Deserialize(p[..4]);
  }

  /** The words of a command: header, operation and kind, register, value. A read names its register in the data. */
  lemma CommandWords(seqNo: nat, sid: nat, addr: word, data: u64)
    requires seqNo < 0x1_0000 && sid < 0x100
    ensures CommandPacket(seqNo, sid, addr, data)
            == [sid * 0x100_0000 + 32, 0x5501 * 0x1_0000 + seqNo, 0, 0]
               + if addr == 0xFFFF then [0x1_0003, data % 0x1_0000_0000, 0, 0]
                 else [0x2_0002, addr, data % 0x1_0000_0000, data / 0x1_0000_0000]
  {
    ByteOr(sid, 0);
  }

  datatype Reply = Value(v: nat) | ControlTimeout

  class LocalCtrl {
    const sid: nat
    /** _tx_seq, 16 bits, and the number of commands it has counted. */
    var txSeq: nat
    ghost var commands: nat
    var rxSeq: nat
    var timestamp: u64
    var recvBuf: seq<word>
    /** What went out. */
    var wire: seq<seq<word>>

    ghost predicate Valid()
      reads this
    {
      sid < 0x100 && txSeq == commands % 0x1_0000 && |recvBuf| == CTRL_PACKET_WORDS
    }

    constructor (sid: nat, recvBuf: seq<word>)
      requires sid < 0x100 && |recvBuf| == CTRL_PACKET_WORDS
      ensures Valid() && commands == 0 && wire == []
    {
      this.sid, this.recvBuf := sid, recvBuf;
      txSeq, commands, rxSeq, timestamp, wire := 0, 0, 0, 0, [];
    }

    /** send_pkt64; granted says whether the transport had a send buffer. The number is used up either way. */
    method SendPkt64(addr: word, data: u64, granted: bool)
      requires Valid()
      modifies this
      ensures Valid() && commands == old(commands) + 1 && recvBuf == old(recvBuf)
      ensures wire == if granted then old(wire) + [CommandPacket(old(commands) % 0x1_0000, sid, addr, data)] else old(wire)
      ensures timestamp == old(timestamp) && rxSeq == old(rxSeq)
    {
      if granted {
        wire := wire + [CommandPacket(txSeq, sid, addr, data)];
      }
      NextSeq(commands);
      txSeq := (txSeq + 1) % 0x1_0000;
      commands := commands + 1;
    }

    /** wait_for_ack: packets that are not the answer to the last command are passed over. */
    method WaitForAck(readBack: bool, arrivals: seq<Arrival>, ghost answers: Answers) returns (r: Reply)
      requires Valid() && commands > 0
      requires forall i :: 0 <= i < |arrivals| && arrivals[i].Packet? ==>
                 |arrivals[i].words| <= CTRL_PACKET_WORDS && Plausible(arrivals[i].words, commands - 1, answers)
      modifies this
      ensures Valid() && commands == old(commands) && wire == old(wire)
      ensures r.Value? <==> Answering(arrivals, commands - 1, answers)
      ensures r.Value? ==> if readBack then Said(arrivals, commands - 1, answers, r.v) else r.v == 0
      ensures if r.Value? then Stamped(arrivals, commands - 1, answers, timestamp) && rxSeq == (commands - 1) % 0x1_0000
              else timestamp == old(timestamp) && rxSeq == old(rxSeq)
    {
      hide IsAnswer, Answered, Answering, Said, Stamped, Plausible, AnswerPacket, Deserialize;
      ghost var k := commands - 1;
      var expected := (txSeq + 0xFFFF) % 0x1_0000;
      ExpectedSeq(commands);
      for i := 0 to |arrivals|
        invariant Valid() && commands == old(commands) && wire == old(wire) && Quiet(arrivals, i, k, answers)
        invariant timestamp == old(timestamp) && rxSeq == old(rxSeq)
      {
        if arrivals[i].Packet? && Answered(arrivals[i].words, k, answers) {
          OwnIsAccepted(arrivals[i].words, k, answers);
        }
        if arrivals[i].TimeOut? || arrivals[i].words == [] {
          NotAnswered(arrivals, i, k, answers);
          return ControlTimeout;
        }
        var words := arrivals[i].words;
        recvBuf := words + recvBuf[|words|..];
        assert |words| == CTRL_PACKET_WORDS ==> recvBuf == words;
        var h := Deserialize(recvBuf);
        if h.magic != PACKET_TYPE_RESP || h.seqNo != expected || h.length != CTRL_PACKET_BYTES || 4 * |words| < CTRL_PACKET_BYTES {
          continue;
        }
        ghost var a := AcceptedIsOwn(words, k, answers);
        AnsweredFirst(arrivals, i, k, answers, a);
        timestamp, rxSeq := h.timestamp, h.seqNo;
        return Value(if readBack then Join(recvBuf[6], recvBuf[5]) else 0);
      }
      NotAnswered(arrivals, |arrivals|, k, answers);
      r := ControlTimeout;
    }

    /** peek64: the value returned is the device's answer to this very read. */
    method Peek64(addr: word, granted: bool, arrivals: seq<Arrival>, ghost answers: Answers) returns (r: Reply)
      requires Valid()
      requires forall i :: 0 <= i < |arrivals| && arrivals[i].Packet? ==>
                 |arrivals[i].words| <= CTRL_PACKET_WORDS && Plausible(arrivals[i].words, commands, answers)
      modifies this
      ensures Valid() && commands == old(commands) + 1
      ensures wire == if !granted then old(wire) else
                old(wire) + [[sid * 0x100_0000 + 32, 0x5501 * 0x1_0000 + old(commands) % 0x1_0000, 0, 0] + [0x1_0003, addr, 0, 0]]
      ensures r.Value? <==> Answering(arrivals, old(commands), answers)
      ensures r.Value? ==> Said(arrivals, old(commands), answers, r.v)
    {
      hide Answering, Said, Stamped;
      CommandWords(old(commands) % 0x1_0000, sid, READBACK_ADDR, addr);
      assert addr % 0x1_0000_0000 == addr;
      SendPkt64(READBACK_ADDR, addr, granted);
      r := WaitForAck(true, arrivals, answers);
    }

    /** peek32 keeps the low word. */
    method Peek32(addr: word, granted: bool, arrivals: seq<Arrival>, ghost answers: Answers) returns (r: Reply)
      requires Valid()
      requires forall i :: 0 <= i < |arrivals| && arrivals[i].Packet? ==>
                 |arrivals[i].words| <= CTRL_PACKET_WORDS && Plausible(arrivals[i].words, commands, answers)
      modifies this
      ensures Valid() && commands == old(commands) + 1
      ensures wire == if !granted then old(wire) else
                old(wire) + [[sid * 0x100_0000 + 32, 0x5501 * 0x1_0000 + old(commands) % 0x1_0000, 0, 0] + [0x1_0003, addr, 0, 0]]
      ensures r.Value? <==> Answering(arrivals, old(commands), answers)
      ensures r.Value? ==> LowSaid(arrivals, old(commands), answers, r.v)
    {
      r := Peek64(addr, granted, arrivals, answers);
      hide Answering, Said, LowSaid;
      if r.Value? {
        LowOfSaid(arrivals, old(commands), answers, r.v);
        r := Value(r.v % 0x1_0000_0000);
      }
    }

    /** poke32_ack_value and poke64_ack_value. */
    method PokeAckValue(addr: word, data: u64, granted: bool, arrivals: seq<Arrival>, ghost answers: Answers) returns (r: Reply)
      requires Valid()
      requires forall i :: 0 <= i < |arrivals| && arrivals[i].Packet? ==>
                 |arrivals[i].words| <= CTRL_PACKET_WORDS && Plausible(arrivals[i].words, commands, answers)
      modifies this
      ensures Valid() && commands == old(commands) + 1
      ensures wire == if !granted then old(wire) else
                old(wire) + [[sid * 0x100_0000 + 32, 0x5501 * 0x1_0000 + old(commands) % 0x1_0000, 0, 0]
                             + if addr == 0xFFFF then [0x1_0003, data % 0x1_0000_0000, 0, 0]
                               else [0x2_0002, addr, data % 0x1_0000_0000, data / 0x1_0000_0000]]
      ensures r.Value? <==> Answering(arrivals, old(commands), answers)
      ensures r.Value? ==> Said(arrivals, old(commands), answers, r.v)
    {
      hide Answering, Said, Stamped;
      CommandWords(old(commands) % 0x1_0000, sid, addr, data);
      SendPkt64(addr, data, granted);
      r := WaitForAck(true, arrivals, answers);
    }
  }

  lemma NextSeq(commands: nat)
    ensures (commands % 0x1_0000 + 1) % 0x1_0000 == (commands + 1) % 0x1_0000
  {
  }

  lemma ExpectedSeq(commands: nat)
    requires commands > 0
    ensures (commands % 0x1_0000 + 0xFFFF) % 0x1_0000 == (commands - 1) % 0x1_0000
  {
  }
}
