/** The 16-bit packet numbers of the M300 receive stream and the loss count kept from them. */
module M300Sequence {
  type u16 = x: nat | x < 0x1_0000

  datatype Continuity = Continuity(have: bool, expected: u16, jumps: nat, packets: nat, lost: nat, last: u16)

  const FRESH: Continuity := Continuity(false, 0, 0, 0, 0, 0)

  /** note_packet_sequence. */
  function Note(c: Continuity, first: u16, count: nat): Continuity {
    if count == 0 then c
    else
      var gap := if c.have then (first - c.expected) % 0x1_0000 else 0;
      Continuity(true, (first + count) % 0x1_0000, if gap != 0 then c.jumps + 1 else c.jumps,
                 c.packets + count, c.lost + gap, (first + count - 1) % 0x1_0000)
  }

  /** A notification: `count` consecutive packets, the first of them number `position` of an endless count. */
  datatype Notice = Notice(position: nat, count: nat)

  /** The position after a notice. */
  function After(n: Notice): nat {
    n.position + n.count
  }

  /** Notices of at least one packet each, in order. */
  ghost predicate InOrder(ns: seq<Notice>) {
    && (forall i {:trigger ns[i]} :: 0 <= i < |ns| ==> ns[i].count > 0)
    && (forall i, j {:trigger ns[i], ns[j]} :: 0 <= i < j < |ns| ==> After(ns[i]) <= ns[j].position)
  }

  /** The 16 bits a packet carries of its number. */
  function NumberOf(n: nat): u16 {
    n % 0x1_0000
  }

  /** What the counters say after the notices: each carries the low 16 bits of its position. */
  function Counted(ns: seq<Notice>): Continuity {
    if ns == [] then FRESH
    else
      var n := ns[|ns| - 1];
      Note(Counted(ns[..|ns| - 1]), NumberOf(n.position), n.count)
  }

  /** Packets that a gap of 65536 or more hides from 16 bits. */
  function Hidden(ns: seq<Notice>): nat
    requires InOrder(ns)
  {
    if |ns| <= 1 then 0
    else
      var gap := ns[|ns| - 1].position - After(ns[|ns| - 2]);
      Hidden(ns[..|ns| - 1]) + Whole(gap)
  }

  /** The part of a gap that 16 bits do not see. */
  function Whole(gap: nat): (w: nat)
    ensures w + gap % 0x1_0000 == gap && (w == 0 <==> gap < 0x1_0000)
  {
    gap - gap % 0x1_0000
  }

  lemma Difference(a: nat, b: nat)
    requires a >= b
    ensures (a % 0x1_0000 - b % 0x1_0000) % 0x1_0000 == (a - b) % 0x1_0000
  {
  }

  lemma LowSum(a: nat, n: nat)
    ensures (a % 0x1_0000 + n) % 0x1_0000 == (a + n) % 0x1_0000
  {
  }

  /** The first notice. */
  lemma NoteFirst(position: nat, count: nat)
    requires count > 0
    ensures var r := Note(FRESH, NumberOf(position), count); r.have && r.expected == NumberOf(position + count) && r.packets + r.lost == count
  {
    LowSum(position, count);
  }

  /** One more notice. */
  lemma NoteMore(c: Continuity, position: nat, count: nat, end: nat)
    requires count > 0 && c.have && c.expected == NumberOf(end) && end <= position
    ensures var r := Note(c, NumberOf(position), count);
            && r.have && r.expected == NumberOf(position + count)
            && r.packets + r.lost + Whole(position - end) == c.packets + c.lost + position + count - end
  {
    LowSum(position, count);
    Difference(position, end);
  }

  /** Received and lost packets add up to the distance covered, less what the gaps hide. */
  lemma {:induction false} CountsDistance(ns: seq<Notice>)
    requires InOrder(ns) && ns != []
    ensures var c, end := Counted(ns), After(ns[|ns| - 1]);
            && c.have && c.expected == NumberOf(end)
            && c.packets + c.lost + Hidden(ns) == end - ns[0].position
  {
    hide Note, NumberOf, Whole;
    var k := |ns| - 1;
    if k == 0 {
      assert Counted(ns[..0]) == FRESH;
      NoteFirst(ns[0].position, ns[0].count);
    } else {
      CountsDistance(ns[..k]);
      NoteMore(Counted(ns[..k]), ns[k].position, ns[k].count, After(ns[k - 1]));
    }
  }

  /** Packets missing before notice i. */
  function Gap(ns: seq<Notice>, i: nat): int
    requires 0 < i < |ns|
  {
    ns[i].position - After(ns[i - 1])
  }

  /** Every gap is below 65536 packets. */
  predicate SmallGaps(ns: seq<Notice>) {
    |ns| <= 1 || (SmallGaps(ns[..|ns| - 1]) && Gap(ns, |ns| - 1) < 0x1_0000)
  }

  lemma {:induction false} HiddenIsZero(ns: seq<Notice>)
    requires InOrder(ns)
    ensures Hidden(ns) == 0 <==> SmallGaps(ns)
  {
    if |ns| > 1 {
      var k := |ns| - 1;
      HiddenIsZero(ns[..k]);
      assert Gap(ns, k) >= 0;
    }
  }

  /** packets + lost_packets is the true distance exactly when every gap is below 65536 packets. */
  lemma LossCountIsExact(ns: seq<Notice>)
    requires InOrder(ns) && ns != []
    ensures Counted(ns).packets + Counted(ns).lost == After(ns[|ns| - 1]) - ns[0].position <==> SmallGaps(ns)
  {
    CountsDistance(ns);
    HiddenIsZero(ns);
  }

  /** A notice does not carry the number that the one before it leads to expect. */
  predicate Jumped(ns: seq<Notice>, i: nat)
    requires 0 < i < |ns|
  {
    (ns[i].position - (ns[i - 1].position + ns[i - 1].count)) % 0x1_0000 != 0
  }

  ghost function Jumps(ns: seq<Notice>): set<nat> {
    set i: nat | 0 < i < |ns| && Jumped(ns, i)
  }

  lemma JumpsMore(ns: seq<Notice>)
    requires |ns| > 1
    ensures var k := |ns| - 1; |Jumps(ns)| == |Jumps(ns[..k])| + if Jumped(ns, k) then 1 else 0
  {
    var k := |ns| - 1;
    assert forall i :: 0 < i < k ==> Jumped(ns, i) == Jumped(ns[..k], i);
    assert Jumps(ns) == Jumps(ns[..k]) + if Jumped(ns, k) then {k} else {};
  }

  lemma NoJumps(ns: seq<Notice>)
    requires |ns| == 1
    ensures |Jumps(ns)| == 0
  {
    assert Jumps(ns) == {};
  }

  lemma NoteFirstJumps(position: nat, count: nat)
    requires count > 0
    ensures var r := Note(FRESH, NumberOf(position), count); r.jumps == 0 && r.last == (position + count - 1) % 0x1_0000
  {
    LowSum(position, count - 1);
  }

  lemma NoteJumps(c: Continuity, position: nat, count: nat, end: nat)
    requires count > 0 && c.have && c.expected == NumberOf(end) && end <= position
    ensures var r := Note(c, NumberOf(position), count);
            r.jumps == c.jumps + (if (position - end) % 0x1_0000 != 0 then 1 else 0) && r.last == (position + count - 1) % 0x1_0000
  {
    LowSum(position, count - 1);
    Difference(position, end);
  }

  /** The jumps are counted, and the last number is that of the last packet noted. */
  lemma {:induction false} JumpsAreCounted(ns: seq<Notice>)
    requires InOrder(ns) && ns != []
    ensures var last := ns[|ns| - 1];
            Counted(ns).jumps == |Jumps(ns)| && Counted(ns).last == (last.position + last.count - 1) % 0x1_0000
  {
    hide Jumps, Note, NumberOf;
    var k := |ns| - 1;
    if k == 0 {
      assert Counted(ns[..0]) == FRESH;
      NoteFirstJumps(ns[0].position, ns[0].count);
      NoJumps(ns);
    } else {
      JumpsAreCounted(ns[..k]);
      CountsDistance(ns[..k]);
      NoteJumps(Counted(ns[..k]), ns[k].position, ns[k].count, After(ns[k - 1]));
      JumpsMore(ns);
    }
  }
}
