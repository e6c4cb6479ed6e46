/** The little-endian packet format of the M300: bytes, words, headers, and a stream parser. */
module M300Protocol {
  type byte = x: nat | x < 256
  type word = x: nat | x < 0x1_0000_0000
  type u64 = x: nat | x < 0x1_0000_0000_0000_0000

  const HEADER_BYTES: nat := 16
  const MAGIC_RX: nat := 0x5503
  const MAGIC_TX: nat := 0x5504

  datatype Header = Header(magic: nat, seqNo: nat, sid: nat, length: nat)

  /** The n low bytes of v, lowest first. */
  function Le(v: nat, n: nat): (s: seq<byte>)
    ensures |s| == n
  {
    if n == 0 then [] else [v % 256] + Le(v / 256, n - 1)
  }

  /** The number of two bytes, and of three. */
  function Two(low: nat, high: nat): nat {
    low + 0x100 * high
  }

  function Three(low: nat, middle: nat, high: nat): nat {
    low + 0x100 * middle + 0x1_0000 * high
  }

  /** The number that the bytes spell, lowest byte first (load_le64 on eight of them). */
  function Load(s: seq<byte>): (v: nat)
    ensures v < Range(|s|)
  {
    if s == [] then 0 else s[0] + 256 * Load(s[1..])
  }

  function Range(n: nat): (r: nat)
    ensures r > 0
  {
    if n == 0 then 1 else 256 * Range(n - 1)
  }

  lemma {:induction false} LoadStore(v: nat, n: nat)
    requires v < Range(n)
    ensures Load(Le(v, n)) == v
  {
    if n > 0 {
      LoadStore(v / 256, n - 1);
      assert Le(v, n)[1..] == Le(v / 256, n - 1);
    }
  }

  lemma LeCons(low: byte, rest: nat, n: nat)
    ensures Le(low + 256 * rest, n + 1) == [low] + Le(rest, n)
  {
    var v := low + 256 * rest;
    assert v % 256 == low && v / 256 == rest;
  }

  lemma {:induction false} StoreLoad(s: seq<byte>)
    ensures Le(Load(s), |s|) == s
  {
    if s != [] {
      StoreLoad(s[1..]);
      LeCons(s[0], Load(s[1..]), |s| - 1);
    }
  }

  lemma Ranges()
    ensures Range(4) == 0x1_0000_0000 && Range(8) == 0x1_0000_0000_0000_0000
  {
    assert Range(4) == 256 * (256 * (256 * (256 * Range(0))));
    assert Range(8) == 256 * (256 * (256 * (256 * Range(4))));
  }

  lemma LoadOfFour(a: byte, b: byte, c: byte, d: byte)
    ensures Load([a, b, c, d]) == a + 0x100 * b + 0x1_0000 * c + 0x100_0000 * d
  {
    assert [a, b, c, d][1..] == [b, c, d] && [b, c, d][1..] == [c, d] && [c, d][1..] == [d] && [d][1..] == [];
    assert Load([d]) == d && Load([c, d]) == c + 256 * Load([d]) && Load([b, c, d]) == b + 256 * Load([c, d]);
  }

  lemma Nested(x: nat, r: nat, y: nat)
    ensures 256 * (x + r * y) == 256 * x + 256 * r * y
  {
  }

  lemma {:induction false} LoadConcat(a: seq<byte>, b: seq<byte>)
    ensures Load(a + b) == Load(a) + Range(|a|) * Load(b)
  {
    if a == [] {
      assert a + b == b;
    } else {
      LoadConcat(a[1..], b);
      assert (a + b)[1..] == a[1..] + b;
      Nested(Load(a[1..]), Range(|a| - 1), Load(b));
    }
  }

  lemma LowBytes(n: nat)
    ensures n % 0x100 + 0x100 * (n / 0x100 % 0x100) + 0x1_0000 * (n / 0x1_0000 % 0x100) == n % 0x100_0000
    ensures n / 0x1_0000 / 0x100 == n / 0x100_0000
  {
    var a, m := n % 0x100, n / 0x100;
    var b, k := m % 0x100, m / 0x100;
    var c, q := k % 0x100, k / 0x100;
    assert n == a + 0x100 * b + 0x1_0000 * c + 0x100_0000 * q;
    assert n / 0x1_0000 == k;
    assert n % 0x100_0000 == a + 0x100 * b + 0x1_0000 * c;
  }

  /** The bytes of a word, and of a number of eight bytes: the low one first. */
  lemma FourBytes(w: word)
    ensures Le(w, 4) == [w % 0x100, w / 0x100 % 0x100, w / 0x1_0000 % 0x100, w / 0x100_0000]
  {
    var a: byte, b: byte, c: byte, d: byte := w % 0x100, w / 0x100 % 0x100, w / 0x1_0000 % 0x100, w / 0x100_0000;
    LowBytes(w);
    SpelledWord(w, a, b, c, d);
  }

  lemma SpelledWord(w: nat, a: byte, b: byte, c: byte, d: byte)
    requires w == a + 0x100 * b + 0x1_0000 * c + 0x100_0000 * d
    ensures Le(w, 4) == [a, b, c, d]
  {
    LoadOfFour(a, b, c, d);
    StoreLoad([a, b, c, d]);
  }

  lemma EightBytes(v: nat)
    requires v < 0x1_0000_0000_0000_0000
    ensures Le(v, 8) == Le(v % 0x1_0000_0000, 4) + Le(v / 0x1_0000_0000, 4)
  {
    hide Load, Le, Range;
    var low, high := v % 0x1_0000_0000, v / 0x1_0000_0000;
    Ranges();
    LoadStore(low, 4);
    LoadStore(high, 4);
    LoadConcat(Le(low, 4), Le(high, 4));
    StoreLoad(Le(low, 4) + Le(high, 4));
  }

  /** write_header's 64-bit value; the length keeps 24 bits. */
  function Raw(h: Header): nat {
    h.length % 0x100_0000 + 0x100_0000 * (h.sid + 0x100 * (h.seqNo + 0x1_0000 * h.magic))
  }

  /** parse_header, on the 64-bit value. */
  function ParseRaw(raw: nat): Header {
    Header(raw / 0x100_0000 / 0x100 / 0x1_0000 % 0x1_0000, raw / 0x100_0000 / 0x100 % 0x1_0000,
           raw / 0x100_0000 % 0x100, raw % 0x100_0000)
  }

  predicate Fits(h: Header) {
    h.magic < 0x1_0000 && h.seqNo < 0x1_0000 && h.sid < 0x100
  }

  /** Printing and parsing a header loses nothing but the high bits of a length of 16 MiB or more. */
  lemma HeaderRoundTrip(h: Header)
    requires Fits(h)
    ensures Raw(h) < 0x1_0000_0000_0000_0000
    ensures ParseRaw(Raw(h)) == h.(length := h.length % 0x100_0000)
    ensures ParseRaw(Raw(h)) == h <==> h.length < 0x100_0000
  {
    var top := h.sid + 0x100 * (h.seqNo + 0x1_0000 * h.magic);
    assert Raw(h) / 0x100_0000 == top;
    assert top / 0x100 == h.seqNo + 0x1_0000 * h.magic;
  }

  /** Every 64-bit value is the value of the header that it parses to. */
  lemma RawOfParsed(raw: u64)
    ensures Raw(ParseRaw(raw)) == raw && Fits(ParseRaw(raw)) && ParseRaw(raw).length < 0x100_0000
  {
    var top := raw / 0x100_0000;
    assert raw == raw % 0x100_0000 + 0x100_0000 * top;
    assert top == top % 0x100 + 0x100 * (top / 0x100);
    assert top / 0x100 == top / 0x100 % 0x1_0000 + 0x1_0000 * (top / 0x100 / 0x1_0000);
  }

  /** The eight bytes of a header: length, stream id, number, type, each with its low byte first. */
  lemma HeaderBytes(h: Header)
    requires Fits(h)
    ensures Le(Raw(h), 8) == [h.length % 0x100, h.length / 0x100 % 0x100, h.length / 0x1_0000 % 0x100, h.sid,
                              h.seqNo % 0x100, h.seqNo / 0x100, h.magic % 0x100, h.magic / 0x100]
  {
    var low: seq<byte> := [h.length % 0x100, h.length / 0x100 % 0x100, h.length / 0x1_0000 % 0x100, h.sid];
    var high: seq<byte> := [h.seqNo % 0x100, h.seqNo / 0x100, h.magic % 0x100, h.magic / 0x100];
    LoadOfFour(low[0], low[1], low[2], low[3]);
    LoadOfFour(high[0], high[1], high[2], high[3]);
    LowBytes(h.length);
    Ranges();
    LoadConcat(low, high);
    assert Load(low + high) == Raw(h);
    StoreLoad(low + high);
  }

  /** What eight bytes parse to. */
  lemma ParsedBytes(s: seq<byte>)
    requires |s| == 8
    ensures ParseRaw(Load(s)) == Header(Two(s[6], s[7]), Two(s[4], s[5]), s[3], Three(s[0], s[1], s[2]))
  {
    hide ParseRaw, Raw, Load, Le, Two, Three;
    Ranges();
    var h := ParseRaw(Load(s));
    RawOfParsed(Load(s));
    StoreLoad(s);
    HeaderBytes(h);
    LengthIs(h.length);
    Halves(h.seqNo);
    Halves(h.magic);
  }

  lemma LengthIs(n: nat)
    requires n < 0x100_0000
    ensures Three(n % 0x100, n / 0x100 % 0x100, n / 0x1_0000 % 0x100) == n
  {
    LowBytes(n);
  }

  lemma Halves(n: nat)
    ensures Two(n % 0x100, n / 0x100) == n
  {
  }

  function WordBytes(ws: seq<word>): (s: seq<byte>)
    ensures |s| == 4 * |ws|
  {
    if ws == [] then [] else WordBytes(ws[..|ws| - 1]) + Le(ws[|ws| - 1], 4)
  }

  function WordsOf(s: seq<byte>): (ws: seq<word>)
    ensures |ws| == |s| / 4
  {
    Ranges();
    if |s| < 4 then [] else [Load(s[..4])] + WordsOf(s[4..])
  }

  lemma WordBytesAppend(ws: seq<word>, w: word)
    ensures WordBytes(ws + [w]) == WordBytes(ws) + Le(w, 4)
  {
    assert (ws + [w])[..|ws|] == ws;
  }

  lemma {:induction false} WordBytesConcat(a: seq<word>, b: seq<word>)
    ensures WordBytes(a + b) == WordBytes(a) + WordBytes(b)
  {
    if b == [] {
      assert a + b == a;
    } else {
      var front, last := b[..|b| - 1], b[|b| - 1];
      WordBytesConcat(a, front);
      assert a + b == a + front + [last];
      OneMoreWord(a, front, last);
      assert b == front + [last];
    }
  }

  lemma OneMoreWord(a: seq<word>, front: seq<word>, last: word)
    requires WordBytes(a + front) == WordBytes(a) + WordBytes(front)
    ensures WordBytes(a + front + [last]) == WordBytes(a) + WordBytes(front + [last])
  {
    WordBytesAppend(a + front, last);
    WordBytesAppend(front, last);
    hide WordBytes, Le;
    Assoc(WordBytes(a), WordBytes(front), Le(last, 4));
  }

  lemma {:induction false} WordsRoundTrip(ws: seq<word>)
    ensures WordsOf(WordBytes(ws)) == ws
  {
    if ws != [] {
      var bytes := WordBytes(ws);
      assert ws == [ws[0]] + ws[1..];
      WordBytesConcat([ws[0]], ws[1..]);
      assert [ws[0]][..0] == [];
      assert bytes[..4] == Le(ws[0], 4) && bytes[4..] == WordBytes(ws[1..]);
      Ranges();
      LoadStore(ws[0], 4);
      WordsRoundTrip(ws[1..]);
    }
  }

  datatype Packet = Packet(h: Header, timestamp: u64, payload: seq<word>)

  /** A packet in memory: header, timestamp, payload words. */
  function Encode(p: Packet): (s: seq<byte>)
    ensures |s| == HEADER_BYTES + 4 * |p.payload|
  {
    Le(Raw(p.h), 8) + Le(p.timestamp, 8) + WordBytes(p.payload)
  }

  lemma {:induction false} WordBytesAt(ws: seq<word>, j: nat)
    requires j < |ws|
    ensures WordBytes(ws)[4 * j..4 * j + 4] == Le(ws[j], 4)
  {
    var n := |ws| - 1;
    if j < n {
      WordBytesAt(ws[..n], j);
      assert WordBytes(ws)[4 * j..4 * j + 4] == WordBytes(ws[..n])[4 * j..4 * j + 4];
    }
  }

  /** The four bytes of a word, low byte first. */
  predicate Spells(bytes: seq<byte>, w: word) {
    |bytes| == 4 && bytes[0] == w % 0x100 && bytes[1] == w / 0x100 % 0x100 && bytes[2] == w / 0x1_0000 % 0x100 && bytes[3] == w / 0x100_0000
  }

  /**
   * Where everything is in a packet's bytes: three bytes of length, the stream id, two bytes each of number and type, eight of
   * time, and four for each payload word, always with the low byte first.
   */
  lemma EncodedBytes(p: Packet)
    requires Fits(p.h)
    ensures var e, h := Encode(p), p.h;
            && e[..4] == [h.length % 0x100, h.length / 0x100 % 0x100, h.length / 0x1_0000 % 0x100, h.sid]
            && e[4..8] == [h.seqNo % 0x100, h.seqNo / 0x100, h.magic % 0x100, h.magic / 0x100]
            && Spells(e[8..12], p.timestamp % 0x1_0000_0000) && Spells(e[12..16], p.timestamp / 0x1_0000_0000)
            && forall j {:trigger p.payload[j]} :: 0 <= j < |p.payload| ==> Spells(e[16 + 4 * j..20 + 4 * j], p.payload[j])
  {
    var e := Encode(p);
    HeaderBytes(p.h);
    EightBytes(p.timestamp);
    FourBytes(p.timestamp % 0x1_0000_0000);
    FourBytes(p.timestamp / 0x1_0000_0000);
    assert e[..8] == Le(Raw(p.h), 8) && e[8..16] == Le(p.timestamp, 8);
    assert e[..4] == e[..8][..4] && e[4..8] == e[..8][4..] && e[8..12] == e[8..16][..4] && e[12..16] == e[8..16][4..];
    forall j {:trigger p.payload[j]} | 0 <= j < |p.payload| ensures Spells(e[16 + 4 * j..20 + 4 * j], p.payload[j]) {
      WordBytesAt(p.payload, j);
      FourBytes(p.payload[j]);
      assert e[16 + 4 * j..20 + 4 * j] == WordBytes(p.payload)[4 * j..4 * j + 4];
    }
  }

  /** Packets one behind the other. */
  function Print(ps: seq<Packet>): seq<byte> {
    if ps == [] then [] else Print(ps[..|ps| - 1]) + Encode(ps[|ps| - 1])
  }

  /** Splitting a byte stream packet by packet, by the length field of each header; stops where that makes no sense. */
  function ParseStream(s: seq<byte>): seq<Packet> {
    Ranges();
    if |s| < HEADER_BYTES then []
    else
      var h := ParseRaw(Load(s[..8]));
      if h.length < HEADER_BYTES || h.length > |s| then []
      else [Packet(h, Load(s[8..16]), WordsOf(s[16..h.length]))] + ParseStream(s[h.length..])
  }

  /** The header's fields have their widths and its length is that of the packet. */
  predicate Sound(p: Packet) {
    Fits(p.h) && p.h.length == HEADER_BYTES + 4 * |p.payload|
  }

  /** A packet printed in front of any stream is parsed off again, as it was, unless it is 16 MiB or longer. */
  lemma ParsesFirst(p: Packet, rest: seq<byte>)
    requires Sound(p)
    ensures var parsed := ParseStream(Encode(p) + rest);
            if p.h.length < 0x100_0000 then parsed == [p] + ParseStream(rest) else parsed == [] || parsed[0] != p
  {
    var s := Encode(p) + rest;
    HeaderRoundTrip(p.h);
    Ranges();
    LoadStore(Raw(p.h), 8);
    LoadStore(p.timestamp, 8);
    assert s[..8] == Le(Raw(p.h), 8) && s[8..16] == Le(p.timestamp, 8);
    if p.h.length < 0x100_0000 {
      WordsRoundTrip(p.payload);
      assert s[16..p.h.length] == WordBytes(p.payload) && s[p.h.length..] == rest;
    }
  }

  lemma PrintAppend(ps: seq<Packet>, p: Packet)
    ensures Print(ps + [p]) == Print(ps) + Encode(p)
  {
    assert (ps + [p])[..|ps|] == ps;
  }

  lemma Assoc(a: seq<byte>, b: seq<byte>, c: seq<byte>)
    ensures a + b + c == a + (b + c)
  {
  }

  lemma {:induction false} PrintConcat(a: seq<Packet>, b: seq<Packet>)
    ensures Print(a + b) == Print(a) + Print(b)
  {
    if b == [] {
      assert a + b == a;
    } else {
      var front, last := b[..|b| - 1], b[|b| - 1];
      PrintConcat(a, front);
      PrintAppend(a + front, last);
      assert a + b == a + front + [last];
      Assoc(Print(a), Print(front), Encode(last));
    }
  }

  lemma PrintFront(p: Packet, ps: seq<Packet>)
    ensures Print([p] + ps) == Encode(p) + Print(ps)
  {
    PrintConcat([p], ps);
    PrintAppend([], p);
    assert [] + [p] == [p];
  }

  /** Splitting what was printed gives the packets back, exactly when each length fits its 24 bits. */
  lemma {:induction false} PrintParses(ps: seq<Packet>)
    requires forall p :: p in ps ==> Sound(p)
    ensures ParseStream(Print(ps)) == ps <==> forall p :: p in ps ==> p.h.length < 0x100_0000
  {
    if ps != [] {
      assert ps == [ps[0]] + ps[1..];
      PrintFront(ps[0], ps[1..]);
      ParsesFirst(ps[0], Print(ps[1..]));
      PrintParses(ps[1..]);
      if ParseStream(Print(ps)) == ps {
        assert ps[0].h.length < 0x100_0000;
        assert ([ps[0]] + ParseStream(Print(ps[1..])))[1..] == ParseStream(Print(ps[1..]));
      }
    }
  }

  /** store_le64 and store_le32, byte by byte: extends the bytes written so far. */
  method Store(p: array<byte>, at: nat, v: nat, n: nat)
    requires at + n <= p.Length
    modifies p
    ensures p[..at + n] == old(p[..at]) + Le(v, n)
  {
    var rest := v;
    ghost var done: seq<byte> := [];
    for k := 0 to n
      invariant |done| == k && p[..at + k] == old(p[..at]) + done
      invariant done + Le(rest, n - k) == Le(v, n)
    {
      p[at + k] := rest % 256;
      assert done + Le(rest, n - k) == (done + [rest % 256]) + Le(rest / 256, n - k - 1);
      assert p[..at + k + 1] == p[..at + k] + [rest % 256];
      done := done + [rest % 256];
      rest := rest / 256;
    }
    assert done == Le(v, n);
  }

  /** Storing words one after another, as a vector store does with its lanes and the scalar loop with its channels. */
  method StoreWords(p: array<byte>, at: nat, ws: seq<word>)
    requires at + 4 * |ws| <= p.Length
    modifies p
    ensures p[..at + 4 * |ws|] == old(p[..at]) + WordBytes(ws)
  {
    ghost var before, done: seq<word> := p[..at], [];
    for k := 0 to |ws|
      invariant done == ws[..k]
      invariant p[..at + 4 * k] == before + WordBytes(done)
    {
      Store(p, at + 4 * k, ws[k], 4);
      WordBytesAppend(done, ws[k]);
      assert before + WordBytes(done) + Le(ws[k], 4) == before + (WordBytes(done) + Le(ws[k], 4));
      done := done + [ws[k]];
    }
    assert ws[..|ws|] == ws;
  }
}
