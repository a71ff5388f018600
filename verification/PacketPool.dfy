/**
 * The byte pool behind a packet ring: init_ring_buffer and valid_RNG of ring.c, and what
 * tx_io and rx_io of workers.c write into its slots.
 */
module PacketPool {
  import opened Bytes
  import opened Checksum

  const HEADER: nat := 0xf01abcde

  /** 0xcafeface as it lies in memory on a little-endian machine. */
  const FOOTER: seq<byte> := [0xce, 0xfa, 0xfe, 0xca]

  /** The encapsulating Ethernet and IPv4 headers that every slot is filled with in advance. */
  datatype Headers = Headers(eth: seq<byte>, ip: seq<byte>)

  predicate ValidHeaders(h: Headers) {
    |h.eth| == ETH_HDRLEN && |h.ip| == IP4_HDRLEN
  }

  // Offsets within a slot of the IPv4 fields the workers touch.
  const TOT_LEN := 16
  const CHECK := 24
  const SADDR := 26

  // ----- Offsets -----

  function Base(bsz: nat, i: nat): nat {
    i * bsz
  }

  lemma SlotsApart(bsz: nat, i: nat, j: nat)
    requires i < j
    ensures Base(bsz, i + 1) == Base(bsz, i) + bsz
    ensures Base(bsz, i) + bsz <= Base(bsz, j)
  {
    assert (i + 1) * bsz <= j * bsz;
  }

  /** The checksum that tx_io computes reads past its slot, but never past the pool's spare block. */
  lemma EncapsulationFits(bsz: nat, rsz: nat, i: nat)
    requires bsz >= ETHIP4 + 4 && i < rsz
    ensures Base(bsz, i) + 2 * ETHIP4 <= Base(bsz, rsz + 1)
    ensures Base(bsz, i) + bsz <= Base(bsz, rsz + 1)
  {
    SlotsApart(bsz, i, rsz);
    SlotsApart(bsz, rsz, rsz + 1);
  }

  /** bytes laid over the pool at an offset. */
  function Put(pool: seq<byte>, at: nat, bytes: seq<byte>): (r: seq<byte>)
    requires at + |bytes| <= |pool|
    ensures |r| == |pool|
    ensures forall x :: 0 <= x < |pool| ==> r[x] == if at <= x < at + |bytes| then bytes[x - at] else pool[x]
  {
    pool[..at] + bytes + pool[at + |bytes|..]
  }

  function LittleEndian16(v: int): (r: seq<byte>)
    ensures |r| == 2
  {
    [v % 0x100, v / 0x100 % 0x100]
  }

  function LittleEndianWord(low: byte, high: byte): word {
    low as int + 0x100 * high as int
  }

  /** n 16-bit words as the machine reads them from the pool. */
  function WordsAt(pool: seq<byte>, at: nat, n: nat): (ws: seq<word>)
    requires at + 2 * n <= |pool|
    ensures |ws| == n
  {
    seq(n, k requires 0 <= k < n => LittleEndianWord(pool[at + 2 * k], pool[at + 2 * k + 1]))
  }

  // ----- Layout -----

  /** The pool has a block for each slot and one more. */
  predicate Shaped(pool: seq<byte>, bsz: nat, rsz: nat) {
    bsz >= ETHIP4 + 4 && |pool| == Base(bsz, rsz + 1)
  }

  /** Slot i's block: the bytes from its frame pointer through its footer. */
  function Block(pool: seq<byte>, bsz: nat, rsz: nat, i: nat): (r: seq<byte>)
    requires Shaped(pool, bsz, rsz) && i < rsz
    ensures |r| == bsz
  {
    SlotsApart(bsz, i, rsz + 1);
    pool[Base(bsz, i)..Base(bsz, i) + bsz]
  }

  /** valid_RNG's second half; its first is the slot record's own header word. */
  predicate FooterIntact(pool: seq<byte>, bsz: nat, rsz: nat, i: nat)
    requires Shaped(pool, bsz, rsz) && i < rsz
  {
    Block(pool, bsz, rsz, i)[bsz - 4..] == FOOTER
  }

  predicate AllIntact(pool: seq<byte>, bsz: nat, rsz: nat)
    requires Shaped(pool, bsz, rsz)
  {
    forall i: nat :: i < rsz ==> FooterIntact(pool, bsz, rsz, i)
  }

  function Zeros(n: nat): (r: seq<byte>)
    ensures |r| == n
  {
    seq(n, _ => 0)
  }

  /** A slot as init_ring_buffer leaves it. */
  function FreshBlock(h: Headers, chunks: nat): (r: seq<byte>)
    requires ValidHeaders(h) && chunks >= ETHIP4
    ensures |r| == chunks + 4
  {
    h.eth + h.ip + Zeros(chunks - ETHIP4) + FOOTER
  }

  lemma FreshIsThreeWrites(pool: seq<byte>, base: nat, bsz: nat, h: Headers)
    requires bsz >= ETHIP4 + 4 && base + bsz <= |pool| && ValidHeaders(h)
    requires pool[base..base + bsz] == Zeros(bsz)
    ensures Put(Put(Put(pool, base + bsz - 4, FOOTER), base, h.eth), base + ETH_HDRLEN, h.ip) ==
            Put(pool, base, FreshBlock(h, bsz - 4))
  {
    var a := Put(Put(Put(pool, base + bsz - 4, FOOTER), base, h.eth), base + ETH_HDRLEN, h.ip);
    var block := FreshBlock(h, bsz - 4);
    forall x | base <= x < base + bsz ensures a[x] == block[x - base] {
      assert pool[x] == pool[base..base + bsz][x - base] == 0;
    }
  }

  /** Byte by byte: headers, zeros, and 0xcafeface with its low byte first. */
  lemma FreshBytes(h: Headers, chunks: nat)
    requires ValidHeaders(h) && chunks >= ETHIP4
    ensures var block := FreshBlock(h, chunks);
            && block[..14] == h.eth && block[14..34] == h.ip
            && (forall k :: 34 <= k < chunks ==> block[k] == 0)
            && block[chunks..] == [0xce, 0xfa, 0xfe, 0xca]
  {
  }

  predicate Blank(pool: seq<byte>, bsz: nat, rsz: nat)
    requires Shaped(pool, bsz, rsz)
  {
    forall j: nat :: j < rsz ==> Block(pool, bsz, rsz, j) == Zeros(bsz)
  }

  /** The slots below i are prepared, the others still blank. */
  predicate PreparedBelow(pool: seq<byte>, bsz: nat, rsz: nat, h: Headers, i: nat)
    requires Shaped(pool, bsz, rsz) && ValidHeaders(h)
  {
    forall j: nat :: j < rsz ==>
      Block(pool, bsz, rsz, j) == if j < i then FreshBlock(h, bsz - 4) else Zeros(bsz)
  }

  lemma WholeBlock(pool: seq<byte>, bsz: nat, rsz: nat, i: nat, block: seq<byte>, j: nat)
    requires Shaped(pool, bsz, rsz) && i < rsz && j < rsz && |block| == bsz
    ensures Base(bsz, i) + bsz <= |pool|
    ensures Block(Put(pool, Base(bsz, i), block), bsz, rsz, j) == if j == i then block else Block(pool, bsz, rsz, j)
  {
    EncapsulationFits(bsz, rsz, i);
    EncapsulationFits(bsz, rsz, j);
    if i < j {
      SlotsApart(bsz, i, j);
    } else if j < i {
      SlotsApart(bsz, j, i);
    }
  }

  lemma PrepareOneMore(pool: seq<byte>, bsz: nat, rsz: nat, h: Headers, i: nat)
    requires Shaped(pool, bsz, rsz) && ValidHeaders(h) && i < rsz && PreparedBelow(pool, bsz, rsz, h, i)
    ensures Base(bsz, i) + bsz <= |pool|
    ensures PreparedBelow(Put(pool, Base(bsz, i), FreshBlock(h, bsz - 4)), bsz, rsz, h, i + 1)
  {
    EncapsulationFits(bsz, rsz, i);
    var next := Put(pool, Base(bsz, i), FreshBlock(h, bsz - 4));
    forall j: nat | j < rsz
      ensures Block(next, bsz, rsz, j) == if j < i + 1 then FreshBlock(h, bsz - 4) else Zeros(bsz)
    {
      WholeBlock(pool, bsz, rsz, i, FreshBlock(h, bsz - 4), j);
    }
  }

  lemma PreparedIntact(pool: seq<byte>, bsz: nat, rsz: nat, h: Headers)
    requires Shaped(pool, bsz, rsz) && ValidHeaders(h) && PreparedBelow(pool, bsz, rsz, h, rsz)
    ensures AllIntact(pool, bsz, rsz)
    ensures forall j: nat :: j < rsz ==> KeepsTemplate(Block(pool, bsz, rsz, j), h)
  {
    var block := FreshBlock(h, bsz - 4);
    assert block[bsz - 4..] == FOOTER;
    assert block[..ETHIP4] == h.eth + h.ip;
    assert block[TOT_LEN + 2..CHECK] == block[..ETHIP4][TOT_LEN + 2..CHECK];
    assert block[CHECK + 2..ETHIP4] == block[..ETHIP4][CHECK + 2..];
    assert block[..TOT_LEN] == block[..ETHIP4][..TOT_LEN];
  }

  // ----- Fills -----

  datatype Fill = TxFill(slot: nat, payload: seq<byte>) | RxFill(slot: nat, frame: seq<byte>)

  /** Reads are bounded by mtu: less the headers when sending, in full when receiving. */
  predicate ValidFill(f: Fill, mtu: nat, rsz: nat) {
    match f
    case TxFill(i, p) => i < rsz && |p| <= mtu - ETHIP4
    case RxFill(i, frame) => i < rsz && |frame| <= mtu
  }

  /** The frame that tx_io makes of a slot's header bytes: length and check set, payload behind. */
  function Encapsulation(header: seq<byte>, payload: seq<byte>, check: word): (r: seq<byte>)
    requires |header| == ETHIP4
    ensures |r| == ETHIP4 + |payload|
  {
    header[..TOT_LEN] + LittleEndian16(|payload| + IP4_HDRLEN)
    + header[TOT_LEN + 2..CHECK] + LittleEndian16(check)
    + header[CHECK + 2..] + payload
  }

  lemma EncapsulationParts(header: seq<byte>, payload: seq<byte>, check: word)
    requires |header| == ETHIP4
    ensures var r := Encapsulation(header, payload, check);
            && r[..TOT_LEN] == header[..TOT_LEN]
            && r[TOT_LEN..TOT_LEN + 2] == LittleEndian16(|payload| + IP4_HDRLEN)
            && r[TOT_LEN + 2..CHECK] == header[TOT_LEN + 2..CHECK]
            && r[CHECK..CHECK + 2] == LittleEndian16(check)
            && r[CHECK + 2..ETHIP4] == header[CHECK + 2..]
            && r[ETHIP4..] == payload
  {
    var r := Encapsulation(header, payload, check);
    var front := header[..TOT_LEN] + LittleEndian16(|payload| + IP4_HDRLEN);
    var middle := header[TOT_LEN + 2..CHECK] + LittleEndian16(check);
    assert r == front + (middle + (header[CHECK + 2..] + payload));
    assert r[TOT_LEN + 2..CHECK] == middle[..CHECK - TOT_LEN - 2];
  }

  /** tx_io's check word: the checksum of ten words from 14 bytes into the new payload. */
  function CheckWord(pool: seq<byte>, base: nat, payload: seq<byte>): word
    requires base + ETHIP4 + |payload| <= |pool| && base + 2 * ETHIP4 <= |pool|
  {
    Csum(WordsAt(Put(pool, base + ETHIP4, payload), base + ETHIP4 + ETH_HDRLEN, IP4_HDRLEN / 2))
  }

  /** What a fill lays over the front of its slot: an encapsulated payload or a received frame. */
  function FillBytes(pool: seq<byte>, bsz: nat, rsz: nat, f: Fill): (r: seq<byte>)
    requires Shaped(pool, bsz, rsz) && ValidFill(f, bsz - 4, rsz)
    ensures |r| <= bsz - 4
  {
    EncapsulationFits(bsz, rsz, f.slot);
    match f
    case TxFill(i, payload) =>
      var base := Base(bsz, i);
      Encapsulation(pool[base..base + ETHIP4], payload, CheckWord(pool, base, payload))
    case RxFill(i, frame) => frame
  }

  function Filled(pool: seq<byte>, bsz: nat, rsz: nat, f: Fill): (r: seq<byte>)
    requires Shaped(pool, bsz, rsz) && ValidFill(f, bsz - 4, rsz)
    ensures |r| == |pool|
  {
    EncapsulationFits(bsz, rsz, f.slot);
    Put(pool, Base(bsz, f.slot), FillBytes(pool, bsz, rsz, f))
  }

  predicate ValidFills(fills: seq<Fill>, mtu: nat, rsz: nat) {
    forall k :: 0 <= k < |fills| ==> ValidFill(fills[k], mtu, rsz)
  }

  function AllFilled(pool: seq<byte>, bsz: nat, rsz: nat, fills: seq<Fill>): (r: seq<byte>)
    requires Shaped(pool, bsz, rsz) && ValidFills(fills, bsz - 4, rsz)
    ensures |r| == |pool|
    decreases |fills|
  {
    if fills == [] then pool else AllFilled(Filled(pool, bsz, rsz, fills[0]), bsz, rsz, fills[1..])
  }

  /** Bytes laid over the front of a slot change no other slot, and not the slot's own footer. */
  lemma PutStaysInside(pool: seq<byte>, bsz: nat, rsz: nat, i: nat, bytes: seq<byte>, j: nat)
    requires Shaped(pool, bsz, rsz) && i < rsz && j < rsz && |bytes| <= bsz - 4
    ensures Base(bsz, i) + bsz <= |pool|
    ensures var r := Put(pool, Base(bsz, i), bytes);
            var was := Block(pool, bsz, rsz, j);
            Block(r, bsz, rsz, j) == if j == i then bytes + was[|bytes|..] else was
  {
    EncapsulationFits(bsz, rsz, i);
    EncapsulationFits(bsz, rsz, j);
    if i < j {
      SlotsApart(bsz, i, j);
    } else if j < i {
      SlotsApart(bsz, j, i);
    }
  }

  lemma FillStaysInside(pool: seq<byte>, bsz: nat, rsz: nat, f: Fill, j: nat)
    requires Shaped(pool, bsz, rsz) && ValidFill(f, bsz - 4, rsz) && j < rsz
    ensures var r := Filled(pool, bsz, rsz, f);
            && (j != f.slot ==> Block(r, bsz, rsz, j) == Block(pool, bsz, rsz, j))
            && (FooterIntact(r, bsz, rsz, j) <==> FooterIntact(pool, bsz, rsz, j))
  {
    var bytes := FillBytes(pool, bsz, rsz, f);
    PutStaysInside(pool, bsz, rsz, f.slot, bytes, j);
    KeepsEnd(bytes, Block(pool, bsz, rsz, j), bsz);
  }

  lemma KeepsEnd(bytes: seq<byte>, block: seq<byte>, bsz: nat)
    requires |block| == bsz && |bytes| + 4 <= bsz
    ensures (bytes + block[|bytes|..])[bsz - 4..] == block[bsz - 4..]
  {
  }

  /** Footers survive every run of fills. */
  lemma {:induction false} FootersSurvive(pool: seq<byte>, bsz: nat, rsz: nat, fills: seq<Fill>)
    requires Shaped(pool, bsz, rsz) && AllIntact(pool, bsz, rsz) && ValidFills(fills, bsz - 4, rsz)
    ensures AllIntact(AllFilled(pool, bsz, rsz, fills), bsz, rsz)
    decreases |fills|
  {
    if fills != [] {
      var next := Filled(pool, bsz, rsz, fills[0]);
      forall j: nat | j < rsz ensures FooterIntact(next, bsz, rsz, j) {
        FillStaysInside(pool, bsz, rsz, fills[0], j);
      }
      FootersSurvive(next, bsz, rsz, fills[1..]);
    }
  }

  /** The header bytes that sending never changes: all but total length and checksum. */
  predicate KeepsTemplate(block: seq<byte>, h: Headers)
    requires ValidHeaders(h) && |block| >= ETHIP4
  {
    && block[..TOT_LEN] == (h.eth + h.ip)[..TOT_LEN]
    && block[TOT_LEN + 2..CHECK] == (h.eth + h.ip)[TOT_LEN + 2..CHECK]
    && block[CHECK + 2..ETHIP4] == (h.eth + h.ip)[CHECK + 2..]
  }

  lemma EncapsulationKeepsTemplate(block: seq<byte>, h: Headers, payload: seq<byte>, check: word, rest: seq<byte>)
    requires ValidHeaders(h) && |block| >= ETHIP4 && KeepsTemplate(block, h)
    ensures KeepsTemplate(Encapsulation(block[..ETHIP4], payload, check) + rest, h)
  {
    var r := Encapsulation(block[..ETHIP4], payload, check);
    EncapsulationParts(block[..ETHIP4], payload, check);
    var e := r + rest;
    assert e[..TOT_LEN] == r[..TOT_LEN] == block[..TOT_LEN];
    assert e[TOT_LEN + 2..CHECK] == r[TOT_LEN + 2..CHECK] == block[TOT_LEN + 2..CHECK];
    assert e[CHECK + 2..ETHIP4] == r[CHECK + 2..ETHIP4] == block[CHECK + 2..ETHIP4];
  }

  /** In a sender's ring the rest of the header template survives every run of fills. */
  lemma {:induction false} TemplateSurvives(pool: seq<byte>, bsz: nat, rsz: nat, fills: seq<Fill>, h: Headers, j: nat)
    requires Shaped(pool, bsz, rsz) && ValidFills(fills, bsz - 4, rsz) && ValidHeaders(h) && j < rsz
    requires forall k :: 0 <= k < |fills| ==> fills[k].TxFill?
    requires KeepsTemplate(Block(pool, bsz, rsz, j), h)
    ensures KeepsTemplate(Block(AllFilled(pool, bsz, rsz, fills), bsz, rsz, j), h)
    decreases |fills|
  {
    if fills != [] {
      TxKeepsTemplate(pool, bsz, rsz, fills[0], h, j);
      TemplateSurvives(Filled(pool, bsz, rsz, fills[0]), bsz, rsz, fills[1..], h, j);
    }
  }

  lemma TxKeepsTemplate(pool: seq<byte>, bsz: nat, rsz: nat, f: Fill, h: Headers, j: nat)
    requires Shaped(pool, bsz, rsz) && ValidFill(f, bsz - 4, rsz) && f.TxFill? && ValidHeaders(h) && j < rsz
    requires KeepsTemplate(Block(pool, bsz, rsz, j), h)
    ensures KeepsTemplate(Block(Filled(pool, bsz, rsz, f), bsz, rsz, j), h)
  {
    var bytes := FillBytes(pool, bsz, rsz, f);
    PutStaysInside(pool, bsz, rsz, f.slot, bytes, j);
    if j == f.slot {
      EncapsulationFits(bsz, rsz, j);
      var base, block := Base(bsz, j), Block(pool, bsz, rsz, j);
      var check := CheckWord(pool, base, f.payload);
      assert pool[base..base + ETHIP4] == block[..ETHIP4];
      assert bytes == Encapsulation(block[..ETHIP4], f.payload, check);
      EncapsulationKeepsTemplate(block, h, f.payload, check, block[|bytes|..]);
    }
  }

  /** Ten 16-bit words, low byte first, from 14 bytes on. */
  function TenWords(bytes: seq<byte>): (ws: seq<word>)
    requires |bytes| >= 34
    ensures |ws| == 10
    ensures forall k :: 0 <= k < 10 ==> ws[k] == bytes[14 + 2 * k] as int + 0x100 * (bytes[15 + 2 * k] as int)
  {
    seq(10, k requires 0 <= k < 10 =>
      bytes[14 + 2 * k] as int + 0x100 * (bytes[15 + 2 * k] as int))
  }

  /**
   * Byte by byte what tx_io leaves in a slot for a payload: the total length at 16 with its low
   * byte first, at 24 the complement of the one's-complement sum of ten words that begin 14
   * bytes into the payload (not into the header) and run on into what lies behind it, the
   * payload at 34, and everything else as it was.
   */
  lemma SentBytes(pool: seq<byte>, bsz: nat, rsz: nat, i: nat, payload: seq<byte>)
    requires Shaped(pool, bsz, rsz) && ValidFill(TxFill(i, payload), bsz - 4, rsz)
    ensures i * bsz + 68 <= |pool| && i * bsz + 34 + |payload| <= |pool|
    ensures var was, now := Block(pool, bsz, rsz, i), Block(Filled(pool, bsz, rsz, TxFill(i, payload)), bsz, rsz, i);
            && now[16] as int + 0x100 * (now[17] as int) == (|payload| + 20) % 0x1_0000
            && now[24] as int + 0x100 * (now[25] as int) ==
               0xffff - OnesSum(TenWords(payload + pool[i * bsz + 34 + |payload|..]))
            && now[34..34 + |payload|] == payload
            && (forall k :: 0 <= k < 34 && k != 16 && k != 17 && k != 24 && k != 25 ==> now[k] == was[k])
            && (forall k :: 34 + |payload| <= k < bsz ==> now[k] == was[k])
  {
    EncapsulationFits(bsz, rsz, i);
    var check := CheckWord(pool, Base(bsz, i), payload);
    assert check == 0xffff - OnesSum(TenWords(payload + pool[i * bsz + 34 + |payload|..])) by {
      CheckIsOnesSum(pool, Base(bsz, i), payload);
    }
    FilledBlock(pool, bsz, rsz, i, payload);
    HeaderBytes(Block(pool, bsz, rsz, i), payload, check);
  }

  lemma FilledBlock(pool: seq<byte>, bsz: nat, rsz: nat, i: nat, payload: seq<byte>)
    requires Shaped(pool, bsz, rsz) && ValidFill(TxFill(i, payload), bsz - 4, rsz)
    ensures Base(bsz, i) + 2 * ETHIP4 <= |pool| && Base(bsz, i) + ETHIP4 + |payload| <= |pool|
    ensures var block := Block(pool, bsz, rsz, i);
            Block(Filled(pool, bsz, rsz, TxFill(i, payload)), bsz, rsz, i) ==
            Encapsulation(block[..ETHIP4], payload, CheckWord(pool, Base(bsz, i), payload))
            + block[ETHIP4 + |payload|..]
  {
    EncapsulationFits(bsz, rsz, i);
    var base, block := Base(bsz, i), Block(pool, bsz, rsz, i);
    assert pool[base..base + ETHIP4] == block[..ETHIP4];
    PutStaysInside(pool, bsz, rsz, i, Encapsulation(block[..ETHIP4], payload, CheckWord(pool, base, payload)), i);
  }

  lemma HeaderBytes(was: seq<byte>, payload: seq<byte>, check: word)
    requires |was| >= ETHIP4 + |payload|
    ensures var now := Encapsulation(was[..ETHIP4], payload, check) + was[ETHIP4 + |payload|..];
            && |now| == |was|
            && now[16] as int + 0x100 * (now[17] as int) == (|payload| + 20) % 0x1_0000
            && now[24] as int + 0x100 * (now[25] as int) == check
            && now[34..34 + |payload|] == payload
            && (forall k :: 0 <= k < 34 && k != 16 && k != 17 && k != 24 && k != 25 ==> now[k] == was[k])
            && (forall k :: 34 + |payload| <= k < |was| ==> now[k] == was[k])
  {
    LowAndHigh(|payload| + 20);
    LowAndHigh(check);
  }

  lemma LowAndHigh(v: nat)
    ensures v % 0x100 + 0x100 * (v / 0x100 % 0x100) == v % 0x1_0000
  {
    var q := v / 0x100;
    assert v == 0x1_0000 * (q / 0x100) + (0x100 * (q % 0x100) + v % 0x100);
  }

  lemma CheckIsOnesSum(pool: seq<byte>, base: nat, payload: seq<byte>)
    requires base + ETHIP4 + |payload| <= |pool| && base + 2 * ETHIP4 <= |pool|
    ensures CheckWord(pool, base, payload) == 0xffff - OnesSum(TenWords(payload + pool[base + 34 + |payload|..]))
  {
    var after := Put(pool, base + ETHIP4, payload);
    var seen := payload + pool[base + 34 + |payload|..];
    var ws := WordsAt(after, base + ETHIP4 + ETH_HDRLEN, IP4_HDRLEN / 2);
    assert ws == TenWords(seen);
    CsumIsRfc1071UpTo65538(ws);
  }

  // ----- From one end of the tunnel to the other -----

  /** tx: send the frame and payload of a slot whose length is above 14 bytes, else nothing. */
  function Sends(pool: seq<byte>, bsz: nat, rsz: nat, i: nat, len: int): Option<Frame>
    requires Shaped(pool, bsz, rsz) && i < rsz && len + ETHIP4 + 4 <= bsz
  {
    if len > 14 then Some(Block(pool, bsz, rsz, i)[..len + ETHIP4]) else None
  }

  /** rx_io: keep what was read if the slot now shows the peer's source address. */
  predicate Accepts(pool: seq<byte>, bsz: nat, rsz: nat, i: nat, got: int, peer: seq<byte>)
    requires Shaped(pool, bsz, rsz) && i < rsz
  {
    got >= 1 && Block(pool, bsz, rsz, i)[SADDR..SADDR + 4] == peer
  }

  /** rx: write the payload of a slot whose length is above 14 bytes, else nothing. */
  function Writes(pool: seq<byte>, bsz: nat, rsz: nat, i: nat, len: int): Option<seq<byte>>
    requires Shaped(pool, bsz, rsz) && i < rsz && len + ETHIP4 + 4 <= bsz
  {
    if len > 14 then Some(Block(pool, bsz, rsz, i)[ETHIP4..ETHIP4 + len]) else None
  }

  /** A frame read into a slot: what the receiver passes on of it, and whose it takes it for. */
  lemma Receiving(pool: seq<byte>, bsz: nat, rsz: nat, i: nat, frame: Frame, peer: seq<byte>)
    requires Shaped(pool, bsz, rsz) && ValidFill(RxFill(i, frame), bsz - 4, rsz)
    ensures var r := Filled(pool, bsz, rsz, RxFill(i, frame));
            && (Accepts(r, bsz, rsz, i, |frame|, peer) <==>
                  |frame| >= 1 && (frame + Block(pool, bsz, rsz, i)[|frame|..])[26..30] == peer)
            && (|frame| >= 30 ==> (Accepts(r, bsz, rsz, i, |frame|, peer) <==> frame[26..30] == peer))
            && Block(r, bsz, rsz, i)[..|frame|] == frame
            && Writes(r, bsz, rsz, i, |frame| - 34) == if |frame| > 48 then Some(frame[34..]) else None
  {
    PutStaysInside(pool, bsz, rsz, i, frame, i);
    var block := frame + Block(pool, bsz, rsz, i)[|frame|..];
    if |frame| >= 30 {
      assert block[26..30] == frame[26..30];
    }
    if |frame| > ETHIP4 + 14 {
      assert block[ETHIP4..|frame|] == frame[ETHIP4..];
    }
  }

  /** A payload put into a slot that shows the sender's headers: the frame that goes out. */
  lemma Sending(pool: seq<byte>, bsz: nat, rsz: nat, i: nat, payload: seq<byte>, h: Headers)
    requires Shaped(pool, bsz, rsz) && ValidFill(TxFill(i, payload), bsz - 4, rsz) && ValidHeaders(h)
    requires KeepsTemplate(Block(pool, bsz, rsz, i), h)
    ensures var r := Filled(pool, bsz, rsz, TxFill(i, payload));
            var frame := Block(r, bsz, rsz, i)[..|payload| + ETHIP4];
            && Sends(r, bsz, rsz, i, |payload|) == (if |payload| > 14 then Some(frame) else None)
            && frame[26..30] == h.ip[12..16]
            && frame[34..] == payload
  {
    EncapsulationFits(bsz, rsz, i);
    var base, block := Base(bsz, i), Block(pool, bsz, rsz, i);
    assert pool[base..base + ETHIP4] == block[..ETHIP4];
    var check := CheckWord(pool, base, payload);
    var bytes := Encapsulation(block[..ETHIP4], payload, check);
    PutStaysInside(pool, bsz, rsz, i, bytes, i);
    EncapsulationParts(block[..ETHIP4], payload, check);
    assert (bytes + block[|bytes|..])[..|payload| + ETHIP4] == bytes;
    assert bytes[SADDR..SADDR + 4] == bytes[CHECK + 2..ETHIP4][..4];
    assert block[..ETHIP4][CHECK + 2..] == block[CHECK + 2..ETHIP4];
    assert (h.eth + h.ip)[CHECK + 2..][..4] == h.ip[12..16];
  }

  /**
   * Encapsulation round trip. Sender and receiver have the same mtu, bsz - 4. For every
   * payload that fits, whatever the two slots held before: a payload of at most 14 bytes is
   * not sent; any other goes out in a frame that the receiver accepts exactly when its peer
   * is the sender's source address, and from which it writes exactly the payload.
   */
  lemma RoundTrip(pool: seq<byte>, rsz: nat, i: nat, far: seq<byte>, rsz': nat, j: nat,
                  bsz: nat, payload: seq<byte>, h: Headers, peer: seq<byte>)
    requires Shaped(pool, bsz, rsz) && ValidFill(TxFill(i, payload), bsz - 4, rsz) && ValidHeaders(h)
    requires Shaped(far, bsz, rsz') && j < rsz'
    requires KeepsTemplate(Block(pool, bsz, rsz, i), h)
    ensures var sent := Sends(Filled(pool, bsz, rsz, TxFill(i, payload)), bsz, rsz, i, |payload|);
            && (sent.None? <==> |payload| <= 14)
            && (sent.Some? ==>
                  var frame := sent.value;
                  && ValidFill(RxFill(j, frame), bsz - 4, rsz')
                  && var got := Filled(far, bsz, rsz', RxFill(j, frame));
                     && (Accepts(got, bsz, rsz', j, |frame|, peer) <==>
                           peer == h.ip[12..16])
                     && Writes(got, bsz, rsz', j, |frame| - 34) == Some(payload))
  {
    Sending(pool, bsz, rsz, i, payload, h);
    var sent := Sends(Filled(pool, bsz, rsz, TxFill(i, payload)), bsz, rsz, i, |payload|);
    if sent.Some? {
      Receiving(far, bsz, rsz', j, sent.value, peer);
    }
  }

  /** Payload, length and check written one after the other are the encapsulation written at once. */
  lemma ThreeWrites(pool: seq<byte>, base: nat, payload: seq<byte>, check: word)
    requires base + ETHIP4 + |payload| <= |pool|
    ensures var a := Put(pool, base + ETHIP4, payload);
            var b := Put(a, base + TOT_LEN, LittleEndian16(|payload| + IP4_HDRLEN));
            Put(b, base + CHECK, LittleEndian16(check)) ==
            Put(pool, base, Encapsulation(pool[base..base + ETHIP4], payload, check))
  {
  }

  // ----- The pool in place -----

  class Pool {
    const bsz: nat
    const rsz: nat
    const bytes: array<byte>
    const headers: array<nat>

    ghost predicate Valid()
      reads this, bytes, headers
    {
      && Shaped(bytes[..], bsz, rsz)
      && headers.Length == rsz
    }

    constructor (bsz: nat, rsz: nat)
      requires bsz >= ETHIP4 + 4
      ensures Valid() && this.bsz == bsz && this.rsz == rsz
      ensures Blank(bytes[..], bsz, rsz)
      ensures fresh(bytes) && fresh(headers)
    {
      this.bsz := bsz;
      this.rsz := rsz;
      bytes := new byte[Base(bsz, rsz + 1)](_ => 0);
      headers := new nat[rsz](_ => 0);
      new;
      forall j: nat | j < rsz ensures Block(bytes[..], bsz, rsz, j) == Zeros(bsz) {
        EncapsulationFits(bsz, rsz, j);
      }
    }

    method Copy(at: nat, src: seq<byte>)
      requires at + |src| <= bytes.Length
      modifies bytes
      ensures bytes[..] == Put(old(bytes[..]), at, src)
    {
      for k := 0 to |src|
        invariant bytes[..] == Put(old(bytes[..]), at, src[..k])
      {
        bytes[at + k] := src[k];
      }
      assert src[..|src|] == src;
    }

    method ValidRng(i: nat) returns (ok: bool)
      requires Valid() && i < rsz
      ensures ok <==> headers[i] == HEADER && FooterIntact(bytes[..], bsz, rsz, i)
    {
      SlotsApart(bsz, i, rsz + 1);
      var foot := Base(bsz, i + 1) - 4;
      assert bytes[foot..foot + 4] == Block(bytes[..], bsz, rsz, i)[bsz - 4..];
      ok := headers[i] == HEADER && bytes[foot..foot + 4] == FOOTER;
    }

    /** One turn of init_ring_buffer's first loop: footer, Ethernet header, IPv4 header. */
    method PrepareSlot(i: nat, h: Headers)
      requires Valid() && i < rsz && ValidHeaders(h) && Block(bytes[..], bsz, rsz, i) == Zeros(bsz)
      modifies bytes, headers
      ensures Valid() && headers[..] == old(headers[..])[i := HEADER]
      ensures Base(bsz, i) + bsz <= bytes.Length
      ensures bytes[..] == Put(old(bytes[..]), Base(bsz, i), FreshBlock(h, bsz - 4))
    {
      EncapsulationFits(bsz, rsz, i);
      assert bytes[..][Base(bsz, i)..Base(bsz, i) + bsz] == Zeros(bsz);
      FreshIsThreeWrites(bytes[..], Base(bsz, i), bsz, h);
      ghost var pool, base := bytes[..], Base(bsz, i);
      headers[i] := HEADER;
      assert Base(bsz, i + 1) == base + bsz by { SlotsApart(bsz, i, i + 1); }
      assert bytes[..] == pool;
      Copy(Base(bsz, i + 1) - 4, FOOTER);
      assert bytes[..] == Put(pool, base + bsz - 4, FOOTER);
      Copy(Base(bsz, i), h.eth);
      Copy(Base(bsz, i) + ETH_HDRLEN, h.ip);
    }

    /** init_ring_buffer's first loop. */
    method PrepareAll(h: Headers)
      requires Valid() && ValidHeaders(h) && Blank(bytes[..], bsz, rsz)
      modifies bytes, headers
      ensures Valid() && PreparedBelow(bytes[..], bsz, rsz, h, rsz)
      ensures forall j :: 0 <= j < rsz ==> headers[j] == HEADER
    {
      for i := 0 to rsz
        invariant Valid() && PreparedBelow(bytes[..], bsz, rsz, h, i)
        invariant forall j :: 0 <= j < i ==> headers[j] == HEADER
      {
        PrepareOneMore(bytes[..], bsz, rsz, h, i);
        PrepareSlot(i, h);
      }
    }

    /** init_ring_buffer's last loop: does every slot validate? */
    method ValidateAll() returns (ok: bool)
      requires Valid()
      ensures ok <==> AllIntact(bytes[..], bsz, rsz) && forall i :: 0 <= i < rsz ==> headers[i] == HEADER
    {
      for i := 0 to rsz
        invariant forall j: nat :: j < i ==> headers[j] == HEADER && FooterIntact(bytes[..], bsz, rsz, j)
      {
        var valid := ValidRng(i);
        if !valid {
          return false;
        }
      }
      return true;
    }

    /** tx_io's writes, in its order. */
    method FillForSending(i: nat, payload: seq<byte>)
      requires Valid() && ValidFill(TxFill(i, payload), bsz - 4, rsz)
      modifies bytes
      ensures Valid() && bytes[..] == Filled(old(bytes[..]), bsz, rsz, TxFill(i, payload))
    {
      EncapsulationFits(bsz, rsz, i);
      var base := Base(bsz, i);
      ghost var before := bytes[..];
      Copy(base + ETHIP4, payload);
      Copy(base + TOT_LEN, LittleEndian16(|payload| + IP4_HDRLEN));
      var words := WordsAt(bytes[..], base + ETHIP4 + ETH_HDRLEN, IP4_HDRLEN / 2);
      assert words == WordsAt(Put(before, base + ETHIP4, payload), base + ETHIP4 + ETH_HDRLEN, IP4_HDRLEN / 2);
      var check := ComputeCsum(words);
      Copy(base + CHECK, LittleEndian16(check));
      ThreeWrites(before, base, payload, check);
    }

    /** rx_io's read. */
    method FillFromWire(i: nat, frame: Frame)
      requires Valid() && ValidFill(RxFill(i, frame), bsz - 4, rsz)
      modifies bytes
      ensures Valid() && bytes[..] == Filled(old(bytes[..]), bsz, rsz, RxFill(i, frame))
    {
      EncapsulationFits(bsz, rsz, i);
      Copy(Base(bsz, i), frame);
    }
  }

  function SlotCount(size: nat, bsz: nat): (rsz: nat)
    requires bsz > 0
    ensures rsz * bsz <= size < (rsz + 1) * bsz
  {
    size / bsz
  }

  /**
   * init_ring_buffer. For every buffer size and every block size from 34 up: there are
   * size / (chunks + 4) slots, whose blocks lie one behind the other in the pool; each
   * starts with the headers and ends with the footer, with zeros between; and the program's
   * own validation passes.
   */
  method InitRingBuffer(size: nat, chunks: nat, h: Headers) returns (q: Pool, ok: bool)
    requires chunks >= ETHIP4 && ValidHeaders(h)
    ensures fresh(q) && fresh(q.bytes) && fresh(q.headers)
    ensures q.Valid() && q.bsz == chunks + 4 && q.rsz == SlotCount(size, q.bsz)
    ensures PreparedBelow(q.bytes[..], q.bsz, q.rsz, h, q.rsz)
    ensures AllIntact(q.bytes[..], q.bsz, q.rsz) && ok
    ensures forall j: nat :: j < q.rsz ==>
              var block := Block(q.bytes[..], q.bsz, q.rsz, j);
              && q.headers[j] == 0xf01abcde
              && block[..14] == h.eth && block[14..34] == h.ip
              && (forall k :: 34 <= k < chunks ==> block[k] == 0)
              && block[chunks..] == [0xce, 0xfa, 0xfe, 0xca]
  {
    q := new Pool(chunks + 4, SlotCount(size, chunks + 4));
    q.PrepareAll(h);
    FreshBytes(h, chunks);
    PreparedIntact(q.bytes[..], q.bsz, q.rsz, h);
    ok := q.ValidateAll();
  }
}
