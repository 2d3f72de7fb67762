/** The echo request that ar_ping.c builds and the test it applies to a reply: the 72 bytes of
    `icmp_packet_t` as they lie in the memory of a little-endian machine. */
module IcmpEcho {
  import opened Integers
  import opened OnesComplement
  import opened InternetChecksum

  const PING_PKT_DATA_SIZE: nat := 64
  const PACKET_SIZE: nat := 72
  const PACKET_WORDS: nat := 36

  const ICMP_ECHO_REQUEST: uint8 := 8
  const ICMP_ECHO_REPLY: uint8 := 0

  // The words of the header; the payload starts at word 4.
  const CHECKSUM: nat := 1
  const ID: nat := 2
  const SEQUENCE: nat := 3
  const PAYLOAD: nat := 4

  type Packet = s: seq<uint8> | |s| == PACKET_SIZE witness seq(PACKET_SIZE, _ => 0)

  datatype PingContext = PingContext(id: uint16, sequence: uint16)

  function Word(p: Packet, k: nat): uint16
    requires k < PACKET_WORDS
  {
    WordAt(p, k)
  }

  function SetWord(p: Packet, k: nat, w: uint16): Packet
    requires k < PACKET_WORDS
  {
    p[2 * k := w % 0x100][2 * k + 1 := w / 0x100]
  }

  /** The checksum field computed anew, itself taken as zero. */
  function Recomputed(p: Packet): uint16 {
    ChecksumOf(SetWord(p, CHECKSUM, 0))
  }

  function Sealed(p: Packet): Packet {
    SetWord(p, CHECKSUM, Recomputed(p))
  }

  /** An echo message without its checksum. */
  function Unsealed(messageType: uint8, ctx: PingContext): Packet {
    [messageType, 0, 0, 0, ctx.id / 0x100, ctx.id % 0x100, ctx.sequence / 0x100, ctx.sequence % 0x100]
    + seq(PING_PKT_DATA_SIZE, i requires 0 <= i < PING_PKT_DATA_SIZE => i)
  }

  function EchoRequest(ctx: PingContext): Packet {
    Sealed(Unsealed(ICMP_ECHO_REQUEST, ctx))
  }

  /** The reply that RFC 792 asks for: the request with its type set to 0 and its checksum
      computed anew. */
  function EchoReply(ctx: PingContext): Packet {
    Sealed(EchoRequest(ctx)[0 := ICMP_ECHO_REPLY])
  }

  /** What `validate_reply` asks of a reply. Its code and its payload are not looked at. */
  predicate Accepts(p: Packet, ctx: PingContext) {
    && Recomputed(p) == Word(p, CHECKSUM)
    && p[0] == ICMP_ECHO_REPLY
    && Swap16(Word(p, ID)) == ctx.id
    && Swap16(Word(p, SEQUENCE)) == ctx.sequence
  }

  // ---------- the functions of ar_ping.c ----------

  method StoreWord(packet: array<uint8>, k: nat, w: uint16)
    requires packet.Length == PACKET_SIZE && k < PACKET_WORDS
    modifies packet
    ensures packet[..] == SetWord(old(packet[..]), k, w)
  {
    packet[2 * k] := w % 0x100;
    packet[2 * k + 1] := w / 0x100;
  }

  method PreparePacket(packet: array<uint8>, ctx: PingContext)
    requires packet.Length == PACKET_SIZE
    modifies packet
    ensures packet[..] == EchoRequest(ctx)
  {
    forall i | 0 <= i < packet.Length {
      packet[i] := 0;
    }
    for i := 0 to PING_PKT_DATA_SIZE
      invariant forall j :: 0 <= j < 8 ==> packet[j] == 0
      invariant forall j :: 8 <= j < 8 + i ==> packet[j] == j - 8
    {
      packet[8 + i] := i;
    }
    packet[0] := ICMP_ECHO_REQUEST;
    packet[1] := 0;
    StoreWord(packet, ID, Swap16(ctx.id));
    StoreWord(packet, SEQUENCE, Swap16(ctx.sequence));
    forall j | 0 <= j < PACKET_SIZE ensures packet[..][j] == Unsealed(ICMP_ECHO_REQUEST, ctx)[j] {
      SwapExchanges(ctx.id);
      SwapExchanges(ctx.sequence);
    }
    assert packet[..] == Unsealed(ICMP_ECHO_REQUEST, ctx);
    assert packet[..] == SetWord(packet[..], CHECKSUM, 0);
    assert packet[..PACKET_SIZE] == packet[..];
    var sum := Checksum(packet, PACKET_SIZE);
    StoreWord(packet, CHECKSUM, sum);
  }

  method ValidateReply(reply: array<uint8>, ctx: PingContext) returns (accepted: bool)
    requires reply.Length == PACKET_SIZE
    ensures accepted <==> Accepts(reply[..], ctx)
  {
    var received := Pair(reply[2], reply[3]);
    var temp := new uint8[PACKET_SIZE](i requires 0 <= i < PACKET_SIZE reads reply => reply[i]);
    assert temp[..] == reply[..];
    StoreWord(temp, CHECKSUM, 0);
    assert temp[..PACKET_SIZE] == temp[..];
    var sum := Checksum(temp, PACKET_SIZE);
    if sum != received {
      return false;
    }
    return reply[0] == ICMP_ECHO_REPLY
           && Swap16(Pair(reply[4], reply[5])) == ctx.id
           && Swap16(Pair(reply[6], reply[7])) == ctx.sequence;
  }

  // ---------- words and sums of a packet ----------

  lemma WordsOf(p: Packet)
    ensures |Words(p)| == PACKET_WORDS
    ensures forall k :: 0 <= k < PACKET_WORDS ==> Words(p)[k] == Word(p, k)
  {
  }

  lemma SetWordWords(p: Packet, k: nat, w: uint16)
    requires k < PACKET_WORDS
    ensures Words(SetWord(p, k, w)) == Words(p)[k := w]
    ensures forall j :: 0 <= j < PACKET_WORDS ==> Word(SetWord(p, k, w), j) == if j == k then w else Word(p, j)
  {
    var q := SetWord(p, k, w);
    forall j | 0 <= j < PACKET_WORDS ensures Words(q)[j] == Word(q, j) == if j == k then w else Word(p, j) {
      if j != k {
        assert q[2 * j] == p[2 * j] && q[2 * j + 1] == p[2 * j + 1];
      }
    }
    assert Words(q) == Words(p)[k := w];
  }

  /** The sum of all words but the checksum. */
  function Covered(p: Packet): nat {
    Sum(Words(p)[CHECKSUM := 0])
  }

  predicate OthersZero(p: Packet) {
    forall k :: 0 <= k < PACKET_WORDS && k != CHECKSUM ==> Word(p, k) == 0
  }

  lemma CoveredFacts(p: Packet)
    ensures Recomputed(p) == Complement(Residue(Covered(p)))
    ensures Sum(Words(p)) == Covered(p) + Word(p, CHECKSUM)
    ensures Covered(p) == 0 <==> OthersZero(p)
  {
    hide Residue, ChecksumOf, OnesSum, Complement, SetWord;
    var others := Words(p)[CHECKSUM := 0];
    WordsOf(p);
    SetWordWords(p, CHECKSUM, 0);
    ChecksumIsExact(SetWord(p, CHECKSUM, 0));
    SumUpdate(Words(p), CHECKSUM, 0);
    SumIsZero(others);
    assert forall k :: 0 <= k < PACKET_WORDS && k != CHECKSUM ==> others[k] == Word(p, k);
  }

  /** Changing a word under the checksum changes the covered sum by as much. */
  lemma CoveredUpdate(p: Packet, k: nat, w: uint16)
    requires k < PACKET_WORDS
    ensures Covered(SetWord(p, k, w)) == if k == CHECKSUM then Covered(p) else Covered(p) - Word(p, k) + w
    ensures k != CHECKSUM ==> Covered(p) >= Word(p, k)
  {
    hide Sum, SetWord;
    var others := Words(p)[CHECKSUM := 0];
    WordsOf(p);
    SetWordWords(p, k, w);
    if k == CHECKSUM {
      assert Words(p)[k := w][CHECKSUM := 0] == others;
    } else {
      assert Words(p)[k := w][CHECKSUM := 0] == others[k := w];
      SumUpdate(others, k, w);
    }
  }

  // ---------- recomputing against summing up ----------

  /** Comparing the recomputed checksum is stricter than summing the whole packet to all ones, as
      section 5 of RFC 1624 warns: it also refuses the other representation of zero, 0xFFFF, in a
      packet that is not all zero. */
  lemma RecomputeVersusAllOnes(p: Packet)
    ensures Recomputed(p) == Word(p, CHECKSUM)
       <==> OnesSum(Words(p)) == 0xFFFF && (Word(p, CHECKSUM) == 0xFFFF ==> OthersZero(p))
  {
    hide Residue, Recomputed, OnesSum, OthersZero;
    var c, n := Word(p, CHECKSUM), Covered(p);
    CoveredFacts(p);
    OnesSumIsResidue(Words(p));
    var q := ResidueShape(n);
    ResidueAdd(n, c);
  }

  // ---------- requests and replies byte by byte ----------

  lemma HeaderWords(p: Packet)
    ensures Swap16(Word(p, ID)) == 0x100 * (p[4] as int) + p[5] as int
    ensures Swap16(Word(p, SEQUENCE)) == 0x100 * (p[6] as int) + p[7] as int
    ensures Word(p, CHECKSUM) == p[2] as int + 0x100 * (p[3] as int)
  {
    PairSwapped(p[4], p[5]);
    PairSwapped(p[6], p[7]);
  }

  /** Exactly which 72 bytes are accepted as the reply. */
  lemma AcceptedBytes(p: Packet, ctx: PingContext)
    ensures Accepts(p, ctx)
       <==> && p[0] == 0
            && 0x100 * (p[4] as int) + p[5] as int == ctx.id
            && 0x100 * (p[6] as int) + p[7] as int == ctx.sequence
            && OnesSum(Words(p)) == 0xFFFF
            && (p[2] == 255 && p[3] == 255 ==> forall i :: 0 <= i < 72 && i != 2 && i != 3 ==> p[i] == 0)
  {
    hide Recomputed, OnesSum, Swap16, Word, OthersZero;
    HeaderWords(p);
    RecomputeVersusAllOnes(p);
    OthersZeroBytes(p);
  }

  lemma OthersZeroBytes(p: Packet)
    ensures OthersZero(p) <==> forall i :: 0 <= i < 72 && i != 2 && i != 3 ==> p[i] == 0
  {
    hide Word;
    forall k | 0 <= k < PACKET_WORDS ensures Word(p, k) == 0 <==> p[2 * k] == 0 && p[2 * k + 1] == 0 {
      ZeroWord(p, k);
    }
    if OthersZero(p) {
      forall i | 0 <= i < 72 && i != 2 && i != 3 ensures p[i] == 0 {
        var k := i / 2;
        assert i == 2 * k || i == 2 * k + 1;
        assert Word(p, k) == 0;
      }
    }
  }

  lemma ZeroWord(p: Packet, k: nat)
    requires k < PACKET_WORDS
    ensures Word(p, k) == 0 <==> p[2 * k] == 0 && p[2 * k + 1] == 0
  {
  }

  /** Every byte of the request: type 8, code 0, a checksum with which the packet sums up to all
      ones, identifier and sequence number high byte first, and the payload 0, 1, 2 up to 63. */
  lemma RequestBytes(ctx: PingContext)
    ensures var p := EchoRequest(ctx);
            && |p| == 72 && p[0] == 8 && p[1] == 0
            && 0x100 * (p[4] as int) + p[5] as int == ctx.id
            && 0x100 * (p[6] as int) + p[7] as int == ctx.sequence
            && (forall i :: 8 <= i < 72 ==> p[i] == i - 8)
            && OnesSum(Words(p)) == 0xFFFF
  {
    hide Recomputed, OnesSum, Swap16, Sealed, Unsealed, Word, Words;
    var plain, p := Unsealed(ICMP_ECHO_REQUEST, ctx), EchoRequest(ctx);
    UnsealedBytes(ICMP_ECHO_REQUEST, ctx);
    SealedBytes(plain);
    SealedMatches(plain);
    RecomputeVersusAllOnes(p);
    OthersZeroBytes(p);
    assert p[0] != 0;
  }

  lemma UnsealedBytes(messageType: uint8, ctx: PingContext)
    ensures var p := Unsealed(messageType, ctx);
            && p[0] == messageType && p[1] == 0
            && 0x100 * (p[4] as int) + p[5] as int == ctx.id
            && 0x100 * (p[6] as int) + p[7] as int == ctx.sequence
            && (forall i :: 8 <= i < 72 ==> p[i] == i - 8)
  {
  }

  lemma SealedBytes(p: Packet)
    ensures forall i :: 0 <= i < 72 && i != 2 && i != 3 ==> Sealed(p)[i] == p[i]
  {
    hide Recomputed;
  }

  // ---------- what a change does ----------

  predicate OthersNonZero(p: Packet, k: nat) {
    exists j :: 0 <= j < PACKET_WORDS && j != k && j != CHECKSUM && Word(p, j) != 0
  }

  /** The one change of a word that is not noticed. */
  predicate SwappedZeros(old16: uint16, new16: uint16) {
    (old16 == 0 && new16 == 0xFFFF) || (old16 == 0xFFFF && new16 == 0)
  }

  /** Exchanging a part of a sum keeps its value exactly between the two zeros of a sum that has
      more to it. */
  lemma PartExchanged(n: nat, v: uint16, w: uint16)
    requires v <= n && v != w
    ensures Residue(n - v + w) == Residue(n) <==> SwappedZeros(v, w) && n - v > 0
  {
    hide Residue;
    SameResidue(n - v + w, n);
    var d := w - v;
    assert n - v + w - n == d;
    if d % 0xFFFF == 0 {
      var m := d / 0xFFFF;
      assert d == 0xFFFF * m;
      assert m == 1 || m == -1;
    }
  }

  /** A packet with a matching checksum, one covered word changed. */
  lemma CoveredWordChanged(p: Packet, k: nat, w: uint16)
    requires Recomputed(p) == Word(p, CHECKSUM)
    requires k < PACKET_WORDS && k != CHECKSUM && w != Word(p, k)
    ensures var q := SetWord(p, k, w);
            Recomputed(q) == Word(q, CHECKSUM)
            <==> SwappedZeros(Word(p, k), w) && OthersNonZero(p, k)
  {
    hide Residue, SetWord, Recomputed, SwappedZeros, Word;
    var q, v := SetWord(p, k, w), Word(p, k);
    CoveredFacts(p);
    CoveredFacts(q);
    CoveredUpdate(p, k, w);
    SetWordWords(p, k, w);
    CoveredWithout(p, k);
    PartExchanged(Covered(p), v, w);
  }

  lemma CoveredWithout(p: Packet, k: nat)
    requires k < PACKET_WORDS && k != CHECKSUM
    ensures OthersNonZero(p, k) <==> Covered(p) - Word(p, k) > 0
  {
    hide Recomputed, SetWord, Sum;
    CoveredUpdate(p, k, 0);
    CoveredFacts(SetWord(p, k, 0));
    SetWordWords(p, k, 0);
  }

  /** Any single word of an accepted reply replaced by another value: the result is accepted only
      for a payload word, exchanged between the two representations of zero, and then exactly if
      some other word under the checksum is not zero. */
  lemma WordChangeIsNoticed(p: Packet, ctx: PingContext, k: nat, w: uint16)
    requires Accepts(p, ctx) && k < PACKET_WORDS && w != Word(p, k)
    ensures Accepts(SetWord(p, k, w), ctx)
       <==> k >= PAYLOAD && SwappedZeros(Word(p, k), w) && OthersNonZero(p, k)
  {
    hide Recomputed, SetWord, OthersNonZero, Swap16;
    var q := SetWord(p, k, w);
    SetWordWords(p, k, w);
    if k == CHECKSUM {
      CoveredUpdate(p, k, w);
      CoveredFacts(p);
      CoveredFacts(q);
    } else {
      CoveredWordChanged(p, k, w);
      SwapTwice(Word(p, k));
      SwapTwice(w);
      TypeOf(p);
      TypeOf(q);
    }
  }

  lemma TypeOf(p: Packet)
    ensures p[0] == Word(p, 0) % 0x100
  {
    assert Word(p, 0) == p[0] as int + 0x100 * (p[1] as int);
  }

  /** No change confined to one byte goes unnoticed - in particular, no flip of a single bit. */
  lemma ByteChangeIsNoticed(p: Packet, ctx: PingContext, i: nat, b: uint8)
    requires Accepts(p, ctx) && i < PACKET_SIZE && b != p[i]
    ensures !Accepts(p[i := b], ctx)
  {
    hide Recomputed, Accepts;
    var k := i / 2;
    var w := if i % 2 == 0 then Pair(b, p[i + 1]) else Pair(p[i - 1], b);
    assert p[i := b] == SetWord(p, k, w);
    WordChangeIsNoticed(p, ctx, k, w);
  }

  /** What the checksum cannot notice: payload words in another order. */
  lemma PayloadReorderingIsNotNoticed(p: Packet, q: Packet, ctx: PingContext)
    requires Accepts(p, ctx) && p[..8] == q[..8]
    requires multiset(Words(p)[PAYLOAD..]) == multiset(Words(q)[PAYLOAD..])
    ensures Accepts(q, ctx)
  {
    hide Recomputed, Sum, Residue;
    WordsOf(p);
    WordsOf(q);
    assert forall k :: 0 <= k < PAYLOAD ==> Word(p, k) == Word(q, k) by {
      assert forall i :: 0 <= i < 8 ==> p[..8][i] == q[..8][i];
    }
    var before := Words(p)[CHECKSUM := 0][..PAYLOAD];
    assert before == Words(q)[CHECKSUM := 0][..PAYLOAD];
    assert Words(p)[CHECKSUM := 0] == before + Words(p)[PAYLOAD..];
    assert Words(q)[CHECKSUM := 0] == before + Words(q)[PAYLOAD..];
    SumPermuted(Words(p)[PAYLOAD..], Words(q)[PAYLOAD..]);
    SumConcat(before, Words(p)[PAYLOAD..]);
    SumConcat(before, Words(q)[PAYLOAD..]);
    CoveredFacts(p);
    CoveredFacts(q);
  }

  // ---------- request and reply ----------

  /** Equation 3 of section 3 of RFC 1624: the checksum field after a word has changed. */
  function Updated(checksum: uint16, old16: uint16, new16: uint16): uint16 {
    Complement(OnesAdd(OnesAdd(Complement(checksum), Complement(old16)), new16))
  }

  /** The incremental update agrees with recomputing exactly if the changed packet is not all
      zero under the checksum. */
  lemma UpdateAgreesWithRecomputing(p: Packet, k: nat, w: uint16)
    requires Recomputed(p) == Word(p, CHECKSUM) && k < PACKET_WORDS && k != CHECKSUM
    ensures Updated(Word(p, CHECKSUM), Word(p, k), w) == Recomputed(SetWord(p, k, w))
       <==> !OthersZero(SetWord(p, k, w))
  {
    hide Residue, Recomputed, OthersZero, SetWord, Sum;
    var n, v, q := Covered(p), Word(p, k), SetWord(p, k, w);
    CoveredFacts(p);
    CoveredFacts(q);
    CoveredUpdate(p, k, w);
    ResidueAdd(n, Complement(v));
    ResidueAdd(n + Complement(v), w);
    assert n + Complement(v) + w == Covered(q) + 0xFFFF;
    SameResidue(Covered(q) + 0xFFFF, Covered(q));
    assert (Covered(q) + 0xFFFF - Covered(q)) % 0xFFFF == 0;
  }

  lemma SealedMatches(p: Packet)
    ensures Recomputed(Sealed(p)) == Word(Sealed(p), CHECKSUM) == Recomputed(p)
    ensures forall k :: 0 <= k < PACKET_WORDS && k != CHECKSUM ==> Word(Sealed(p), k) == Word(p, k)
    ensures Sealed(p)[0] == p[0]
  {
    hide ChecksumOf;
    SetWordWords(p, CHECKSUM, Recomputed(p));
    assert SetWord(Sealed(p), CHECKSUM, 0) == SetWord(p, CHECKSUM, 0);
  }

  lemma UnsealedWords(messageType: uint8, ctx: PingContext)
    ensures var p := Unsealed(messageType, ctx);
            && p[0] == messageType && Word(p, 0) == messageType
            && Word(p, ID) == Swap16(ctx.id) && Word(p, SEQUENCE) == Swap16(ctx.sequence)
            && Word(p, PAYLOAD) == 0x100
  {
  }

  /** The reply to our own request: recomputing its checksum and updating the request's give the
      same packet, it is accepted for this identifier and sequence number and for no other, and
      the request itself, reflected, is not accepted. */
  lemma RoundTrip(ctx: PingContext, other: PingContext)
    ensures var request := EchoRequest(ctx);
            EchoReply(ctx) == SetWord(request[0 := ICMP_ECHO_REPLY], CHECKSUM,
                                      Updated(Word(request, CHECKSUM), Word(request, 0), ICMP_ECHO_REPLY))
    ensures Accepts(EchoReply(ctx), other) <==> other == ctx
    ensures !Accepts(EchoRequest(ctx), other)
  {
    hide Recomputed, Sealed, SetWord, Unsealed, Updated, Swap16;
    var plain := Unsealed(ICMP_ECHO_REQUEST, ctx);
    var request := EchoRequest(ctx);
    UnsealedWords(ICMP_ECHO_REQUEST, ctx);
    SealedMatches(plain);
    var answer := request[0 := ICMP_ECHO_REPLY];
    AnswerIsUpdate(request);
    SealedMatches(answer);
    SetWordWords(request, 0, ICMP_ECHO_REPLY);
    assert Word(answer, PAYLOAD) != 0;
    UpdateAgreesWithRecomputing(request, 0, ICMP_ECHO_REPLY);
    assert Sealed(answer) == SetWord(answer, CHECKSUM, Recomputed(answer)) by { SealedIs(answer); }
    SwapTwice(ctx.id);
    SwapTwice(ctx.sequence);
  }

  lemma AnswerIsUpdate(request: Packet)
    requires Word(request, 0) == ICMP_ECHO_REQUEST
    ensures request[0 := ICMP_ECHO_REPLY] == SetWord(request, 0, ICMP_ECHO_REPLY)
  {
    assert Word(request, 0) == request[0] as int + 0x100 * (request[1] as int);
  }

  lemma SealedIs(p: Packet)
    ensures Sealed(p) == SetWord(p, CHECKSUM, Recomputed(p))
  {
  }
}
