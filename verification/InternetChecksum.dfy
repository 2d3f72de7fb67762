/** The checksum of ar_ping.c: a loop over the little-endian words of a buffer that defers the
    carries, two folds, and a complement. */
module InternetChecksum {
  import opened Integers
  import opened OnesComplement

  /** A word of memory on a little-endian machine. */
  function Pair(low: uint8, high: uint8): uint16 {
    low as int + 0x100 * (high as int)
  }

  /** The words of a buffer as a little-endian machine reads them; a last odd byte is a word. */
  function WordAt(bytes: seq<uint8>, i: nat): uint16
    requires 2 * i < |bytes|
  {
    if 2 * i + 1 < |bytes| then Pair(bytes[2 * i], bytes[2 * i + 1]) else bytes[2 * i]
  }

  function Words(bytes: seq<uint8>): seq<uint16> {
    seq((|bytes| + 1) / 2, i requires 0 <= i < (|bytes| + 1) / 2 => WordAt(bytes, i))
  }

  /** What the 32-bit accumulator holds after the loop. */
  function Accumulated(bytes: seq<uint8>): uint32 {
    Wrap32(Sum(Words(bytes)))
  }

  /** The two folds and the complement, on 32 bits. */
  function Folded(sum: uint32): uint16 {
    var once := sum / 0x1_0000 + sum % 0x1_0000;
    var twice := once + once / 0x1_0000;
    Complement(twice % 0x1_0000)
  }

  function ChecksumOf(bytes: seq<uint8>): uint16 {
    Folded(Accumulated(bytes))
  }

  /** One more word in the accumulator. */
  lemma AccumulateNext(words: seq<uint16>, at: nat)
    requires at < |words|
    ensures Wrap32(Wrap32(Sum(words[..at])) + words[at]) == Wrap32(Sum(words[..at + 1]))
  {
    assert words[..at + 1][..at] == words[..at];
    Wrap32Add(Sum(words[..at]), words[at]);
  }

  method Checksum(buffer: array<uint8>, length: nat) returns (sum16: uint16)
    requires length <= buffer.Length
    ensures sum16 == ChecksumOf(buffer[..length])
  {
    hide Sum;
    ghost var words := Words(buffer[..length]);
    var sum, at, left := 0, 0, length;
    assert sum == Wrap32(Sum(words[..0])) by { SumIsZero([]); }
    while left > 1
      invariant 0 <= at && 2 * at + left == length
      invariant 0 <= sum < TWO32 && sum == Wrap32(Sum(words[..at]))
      decreases left
    {
      var word := Pair(buffer[2 * at], buffer[2 * at + 1]);
      assert word == WordAt(buffer[..length], at) == words[at];
      AccumulateNext(words, at);
      sum := Wrap32(sum + word);
      at, left := at + 1, left - 2;
    }
    if left > 0 {
      assert buffer[2 * at] == WordAt(buffer[..length], at) == words[at];
      AccumulateNext(words, at);
      sum := Wrap32(sum + buffer[2 * at]);
      at := at + 1;
    }
    assert words[..at] == words;
    sum := sum / 0x1_0000 + sum % 0x1_0000;
    sum := sum + sum / 0x1_0000;
    sum16 := Complement(sum % 0x1_0000);
  }

  /** The sum of the bytes as a little-endian machine weighs them: those at odd places count 256. */
  function WeightedSum(bytes: seq<uint8>): nat {
    if |bytes| == 0 then 0
    else WeightedSum(bytes[..|bytes| - 1]) + (if |bytes| % 2 == 1 then 1 else 256) * (bytes[|bytes| - 1] as int)
  }

  /** The words of a buffer, taken together, are its bytes so weighed. */
  lemma {:induction false} WordsWeighBytes(bytes: seq<uint8>)
    ensures Sum(Words(bytes)) == WeightedSum(bytes)
    decreases |bytes|
  {
    if |bytes| == 0 {
    } else {
      hide Sum;
      var front, last := bytes[..|bytes| - 1], bytes[|bytes| - 1];
      WordsWeighBytes(front);
      LastByte(bytes);
    }
  }

  /** One byte more is a new word, or the high half of the last one. */
  lemma LastByte(bytes: seq<uint8>)
    requires |bytes| > 0
    ensures Sum(Words(bytes)) == Sum(Words(bytes[..|bytes| - 1]))
                               + (if |bytes| % 2 == 1 then 1 else 256) * (bytes[|bytes| - 1] as int)
  {
    var front := bytes[..|bytes| - 1];
    var before, after := Words(front), Words(bytes);
    if |bytes| % 2 == 1 {
      assert after == before + [bytes[|bytes| - 1]];
      assert after[..|after| - 1] == before;
    } else {
      var k := |before| - 1;
      assert before[k] == front[2 * k] && after[k] == before[k] + 256 * (bytes[|bytes| - 1] as int);
      assert after == before[k := after[k]];
      SumUpdate(before, k, after[k]);
    }
  }

  // ---------- what the checksum is ----------

  /** Two folds bring any 32-bit sum to its one's-complement value. */
  lemma TwoFoldsSuffice(sum: uint32)
    ensures Folded(sum) == Complement(Residue(sum))
  {
    hide Residue;
    var high, low := sum / 0x1_0000, sum % 0x1_0000;
    assert sum == 0xFFFF * high + (high + low);
    var once := high + low;
    if once < 0x1_0000 {
      assert (once + once / 0x1_0000) % 0x1_0000 == once;
      ResidueUnique(sum, once, high);
    } else {
      assert once / 0x1_0000 == 1;
      assert (once + 1) % 0x1_0000 == once - 0xFFFF;
      ResidueUnique(sum, once - 0xFFFF, high + 1);
    }
  }

  /** No buffer of up to 131074 bytes makes the 32-bit sum overflow. */
  lemma NoOverflow(bytes: seq<uint8>)
    requires |bytes| <= 131074
    ensures Sum(Words(bytes)) < TWO32
  {
    SumBound(Words(bytes));
  }

  /** On such buffers `checksum` is the one's-complement of the one's-complement sum of the words,
      as section 1 of RFC 1071 defines it, and a function of the weighed bytes: complemented, it is 0 iff all words are 0, and otherwise
      the representative in 1..65535 of the sum of the words modulo 65535. */
  lemma ChecksumIsExact(bytes: seq<uint8>)
    requires |bytes| <= 131074
    ensures ChecksumOf(bytes) == Complement(OnesSum(Words(bytes))) == Complement(Residue(Sum(Words(bytes))))
    ensures ChecksumOf(bytes)
         == 0xFFFF - (if WeightedSum(bytes) == 0 then 0 else (WeightedSum(bytes) - 1) % 0xFFFF + 1)
    ensures Complement(ChecksumOf(bytes)) == 0 <==> forall i :: 0 <= i < |Words(bytes)| ==> Words(bytes)[i] == 0
  {
    hide Folded, Wrap32, Sum, OnesSum, Words, WeightedSum;
    var words := Words(bytes);
    WordsWeighBytes(bytes);
    NoOverflow(bytes);
    Wrap32Small(Sum(words));
    TwoFoldsSuffice(Sum(words));
    OnesSumIsResidue(words);
    SumIsZero(words);
    var q := ResidueShape(Sum(words));
  }

  /** Beyond that length: for sums below 2^32 * 65535 the checksum is exact iff the sum did not
      overflow. */
  lemma ExactIffNoOverflow(bytes: seq<uint8>)
    requires Sum(Words(bytes)) < TWO32 * 0xFFFF
    ensures ChecksumOf(bytes) == Complement(OnesSum(Words(bytes))) <==> Sum(Words(bytes)) < TWO32
  {
    hide Residue, Folded, Wrap32, Sum, OnesSum, Words;
    TwoFoldsSuffice(Accumulated(bytes));
    OnesSumIsResidue(Words(bytes));
    WrappedResidue(Sum(Words(bytes)));
  }

  /** A lost carry out of 32 bits is a lost 1 in the sum modulo 65535. */
  lemma WrappedResidue(sum: nat)
    requires sum < TWO32 * 0xFFFF
    ensures Residue(Wrap32(sum)) == Residue(sum) <==> sum < TWO32
  {
    hide Residue;
    var wraps, kept := sum / TWO32, Wrap32(sum);
    assert sum == TWO32 * wraps + kept;
    if sum < TWO32 {
      Wrap32Small(sum);
    } else {
      var p := ResidueShape(sum);
      var q := ResidueShape(kept);
      NotAMultiple(wraps, p - q - 65537 * wraps);
    }
  }

  lemma NotAMultiple(n: nat, k: int)
    requires 0 < n < 0xFFFF
    ensures n != 0xFFFF * k
  {
  }

  /** The bound on the length is tight: one byte more, all bytes 255, and the sum overflows. */
  lemma OverflowAt131075()
    ensures var bytes := seq(131075, _ => 255);
            Sum(Words(bytes)) >= TWO32 && ChecksumOf(bytes) != Complement(OnesSum(Words(bytes)))
  {
    hide ChecksumOf, OnesSum;
    var bytes: seq<uint8> := seq(131075, _ => 255);
    var words := Words(bytes);
    SumOfOnes(words[..65537]);
    assert words[..|words| - 1] == words[..65537] && words[65537] == 255;
    ExactIffNoOverflow(bytes);
  }

  lemma {:induction false} SumOfOnes(words: seq<uint16>)
    requires forall i :: 0 <= i < |words| ==> words[i] == 0xFFFF
    ensures Sum(words) == 0xFFFF * |words|
    decreases |words|
  {
    if |words| == 0 {
    } else {
      SumOfOnes(words[..|words| - 1]);
    }
  }

  // ---------- the laws of section 2 of RFC 1071 ----------

  /** An odd length counts as if a zero byte followed. */
  lemma OddLengthIsPadded(bytes: seq<uint8>)
    requires |bytes| % 2 == 1
    ensures ChecksumOf(bytes) == ChecksumOf(bytes + [0])
  {
    assert Words(bytes) == Words(bytes + [0]);
  }

  /** The order of the words does not matter. */
  lemma OrderIndependent(a: seq<uint8>, b: seq<uint8>)
    requires multiset(Words(a)) == multiset(Words(b))
    ensures ChecksumOf(a) == ChecksumOf(b)
  {
    SumPermuted(Words(a), Words(b));
  }

  /** The buffer with the two bytes of every word exchanged. */
  function SwapBytes(bytes: seq<uint8>): seq<uint8>
    requires |bytes| % 2 == 0
  {
    seq(|bytes|, i requires 0 <= i < |bytes| => bytes[if i % 2 == 0 then i + 1 else i - 1])
  }

  lemma PairSwapped(low: uint8, high: uint8)
    ensures Swap16(Pair(low, high)) == Pair(high, low)
  {
    BytesUnique(Pair(low, high), high, low);
  }

  lemma WordSwapped(bytes: seq<uint8>, i: nat)
    requires |bytes| % 2 == 0 && 2 * i < |bytes|
    ensures 2 * i + 1 < |bytes|
    ensures WordAt(SwapBytes(bytes), i) == Swap16(WordAt(bytes, i))
  {
    hide Swap16;
    var even, odd := 2 * i, 2 * i + 1;
    assert even % 2 == 0 && odd % 2 == 1;
    assert SwapBytes(bytes)[even] == bytes[odd] && SwapBytes(bytes)[odd] == bytes[even];
    PairSwapped(bytes[even], bytes[odd]);
  }

  lemma WordsOfSwapped(bytes: seq<uint8>)
    requires |bytes| % 2 == 0
    ensures Words(SwapBytes(bytes)) == SwapAll(Words(bytes))
  {
    hide Swap16, SwapBytes, WordAt;
    assert |SwapBytes(bytes)| == |bytes| by { SwapKeepsLength(bytes); }
    forall i | 0 <= i < |Words(bytes)| ensures Words(SwapBytes(bytes))[i] == Swap16(Words(bytes)[i]) {
      WordSwapped(bytes, i);
    }
  }

  lemma SwapKeepsLength(bytes: seq<uint8>)
    requires |bytes| % 2 == 0
    ensures |SwapBytes(bytes)| == |bytes|
  {
  }

  /** Byte order does not matter: exchanging the bytes of every word exchanges the bytes of the
      checksum. */
  lemma ByteOrderIndependent(bytes: seq<uint8>)
    requires |bytes| % 2 == 0 && |bytes| <= 131074
    ensures ChecksumOf(SwapBytes(bytes)) == Swap16(ChecksumOf(bytes))
  {
    hide ChecksumOf, Residue, Swap16, Complement, OnesSum, Sum, Words, SwapAll, SwapBytes;
    SwapKeepsLength(bytes);
    ChecksumIsExact(bytes);
    ChecksumIsExact(SwapBytes(bytes));
    WordsOfSwapped(bytes);
    SwappedSum(Words(bytes));
    SwapComplement(Residue(Sum(Words(bytes))));
  }
}
