/** One's-complement arithmetic on 16-bit words, the algebra of the Internet checksum. */
module OnesComplement {
  import opened Integers

  /** One's-complement addition: the carry out of the top bit is added back in. */
  function OnesAdd(a: uint16, b: uint16): uint16 {
    if a + b < 0x1_0000 then a + b else a + b - 0xFFFF
  }

  /** The one's-complement sum of section 1 of RFC 1071, one addition after the other. */
  function OnesSum(words: seq<uint16>): uint16 {
    if |words| == 0 then 0 else OnesAdd(OnesSum(words[..|words| - 1]), words[|words| - 1])
  }

  function Complement(a: uint16): uint16 {
    0xFFFF - a
  }

  /** The ordinary sum of the words. */
  function Sum(words: seq<uint16>): nat {
    if |words| == 0 then 0 else Sum(words[..|words| - 1]) + words[|words| - 1]
  }

  /** The 16-bit value that a sum stands for: zero only for zero itself, and otherwise the
      representative in 1..65535 modulo 65535. */
  function Residue(n: nat): uint16 {
    if n == 0 then 0 else (n - 1) % 0xFFFF + 1
  }

  lemma ResidueUnique(n: nat, r: uint16, q: int)
    requires n == 0xFFFF * q + r && (n == 0 <==> r == 0)
    ensures Residue(n) == r
  {
    if n > 0 {
      assert n - 1 == 0xFFFF * q + (r - 1);
    }
  }

  lemma ResidueShape(n: nat) returns (q: nat)
    ensures n == 0xFFFF * q + Residue(n) && (Residue(n) == 0 <==> n == 0)
  {
    q := if n == 0 then 0 else (n - 1) / 0xFFFF;
  }

  lemma ResidueAdd(n: nat, w: uint16)
    ensures OnesAdd(Residue(n), w) == Residue(n + w)
  {
    var q := ResidueShape(n);
    var carry := if Residue(n) + w < 0x1_0000 then 0 else 1;
    ResidueUnique(n + w, OnesAdd(Residue(n), w), q + carry);
  }

  /** Adding with end-around carries is the same as adding first and reducing at the end. */
  lemma {:induction false} OnesSumIsResidue(words: seq<uint16>)
    ensures OnesSum(words) == Residue(Sum(words))
    decreases |words|
  {
    if |words| == 0 {
    } else {
      hide Residue, OnesAdd;
      OnesSumIsResidue(words[..|words| - 1]);
      ResidueAdd(Sum(words[..|words| - 1]), words[|words| - 1]);
    }
  }

  /** Two sums stand for the same value iff they are congruent and both or neither are zero. */
  lemma SameResidue(m: nat, n: nat)
    ensures Residue(m) == Residue(n) <==> (m - n) % 0xFFFF == 0 && (m == 0 <==> n == 0)
  {
    var p := ResidueShape(m);
    var q := ResidueShape(n);
    assert m - n == 0xFFFF * (p - q) + (Residue(m) - Residue(n));
    if Residue(m) == Residue(n) {
      assert m - n == 0xFFFF * (p - q);
    } else if (m - n) % 0xFFFF == 0 {
      var d := Residue(m) - Residue(n);
      var k := (m - n) / 0xFFFF - (p - q);
      assert d == 0xFFFF * k;
      assert k == 1 || k == -1;
    }
  }

  // ---------- sums of words ----------

  lemma {:induction false} SumUpdate(words: seq<uint16>, k: nat, w: uint16)
    requires k < |words|
    ensures Sum(words[k := w]) == Sum(words) - words[k] + w
    ensures Sum(words) >= words[k]
    decreases |words|
  {
    var front, longer := words[..|words| - 1], words[k := w];
    if k < |front| {
      assert longer[..|words| - 1] == front[k := w];
      SumUpdate(front, k, w);
    } else {
      assert longer[..|words| - 1] == front;
    }
  }

  lemma {:induction false} SumIsZero(words: seq<uint16>)
    ensures Sum(words) == 0 <==> forall k :: 0 <= k < |words| ==> words[k] == 0
    decreases |words|
  {
    if |words| == 0 {
    } else {
      SumIsZero(words[..|words| - 1]);
      assert forall k :: 0 <= k < |words| - 1 ==> words[k] == words[..|words| - 1][k];
    }
  }

  lemma {:induction false} SumBound(words: seq<uint16>)
    ensures Sum(words) <= 0xFFFF * |words|
    decreases |words|
  {
    if |words| == 0 {
    } else {
      SumBound(words[..|words| - 1]);
    }
  }

  lemma {:induction false} SumConcat(a: seq<uint16>, b: seq<uint16>)
    ensures Sum(a + b) == Sum(a) + Sum(b)
    decreases |b|
  {
    if |b| == 0 {
      assert a + b == a;
    } else {
      assert (a + b)[..|a + b| - 1] == a + b[..|b| - 1];
      SumConcat(a, b[..|b| - 1]);
    }
  }

  lemma WithoutOne(words: seq<uint16>, i: nat)
    requires i < |words|
    ensures multiset(words[..i] + words[i + 1..]) == multiset(words) - multiset{words[i]}
    ensures Sum(words) == Sum(words[..i] + words[i + 1..]) + words[i]
  {
    hide Sum;
    var before, one, after := words[..i], [words[i]], words[i + 1..];
    assert words == before + one + after;
    assert multiset(words) == multiset(before) + multiset{words[i]} + multiset(after);
    SumConcat(before, after);
    SumConcat(before, one);
    SumConcat(before + one, after);
    SumOfOne(words[i]);
  }

  lemma SumOfOne(w: uint16)
    ensures Sum([w]) == w
  {
    assert [w][..0] == [];
  }

  /** The sum does not depend on the order of the words. */
  lemma {:induction false} SumPermuted(a: seq<uint16>, b: seq<uint16>)
    requires multiset(a) == multiset(b)
    ensures Sum(a) == Sum(b)
    decreases |a|
  {
    if |a| == 0 {
      assert |multiset(b)| == 0;
    } else {
      hide Sum;
      assert a[0] in multiset(b);
      var i :| 0 <= i < |b| && b[i] == a[0];
      WithoutOne(a, 0);
      WithoutOne(b, i);
      SumPermuted(a[..0] + a[1..], b[..i] + b[i + 1..]);
    }
  }

  // ---------- exchanging the bytes of a word ----------

  /** What `htons` and `ntohs` do on a little-endian machine. */
  function Swap16(w: uint16): uint16 {
    w % 0x100 * 0x100 + w / 0x100
  }

  lemma BytesUnique(w: nat, high: nat, low: nat)
    requires w == 0x100 * high + low && low < 0x100
    ensures w / 0x100 == high && w % 0x100 == low
  {
  }

  lemma SwapExchanges(w: uint16)
    ensures Swap16(w) % 0x100 == w / 0x100 && Swap16(w) / 0x100 == w % 0x100
  {
    BytesUnique(Swap16(w), w % 0x100, w / 0x100);
  }

  lemma SwapTwice(w: uint16)
    ensures Swap16(Swap16(w)) == w
  {
    SwapExchanges(w);
  }

  lemma SwapComplement(w: uint16)
    ensures Swap16(Complement(w)) == Complement(Swap16(w))
  {
    BytesUnique(Complement(w), 0xFF - w / 0x100, 0xFF - w % 0x100);
  }

  /** Exchanging the bytes multiplies by 256 modulo 65535. */
  lemma SwapShape(w: uint16)
    ensures 0x100 * w == Swap16(w) + 0xFFFF * (w / 0x100)
    ensures Swap16(w) == 0 <==> w == 0
  {
    assert w == 0x100 * (w / 0x100) + w % 0x100;
  }

  function SwapAll(words: seq<uint16>): seq<uint16> {
    seq(|words|, i requires 0 <= i < |words| => Swap16(words[i]))
  }

  lemma {:induction false} SumSwapped(words: seq<uint16>) returns (q: int)
    ensures 0x100 * Sum(words) == Sum(SwapAll(words)) + 0xFFFF * q
    ensures Sum(SwapAll(words)) == 0 <==> Sum(words) == 0
    decreases |words|
  {
    hide Swap16;
    if |words| == 0 {
      return 0;
    }
    var front, last := words[..|words| - 1], words[|words| - 1];
    assert SwapAll(words)[..|words| - 1] == SwapAll(front);
    var q' := SumSwapped(front);
    SwapShape(last);
    q := q' + last / 0x100;
  }

  /** Byte order does not matter: swapping the bytes of every word swaps the bytes of the sum. */
  lemma SwappedSum(words: seq<uint16>)
    ensures Residue(Sum(SwapAll(words))) == Swap16(Residue(Sum(words)))
  {
    hide Residue, Swap16;
    var n, m := Sum(words), Sum(SwapAll(words));
    var r := Residue(n);
    var q := SumSwapped(words);
    var p := ResidueShape(n);
    SwapShape(r);
    assert m == 0xFFFF * (0x100 * p + r / 0x100 - q) + Swap16(r);
    ResidueUnique(m, Swap16(r), 0x100 * p + r / 0x100 - q);
  }
}
