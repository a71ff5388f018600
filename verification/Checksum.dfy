/** The Internet checksum of util.c against the one's-complement sum of RFC 1071. */
module Checksum {
  import opened Bytes

  /** A 16-bit word as the program's `unsigned short` reads it. */
  type word = x: int | 0 <= x < 0x1_0000

  const MAX_WORD: word := 0xffff

  /** One's-complement addition of 16-bit words: a carry out of the top is added at the bottom. */
  function OnesAdd(a: word, b: word): word {
    if a + b > MAX_WORD then a + b - MAX_WORD else a + b
  }

  /** RFC 1071, section 1, step 2: the one's-complement sum over the words. */
  function OnesSum(ws: seq<word>): word {
    if ws == [] then 0 else OnesAdd(ws[0], OnesSum(ws[1..]))
  }

  function Complement(w: word): word {
    MAX_WORD - w
  }

  /** The arithmetic sum, as the 64-bit accumulator holds it. */
  function Sum(ws: seq<word>): (n: nat)
    ensures n <= |ws| * 0xffff
  {
    if ws == [] then 0 else ws[0] + Sum(ws[1..])
  }

  /** The first carry fold: high part plus low half. */
  function Fold(n: nat): nat {
    n / 0x1_0000 + n % 0x1_0000
  }

  /** The second fold does not carry again out of 16 bits. */
  predicate TwoFoldsSuffice(n: nat) {
    Fold(n) % 0x1_0000 + Fold(n) / 0x1_0000 < 0x1_0000
  }

  /** What two folds and the narrowing to 16 bits make of an accumulator. */
  function Narrowed(n: nat): word {
    (Fold(n) + Fold(n) / 0x1_0000) % 0x1_0000
  }

  function Csum(ws: seq<word>): word {
    Complement(Narrowed(Sum(ws)))
  }

  lemma {:induction false} SumAppend(xs: seq<word>, ys: seq<word>)
    ensures Sum(xs + ys) == Sum(xs) + Sum(ys)
  {
    if xs == [] {
      assert xs + ys == ys;
    } else {
      assert (xs + ys)[1..] == xs[1..] + ys;
      SumAppend(xs[1..], ys);
    }
  }

  /** util.c's loop: any buffer an int can count fits the 64-bit accumulator. */
  method ComputeCsum(buf: seq<word>) returns (check: word)
    requires |buf| < TWO_TO_THE_31
    ensures check == Csum(buf)
  {
    var sum: nat := 0;
    var i := 0;
    var nwords := |buf|;
    while nwords > 0
      invariant 0 <= i <= |buf| && nwords == |buf| - i
      invariant sum == Sum(buf[..i])
      invariant sum < 0x1_0000_0000_0000_0000
    {
      assert buf[..i + 1] == buf[..i] + [buf[i]];
      SumAppend(buf[..i], [buf[i]]);
      sum := sum + buf[i];
      i := i + 1;
      nwords := nwords - 1;
    }
    assert buf[..i] == buf;
    sum := sum / 0x1_0000 + sum % 0x1_0000;
    sum := sum + sum / 0x1_0000;
    check := MAX_WORD - sum % 0x1_0000;
  }

  // ----- The accumulator against the reference -----

  /** The 16-bit value that stands for n in one's-complement arithmetic; 0 only for 0. */
  function Residue(n: nat): word {
    if n == 0 then 0 else (n - 1) % 0xffff + 1
  }

  lemma ResidueShift(a: nat, b: nat, k: int)
    requires a == b + 0xffff * k && a > 0 && b > 0
    ensures Residue(a) == Residue(b)
  {
    assert a - 1 == (b - 1) + 0xffff * k;
    ModShift(b - 1, k);
  }

  lemma ModShift(x: int, k: int)
    ensures (x + 0xffff * k) % 0xffff == x % 0xffff
  {
  }

  lemma ResidueAdd(w: word, n: nat)
    ensures Residue(w + n) == OnesAdd(w, Residue(n))
  {
    if n > 0 {
      var q := (n - 1) / 0xffff;
      var r := Residue(n);
      assert n == r + 0xffff * q;
      ResidueShift(w + n, w + r, q);
      if w + r > MAX_WORD {
        ResidueShift(w + r, w + r - MAX_WORD, 1);
      }
    }
  }

  /** The one's-complement sum depends only on the arithmetic sum. */
  lemma {:induction false} OnesSumIsResidue(ws: seq<word>)
    ensures OnesSum(ws) == Residue(Sum(ws))
  {
    if ws != [] {
      OnesSumIsResidue(ws[1..]);
      ResidueAdd(ws[0], Sum(ws[1..]));
    }
  }

  lemma FoldKeepsResidue(n: nat)
    ensures Residue(Fold(n)) == Residue(n)
    ensures Fold(n) == 0 <==> n == 0
  {
    if n > 0 {
      ResidueShift(n, Fold(n), n / 0x1_0000);
    }
  }

  /** Two folds and narrowing give n's 16-bit value exactly when the second fold does not carry. */
  lemma TwoFolds(n: nat)
    requires n < 0xffff * TWO_TO_THE_31
    ensures Narrowed(n) == Residue(n) <==> TwoFoldsSuffice(n)
  {
    var t := Fold(n);
    assert t < TWO_TO_THE_32;
    FoldKeepsResidue(n);
    SecondFold(t);
    FoldedTwice(t);
  }

  lemma FoldedTwice(t: nat)
    ensures Residue(t % 0x1_0000 + t / 0x1_0000) == Residue(t)
  {
    assert Fold(t) == t % 0x1_0000 + t / 0x1_0000;
    FoldKeepsResidue(t);
  }

  /**
   * Exactly when the program's checksum is the one RFC 1071 asks for, for every number of
   * words an int can hold: when the second fold does not carry, and not otherwise.
   */
  lemma CsumIsRfc1071(ws: seq<word>)
    requires |ws| < TWO_TO_THE_31
    ensures Csum(ws) == Complement(OnesSum(ws)) <==> TwoFoldsSuffice(Sum(ws))
  {
    var n := Sum(ws);
    assert n < 0xffff * TWO_TO_THE_31;
    TwoFolds(n);
    OnesSumIsResidue(ws);
    ComplementInjective(Narrowed(n), OnesSum(ws));
  }

  lemma ComplementInjective(a: word, b: word)
    ensures Complement(a) == Complement(b) <==> a == b
  {
  }

  lemma SecondFold(t: nat)
    requires t < TWO_TO_THE_32
    ensures var u := t % 0x1_0000 + t / 0x1_0000;
            (t + t / 0x1_0000) % 0x1_0000 == Residue(u) <==> u < 0x1_0000
  {
    var u := t % 0x1_0000 + t / 0x1_0000;
    assert (t + t / 0x1_0000) % 0x1_0000 == u % 0x1_0000;
  }

  /** Every buffer of up to 65538 words qualifies. */
  lemma CsumIsRfc1071UpTo65538(ws: seq<word>)
    requires |ws| <= 65538
    ensures Csum(ws) == Complement(OnesSum(ws))
  {
    var n := Sum(ws);
    SmallSumsNarrow(n);
    OnesSumIsResidue(ws);
    ComplementInjective(Narrowed(n), OnesSum(ws));
  }

  lemma SmallSumsNarrow(n: nat)
    requires n <= 65538 * 0xffff
    ensures Narrowed(n) == Residue(n)
  {
    SmallSumsFold(n);
    TwoFolds(n);
  }

  lemma SmallSumsFold(n: nat)
    requires n <= 65538 * 0xffff
    ensures TwoFoldsSuffice(n)
  {
    var hi, lo := n / 0x1_0000, n % 0x1_0000;
    assert hi <= 0x1_0000 && (hi == 0x1_0000 ==> lo <= 0xfffe);
  }

  /** That bound is tight. */
  lemma CsumFailsAt65539()
    ensures var ws := seq(65538, _ => MAX_WORD) + [1 as word];
            |ws| == 65539 && Csum(ws) != Complement(OnesSum(ws))
  {
    var full: seq<word> := seq(65538, _ => MAX_WORD);
    SumOfCopies(65538);
    SumAppend(full, [1]);
    CsumIsRfc1071(full + [1]);
  }

  lemma {:induction false} SumOfCopies(n: nat)
    ensures Sum(seq(n, _ => MAX_WORD)) == n * 0xffff
  {
    if n > 0 {
      SumOfCopies(n - 1);
      assert seq(n, _ => MAX_WORD)[1..] == seq(n - 1, _ => MAX_WORD);
    }
  }

  // ----- Algebra -----

  lemma {:induction false} SumUpdate(ws: seq<word>, k: nat, v: word)
    requires k < |ws|
    ensures Sum(ws[k := v]) == Sum(ws) - ws[k] + v
  {
    if k == 0 {
      assert ws[0 := v][1..] == ws[1..];
    } else {
      assert ws[k := v][1..] == ws[1..][k - 1 := v];
      SumUpdate(ws[1..], k - 1, v);
    }
  }

  /**
   * RFC 791, section 3.1: with the checksum of a buffer whose check word is 0 stored in that
   * word, the checksum of the whole is 0.
   */
  lemma StoredChecksumVerifies(ws: seq<word>, k: nat)
    requires |ws| <= 65538 && k < |ws| && ws[k] == 0
    ensures Csum(ws[k := Csum(ws)]) == 0
  {
    var c := Csum(ws);
    CsumIsRfc1071UpTo65538(ws);
    CsumIsRfc1071UpTo65538(ws[k := c]);
    OnesSumIsResidue(ws);
    OnesSumIsResidue(ws[k := c]);
    SumUpdate(ws, k, c);
    var n := Sum(ws);
    if n > 0 {
      var q := (n - 1) / 0xffff;
      assert n + c == 0xffff + 0xffff * q;
      ResidueShift(n + c, 0xffff, q);
    }
  }

  /**
   * And no other word in that place makes it 0, except that where the sender would store 0 a
   * receiver also accepts 0xffff, the other representation of zero.
   */
  lemma OnlyStoredChecksumVerifies(ws: seq<word>, k: nat, v: word)
    requires |ws| <= 65538 && k < |ws| && ws[k] == 0
    ensures Csum(ws[k := v]) == 0 <==>
              v == Csum(ws) || (v == MAX_WORD && Csum(ws) == 0)
  {
    CsumIsRfc1071UpTo65538(ws);
    CsumIsRfc1071UpTo65538(ws[k := v]);
    OnesSumIsResidue(ws);
    OnesSumIsResidue(ws[k := v]);
    SumUpdate(ws, k, v);
    ResidueAdd(v, Sum(ws));
  }

  lemma {:induction false} SumRemove(ws: seq<word>, k: nat)
    requires k < |ws|
    ensures Sum(ws) == ws[k] + Sum(ws[..k] + ws[k + 1..])
  {
    assert ws == ws[..k] + ([ws[k]] + ws[k + 1..]);
    SumAppend(ws[..k], [ws[k]] + ws[k + 1..]);
    assert ([ws[k]] + ws[k + 1..])[1..] == ws[k + 1..];
    SumAppend(ws[..k], ws[k + 1..]);
  }

  lemma {:induction false} SumOfPermutation(xs: seq<word>, ys: seq<word>)
    requires multiset(xs) == multiset(ys)
    ensures Sum(xs) == Sum(ys)
  {
    if xs == [] {
      assert |multiset(ys)| == 0;
    } else {
      assert xs[0] in multiset(ys);
      var k :| 0 <= k < |ys| && ys[k] == xs[0];
      SumRemove(ys, k);
      var rest := ys[..k] + ys[k + 1..];
      assert xs == [xs[0]] + xs[1..];
      assert ys == ys[..k] + [ys[k]] + ys[k + 1..];
      assert multiset(xs[1..]) == multiset(xs) - multiset([xs[0]]);
      assert multiset(rest) == multiset(ys) - multiset([ys[k]]);
      SumOfPermutation(xs[1..], rest);
    }
  }

  /** RFC 1071, section 2 (A): the order of the words does not matter, whatever their number. */
  lemma OrderDoesNotMatter(xs: seq<word>, ys: seq<word>)
    requires multiset(xs) == multiset(ys)
    ensures Csum(xs) == Csum(ys)
  {
    SumOfPermutation(xs, ys);
  }

  function Swap(w: word): word {
    w % 0x100 * 0x100 + w / 0x100
  }

  function SwapAll(ws: seq<word>): (r: seq<word>)
    ensures |r| == |ws|
  {
    if ws == [] then [] else [Swap(ws[0])] + SwapAll(ws[1..])
  }

  /** Swapping a word's bytes multiplies it by 256, modulo 0xffff. */
  lemma SwapIsShift(w: word)
    ensures 0x100 * w == Swap(w) + 0xffff * (w / 0x100)
  {
  }

  lemma {:induction false} SumSwapped(ws: seq<word>) returns (q: nat)
    ensures 0x100 * Sum(ws) == Sum(SwapAll(ws)) + 0xffff * q
    ensures Sum(ws) == 0 <==> Sum(SwapAll(ws)) == 0
  {
    if ws == [] {
      return 0;
    }
    var rest := SumSwapped(ws[1..]);
    SwapIsShift(ws[0]);
    assert SwapAll(ws)[1..] == SwapAll(ws[1..]);
    q := ws[0] / 0x100 + rest;
  }

  lemma SwapResidue(n: nat)
    ensures Swap(Residue(n)) == Residue(0x100 * n)
  {
    if n > 0 {
      var r := Residue(n);
      var q := (n - 1) / 0xffff;
      assert n == r + 0xffff * q;
      SwapIsShift(r);
      assert 0x100 * n == Swap(r) + 0xffff * (r / 0x100 + 0x100 * q);
      ResidueShift(0x100 * n, Swap(r), r / 0x100 + 0x100 * q);
    }
  }

  /** RFC 1071, section 2 (B): swapping the bytes of every word swaps those of the checksum. */
  lemma ByteOrderIndependence(ws: seq<word>)
    requires |ws| <= 65538
    ensures Csum(SwapAll(ws)) == Swap(Csum(ws))
  {
    CsumIsRfc1071UpTo65538(ws);
    CsumIsRfc1071UpTo65538(SwapAll(ws));
    OnesSumIsResidue(ws);
    OnesSumIsResidue(SwapAll(ws));
    var q := SumSwapped(ws);
    SwapResidue(Sum(ws));
    if Sum(ws) > 0 {
      ResidueShift(0x100 * Sum(ws), Sum(SwapAll(ws)), q);
    }
    SwapComplement(OnesSum(ws));
  }

  lemma SwapParts(hi: nat, lo: nat)
    requires hi < 0x100 && lo < 0x100
    ensures Swap(hi * 0x100 + lo) == lo * 0x100 + hi
  {
  }

  lemma SwapComplement(w: word)
    ensures Swap(Complement(w)) == Complement(Swap(w))
  {
    var hi, lo := w / 0x100, w % 0x100;
    assert w == hi * 0x100 + lo && hi < 0x100;
    SwapParts(hi, lo);
    assert Complement(w) == (0xff - hi) * 0x100 + (0xff - lo);
    SwapParts(0xff - hi, 0xff - lo);
  }
}
