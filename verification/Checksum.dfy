/** The Internet checksum of RFC 1071: the one's complement of the one's complement sum of the
    16-bit words of the data, an odd last byte being padded with zero. */
module Checksums {
  import opened Words

  const ONES: int := 0xFFFF

  /** One's complement addition: the carry out of bit 15 is added back in. */
  function EndAround(a: u16, b: u16): u16 {
    if a + b <= ONES then a + b else a + b - ONES
  }

  function FirstWord(s: seq<u8>): u16
    requires s != []
  {
    Word(s[0], if |s| > 1 then s[1] else 0)
  }

  function Rest(s: seq<u8>): seq<u8>
    requires s != []
  {
    if |s| > 1 then s[2..] else []
  }

  function OnesSum(s: seq<u8>): u16
    decreases |s|
  {
    if s == [] then 0 else EndAround(FirstWord(s), OnesSum(Rest(s)))
  }

  function Checksum(s: seq<u8>): u16 {
    ONES - OnesSum(s)
  }

  /** How a receiver checks: the sum over everything, checksum included, is all ones. */
  predicate Verifies(s: seq<u8>) {
    OnesSum(s) == ONES
  }

  // ---------------------------------------------------------------- plain sums

  function WordSum(s: seq<u8>): nat
    decreases |s|
  {
    if s == [] then 0 else FirstWord(s) + WordSum(Rest(s))
  }

  /** Folding the carries of a plain sum: the residue modulo 0xFFFF, zero only for zero. */
  function Fold(x: nat): u16 {
    if x == 0 then 0 else (x - 1) % ONES + 1
  }

  lemma FoldAdd(a: u16, x: nat)
    ensures EndAround(a, Fold(x)) == Fold(a + x)
  {
    if x > 0 && a > 0 {
      var q, r := (x - 1) / ONES, (x - 1) % ONES;
      assert a + x - 1 == ONES * q + (r + a);
      if r + a < ONES {
        DivUnique(a + x - 1, q, r + a);
      } else if r + a < 2 * ONES {
        DivUnique(a + x - 1, q + 1, r + a - ONES);
      }
    } else if x == 0 && a > 0 {
      DivUnique(a - 1, 0, a - 1);
    }
  }

  lemma DivUnique(x: nat, q: nat, r: nat)
    requires r < ONES && x == ONES * q + r
    ensures x % ONES == r
  {
  }

  /** The sum with end-around carries is the folded plain sum. */
  lemma {:induction false} OnesSumIsFoldedSum(s: seq<u8>)
    ensures OnesSum(s) == Fold(WordSum(s))
    decreases |s|
  {
    if s != [] {
      OnesSumIsFoldedSum(Rest(s));
      FoldAdd(FirstWord(s), WordSum(Rest(s)));
    }
  }

  lemma {:induction false} WordSumAppend(a: seq<u8>, b: seq<u8>)
    requires |a| % 2 == 0
    ensures WordSum(a + b) == WordSum(a) + WordSum(b)
    decreases |a|
  {
    if a == [] {
      assert a + b == b;
    } else {
      assert FirstWord(a + b) == FirstWord(a);
      assert Rest(a + b) == Rest(a) + b;
      WordSumAppend(Rest(a), b);
    }
  }

  /** Replacing one aligned word of the data. */
  lemma WordSumReplace(s: seq<u8>, t: seq<u8>, k: nat)
    requires k % 2 == 0 && k + 1 < |s| && |t| == |s|
    requires s[..k] == t[..k] && s[k + 2..] == t[k + 2..]
    ensures WordSum(t) == WordSum(s) - Word(s[k], s[k + 1]) + Word(t[k], t[k + 1])
  {
    SplitAt(s, k);
    SplitAt(t, k);
  }

  lemma SplitAt(s: seq<u8>, k: nat)
    requires k % 2 == 0 && k + 1 < |s|
    ensures WordSum(s) == WordSum(s[..k]) + Word(s[k], s[k + 1]) + WordSum(s[k + 2..])
  {
    assert s == s[..k] + s[k..];
    WordSumAppend(s[..k], s[k..]);
    assert Rest(s[k..]) == s[k + 2..];
  }

  /** Storing the checksum (or, where RFC 768 asks for it, all ones for a zero checksum) in an aligned
      word that was zero makes the data verify. */
  lemma StoredChecksumVerifies(s: seq<u8>, t: seq<u8>, k: nat, c: u16)
    requires k % 2 == 0 && k + 1 < |s| && |t| == |s|
    requires s[..k] == t[..k] && s[k + 2..] == t[k + 2..]
    requires s[k] == s[k + 1] == 0 && Word(t[k], t[k + 1]) == c
    requires c == Checksum(s) || (Checksum(s) == 0 && c == ONES)
    ensures Verifies(t)
  {
    WordSumReplace(s, t, k);
    OnesSumIsFoldedSum(s);
    OnesSumIsFoldedSum(t);
    var x := WordSum(s);
    assert WordSum(t) == x + c;
    if x == 0 {
      assert c == ONES;
      DivUnique(ONES - 1, 0, ONES - 1);
    } else {
      var q, r := (x - 1) / ONES, (x - 1) % ONES;
      assert x - 1 == ONES * q + r && OnesSum(s) == r + 1;
      if c == ONES - (r + 1) {
        DivUnique(x + c - 1, q, ONES - 1);
      } else {
        DivUnique(x + c - 1, q + 1, r);
      }
    }
  }
}
