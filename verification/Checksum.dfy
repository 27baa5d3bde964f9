/**
 * The Internet checksum as the data plane computes it: folding a 64-bit accumulator, and the
 * incremental update of RFC 1624 section 3, against the ones' complement sum of RFC 1071 section 1.
 */
module Checksum {
  import opened Base

  type Word = w: int | 0 <= w < 0x1_0000

  // ---------------------------------------------------------------- ones' complement

  /** RFC 1071: add, and add the carry back in. */
  function OnesAdd(a: Word, b: Word): Word {
    if a + b >= 0x1_0000 then a + b - 0xFFFF else a + b
  }

  function OnesSum(words: seq<Word>): Word {
    if words == [] then 0 else OnesAdd(words[0], OnesSum(words[1..]))
  }

  /** A message verifies when the ones' complement sum of its words, checksum included, is all ones. */
  predicate Verifies(words: seq<Word>) { OnesSum(words) == 0xFFFF }

  function PlainSum(words: seq<Word>): nat {
    if words == [] then 0 else words[0] + PlainSum(words[1..])
  }

  /** The representative of a sum: congruent mod 65535, and 0 only for 0. */
  function Residue(n: nat): Word {
    if n == 0 then 0 else if n % 0xFFFF == 0 then 0xFFFF else n % 0xFFFF
  }

  lemma {:induction false} OnesSumIsResidue(words: seq<Word>)
    ensures OnesSum(words) == Residue(PlainSum(words))
  {
    if words != [] {
      OnesSumIsResidue(words[1..]);
      OnesAddResidue(words[0], PlainSum(words[1..]));
    }
  }

  lemma OnesAddResidue(a: Word, n: nat)
    ensures OnesAdd(a, Residue(n)) == Residue(a + n)
  {
    var q, r := n / 0xFFFF, n % 0xFFFF;
    assert n == q * 0xFFFF + r;
  }

  /** So a message verifies exactly when its plain sum is a positive multiple of 65535. */
  lemma VerifiesIff(words: seq<Word>)
    ensures Verifies(words) <==> PlainSum(words) > 0 && PlainSum(words) % 0xFFFF == 0
  {
    OnesSumIsResidue(words);
  }

  // ---------------------------------------------------------------- folding

  /** One turn of the loop: low 16 bits plus the rest. */
  function Fold(c: nat): nat { c % 0x1_0000 + c / 0x1_0000 }

  function Folds(c: nat, n: nat): nat {
    if n == 0 then c else Fold(Folds(c, n - 1))
  }

  function Complement(w: Word): Word { 0xFFFF - w }

  /** csum_fold_helper: four folds, then the complement truncated to 16 bits. */
  method FoldHelper(csum: nat) returns (r: Word)
    requires csum < 0x1_0000_0000_0000_0000
    ensures r == Complement(Residue(csum))
  {
    var c := csum;
    for i := 0 to 4
      invariant c == Folds(csum, i)
    {
      c := c % 0x1_0000 + c / 0x1_0000;
    }
    FourFoldsSuffice(csum);
    r := 0xFFFF - c % 0x1_0000;
  }

  lemma FoldKeepsResidue(c: nat)
    ensures Residue(Fold(c)) == Residue(c)
    ensures Fold(c) == 0 <==> c == 0
  {
    var high, low := c / 0x1_0000, c % 0x1_0000;
    assert c == high * 0xFFFF + (high + low);
    AddMultiple(high + low, high);
  }

  lemma AddMultiple(n: nat, k: nat)
    ensures (k * 0xFFFF + n) % 0xFFFF == n % 0xFFFF
  {
    assert n == n / 0xFFFF * 0xFFFF + n % 0xFFFF;
    assert k * 0xFFFF + n == (k + n / 0xFFFF) * 0xFFFF + n % 0xFFFF;
  }

  lemma {:induction false} FoldsKeepResidue(c: nat, n: nat)
    ensures Residue(Folds(c, n)) == Residue(c)
  {
    if n != 0 {
      FoldsKeepResidue(c, n - 1);
      FoldKeepsResidue(Folds(c, n - 1));
    }
  }

  lemma FoldShrinks(c: nat)
    ensures c < 0x1_0000_0000_0000_0000 ==> Fold(c) <= 0x1_0000_0000_0000 + 0xFFFE
    ensures c <= 0x1_0000_0000_0000 + 0xFFFE ==> Fold(c) <= 0x1_0000_0000 + 0xFFFE
    ensures c <= 0x1_0000_0000 + 0xFFFE ==> Fold(c) <= 0x1_FFFE
    ensures c <= 0x1_FFFE ==> Fold(c) <= 0xFFFF
  {
  }

  lemma SmallResidue(c: nat)
    requires c <= 0xFFFF
    ensures Residue(c) == c
  {
  }

  /** For every 64-bit accumulator four folds leave 16 bits: its representative. */
  lemma FourFoldsSuffice(c: nat)
    requires c < 0x1_0000_0000_0000_0000
    ensures Folds(c, 4) == Residue(c)
  {
    FoldShrinks(c);
    FoldShrinks(Folds(c, 1));
    FoldShrinks(Folds(c, 2));
    FoldShrinks(Folds(c, 3));
    assert Folds(c, 1) == Fold(c) && Folds(c, 2) == Fold(Folds(c, 1));
    assert Folds(c, 3) == Fold(Folds(c, 2)) && Folds(c, 4) == Fold(Folds(c, 3));
    FoldsKeepResidue(c, 4);
    SmallResidue(Folds(c, 4));
  }

  /** Three are not enough: the largest accumulator still has 17 bits. */
  lemma ThreeFoldsDoNot()
    ensures Folds(0xFFFF_FFFF_FFFF_FFFF, 3) == 0x1_FFFE
  {
    assert Folds(0xFFFF_FFFF_FFFF_FFFF, 1) == 0x1_0000_0000_FFFE;
    assert Folds(0xFFFF_FFFF_FFFF_FFFF, 2) == 0x1_0000_FFFE;
  }

  // ---------------------------------------------------------------- a full checksum

  /** What bpf_csum_diff promises: a 32-bit sum congruent to the words' sum, 0 only for all zeros. */
  predicate IsCsumDiff(words: seq<Word>, d: nat) {
    d < 0x1_0000_0000 && d % 0xFFFF == PlainSum(words) % 0xFFFF && (d == 0 <==> PlainSum(words) == 0)
  }

  /** ipv4_csum, whatever representative the kernel's helper returns. */
  method Ipv4Csum(words: seq<Word>, diff: nat) returns (r: Word)
    requires IsCsumDiff(words, diff)
    ensures r == Complement(OnesSum(words))
  {
    OnesSumIsResidue(words);
    r := FoldHelper(diff);
  }

  lemma {:induction false} PlainSumConcat(a: seq<Word>, b: seq<Word>)
    ensures PlainSum(a + b) == PlainSum(a) + PlainSum(b)
  {
    if a == [] {
      assert a + b == b;
    } else {
      assert (a + b)[1..] == a[1..] + b;
      PlainSumConcat(a[1..], b);
    }
  }

  lemma PlainSumAt(words: seq<Word>, i: nat, w: Word)
    requires i < |words|
    ensures PlainSum(words[i := w]) == PlainSum(words) - words[i] + w
  {
    assert words == words[..i] + ([words[i]] + words[i + 1..]);
    assert words[i := w] == words[..i] + ([w] + words[i + 1..]);
    PlainSumConcat(words[..i], [words[i]] + words[i + 1..]);
    PlainSumConcat(words[..i], [w] + words[i + 1..]);
  }

  /** Putting the complement of the sum into a zeroed checksum word makes the header verify. */
  lemma ChecksumVerifies(words: seq<Word>, i: nat)
    requires i < |words| && words[i] == 0 && PlainSum(words) > 0
    ensures Verifies(words[i := Complement(OnesSum(words))])
  {
    OnesSumIsResidue(words);
    PlainSumAt(words, i, Complement(OnesSum(words)));
    var n := PlainSum(words);
    ResidueComplement(n);
    VerifiesIff(words[i := Complement(OnesSum(words))]);
  }

  lemma ResidueComplement(n: nat)
    ensures (n + Complement(Residue(n))) % 0xFFFF == 0
  {
    assert n == n / 0xFFFF * 0xFFFF + n % 0xFFFF;
    if n > 0 && n % 0xFFFF == 0 {
    } else {
      assert n + Complement(Residue(n)) == (n / 0xFFFF + 1) * 0xFFFF;
    }
  }

  // ---------------------------------------------------------------- incremental update

  /** 16-bit addition with wrap-around. */
  function Wrap16(n: nat): Word { n % 0x1_0000 }

  /** ipv4_csum_replace: the checksum word after old is replaced by new. */
  method CsumReplace(sum: Word, old_: Word, new_: Word) returns (r: Word)
    ensures r == Replaced(sum, old_, new_)
  {
    var csum: Word := 0xFFFF - sum;
    var not: Word := 0xFFFF - old_;
    csum := Wrap16(csum + not);
    if csum < not { csum := Wrap16(csum + 1); }
    csum := Wrap16(csum + new_);
    if csum < new_ { csum := Wrap16(csum + 1); }
    r := 0xFFFF - csum;
  }

  /** RFC 1624 equation 3: HC' = ~(~HC + ~m + m'). */
  function Replaced(sum: Word, old_: Word, new_: Word): Word {
    Complement(OnesAdd(OnesAdd(Complement(sum), Complement(old_)), new_))
  }

  /**
   * Replacing word i of a verifying message and updating its checksum word keeps it verifying,
   * except exactly when everything but those two words is zero, the new word is zero too, and the
   * two old words were not both all ones: then the whole message becomes zero.
   */
  lemma ReplaceVerifiesIff(words: seq<Word>, i: nat, c: nat, new_: Word)
    requires i < |words| && c < |words| && i != c && Verifies(words)
    ensures Verifies(words[i := new_][c := Replaced(words[c], words[i], new_)])
       <==> !(PlainSum(words) == (words[i] as int) + words[c] && new_ == 0 && (words[i] as int) + words[c] == 0xFFFF)
  {
    var sum := Replaced(words[c], words[i], new_);
    PlainSumAt(words, i, new_);
    PlainSumAt(words[i := new_], c, sum);
    VerifiesIff(words);
    VerifiesIff(words[i := new_][c := sum]);
    var rest := PlainSum(words) - words[i] - words[c];
    RestIsSum(words, i, c);
    ReplaceArithmetic(rest, words[i], words[c], new_);
  }

  lemma RestIsSum(words: seq<Word>, i: nat, c: nat)
    requires i < |words| && c < |words| && i != c
    ensures PlainSum(words) >= (words[i] as int) + words[c]
  {
    PlainSumAt(words, i, 0);
    PlainSumAt(words[i := 0], c, 0);
  }

  lemma ReplaceArithmetic(rest: nat, old_: Word, sum: Word, new_: Word)
    requires rest + old_ + sum > 0 && (rest + old_ + sum) % 0xFFFF == 0
    ensures var total := rest + new_ + Replaced(sum, old_, new_);
      && total % 0xFFFF == 0
      && (total == 0 <==> rest == 0 && new_ == 0 && old_ + sum == 0xFFFF)
  {
    var total := rest + new_ + Replaced(sum, old_, new_);
    var q := (rest + old_ + sum) / 0xFFFF;
    assert rest + old_ + sum == q * 0xFFFF;
    var a := OnesAdd(Complement(sum), Complement(old_));
    var k := (if a as int == 0xFFFF - sum + 0xFFFF - old_ then 0 else 1)
             + (if OnesAdd(a, new_) as int == a as int + new_ then 0 else 1);
    assert total == rest + old_ + sum - 0xFFFF + k * 0xFFFF;
    assert total == (q - 1 + k) * 0xFFFF;
  }
}
