/**
 * The shared formulas: Halstead volume and the Shannon entropy of a token
 * frequency table. Logarithms are taken by a log2 function handed in by the
 * caller, of which only the values the formulas are checked against are known.
 */
module Math {

  import opened FrequencyTable

  /** The four values log2 is known to take. */
  predicate Log2Facts(log2: real -> real) {
    log2(1.0) == 0.0 && log2(2.0) == 1.0 && log2(4.0) == 2.0 && log2(8.0) == 3.0
  }

  /**
   * What halsteadVolume reads from an operator visitor after its walk: the
   * total number of operators and the number of distinct ones.
   */
  datatype OperatorCounts = OperatorCounts(totalOperators: nat, uniqueOperators: nat)

  /** Program length: total operators plus total operands. */
  function ProgramLength(totalOperators: int, totalOperands: int): int {
    totalOperators + totalOperands
  }

  /** Program vocabulary: unique operators plus unique operands. */
  function ProgramVocabulary(uniqueOperators: int, uniqueOperands: int): int {
    uniqueOperators + uniqueOperands
  }

  /**
   * halsteadVolume: program length times log2 of the program vocabulary.
   * In real arithmetic a program of length 0 has volume 0; in Java the
   * vocabulary is then 0 too and 0 * log2(0) is NaN.
   */
  function HalsteadVolume(totalOperators: int, uniqueOperators: int,
                          totalOperands: int, uniqueOperands: int,
                          log2: real -> real): (volume: real)
    ensures totalOperators + totalOperands == 0 ==> volume == 0.0
    ensures log2(1.0) == 0.0 && uniqueOperators + uniqueOperands == 1 ==> volume == 0.0
    ensures log2(2.0) == 1.0 && uniqueOperators + uniqueOperands == 2 ==>
              volume == (totalOperators + totalOperands) as real
  {
    ProgramLength(totalOperators, totalOperands) as real
      * log2(ProgramVocabulary(uniqueOperators, uniqueOperands) as real)
  }

  /**
   * Operators and operands contribute alike to length and vocabulary; with
   * 5 operators (3 unique) and 7 operands (4 unique) the volume is 12 log2(7);
   * a vocabulary of one word gives volume 0 whatever the length.
   */
  lemma HalsteadVolumeProperties(log2: real -> real)
    requires Log2Facts(log2)
    ensures forall to, uo, ta, ua ::
              HalsteadVolume(to, uo, ta, ua, log2) == HalsteadVolume(ta, ua, to, uo, log2)
    ensures HalsteadVolume(5, 3, 7, 4, log2) == 12.0 * log2(7.0)
    ensures forall to, uo, ta, ua :: uo + ua == 1 ==> HalsteadVolume(to, uo, ta, ua, log2) == 0.0
    ensures forall to, uo, ta, ua :: uo + ua == 2 ==> HalsteadVolume(to, uo, ta, ua, log2) == (to + ta) as real
  {
  }

  /** The share of the tokens that one table entry accounts for. */
  function Probability(count: int, total: int): real
    requires total != 0
  {
    count as real / total as real
  }

  /** p * log2(p) for the entry of key k. */
  function EntropyTerm(m: Table, total: int, log2: real -> real, k: string): real
    requires k in m && total != 0
  {
    Probability(m[k], total) * log2(Probability(m[k], total))
  }

  /** The sum of p * log2(p) over the given keys. */
  ghost function TermSum(keys: set<string>, m: Table, total: int, log2: real -> real): real
    requires keys <= m.Keys && (keys != {} ==> total != 0)
    decreases keys
  {
    if keys == {} then 0.0
    else var k := Pick(keys); EntropyTerm(m, total, log2, k) + TermSum(keys - {k}, m, total, log2)
  }

  /** Shannon entropy in bits: minus the sum of p * log2(p) over all entries. */
  ghost function Entropy(m: Table, total: int, log2: real -> real): real
    requires m != map[] ==> total != 0
  {
    - TermSum(m.Keys, m, total, log2)
  }

  /** The entropy sum may take its entries in any order. */
  lemma {:induction false} TermSumRemove(keys: set<string>, m: Table, total: int, log2: real -> real, k: string)
    requires keys <= m.Keys && total != 0 && k in keys
    ensures TermSum(keys, m, total, log2) == EntropyTerm(m, total, log2, k) + TermSum(keys - {k}, m, total, log2)
    decreases keys
  {
    var j := Pick(keys);
    if j != k {
      TermSumRemove(keys - {j}, m, total, log2, k);
      TermSumRemove(keys - {k}, m, total, log2, j);
      assert keys - {j} - {k} == keys - {k} - {j};
    }
  }

  /**
   * tokenEntropy: starting from 0.0, subtract p * log2(p) once per table
   * entry, in whatever order the map yields its entries.
   */
  method TokenEntropy(tokenDictionary: Table, totalNumOfTokens: int, log2: real -> real)
    returns (tokenEntropy: real)
    requires tokenDictionary != map[] ==> totalNumOfTokens != 0
    ensures tokenEntropy == Entropy(tokenDictionary, totalNumOfTokens, log2)
  {
    tokenEntropy := 0.0;
    var pending := tokenDictionary.Keys;
    ghost var done: set<string> := {};
    while pending != {}
      invariant pending <= tokenDictionary.Keys && done == tokenDictionary.Keys - pending
      invariant tokenEntropy == - TermSum(done, tokenDictionary, totalNumOfTokens, log2)
      decreases |pending|
    {
      var token :| token in pending;
      var probOfEncounteringToken := Probability(tokenDictionary[token], totalNumOfTokens);
      tokenEntropy := tokenEntropy - probOfEncounteringToken * log2(probOfEncounteringToken);
      TermSumRemove(done + {token}, tokenDictionary, totalNumOfTokens, log2, token);
      assert done + {token} - {token} == done;
      pending := pending - {token};
      done := done + {token};
    }
  }

  /** An empty table has entropy 0. */
  lemma EntropyOfEmptyTable(total: int, log2: real -> real)
    ensures Entropy(map[], total, log2) == 0.0
  {
  }

  /** One token kind that makes up all tokens has entropy 0 (as log2(1) = 0). */
  lemma EntropyOfSingleKind(token: string, count: int, log2: real -> real)
    requires Log2Facts(log2) && count != 0
    ensures Entropy(map[token := count], count, log2) == 0.0
  {
    var m := map[token := count];
    assert Probability(count, count) == 1.0;
    assert EntropyTerm(m, count, log2, token) == 0.0;
    TermSumRemove(m.Keys, m, count, log2, token);
    assert m.Keys - {token} == {};
  }

  /**
   * Two different tokens once each: the entropy is -log2(1/2), which is one
   * bit when log2(1/2) = -1.
   */
  lemma EntropyOfTwoKinds(a: string, b: string, log2: real -> real)
    requires a != b
    ensures Entropy(map[a := 1, b := 1], 2, log2) == - log2(0.5)
    ensures log2(0.5) == -1.0 ==> Entropy(map[a := 1, b := 1], 2, log2) == 1.0
  {
    var m := map[a := 1, b := 1];
    TermSumRemove(m.Keys, m, 2, log2, a);
    assert m.Keys - {a} == {b};
    TermSumRemove({b}, m, 2, log2, b);
    assert {b} - {b} == {};
  }

  /**
   * When every key's share of the total lies strictly between 0 and 1 and
   * log2 is negative on that interval, the sum of p * log2(p) over the keys
   * is negative.
   */
  lemma {:induction false} TermSumNegative(keys: set<string>, m: Table, total: int, log2: real -> real)
    requires keys <= m.Keys && keys != {} && total != 0
    requires forall k :: k in keys ==> 0.0 < Probability(m[k], total) < 1.0
    requires forall p :: 0.0 < p < 1.0 ==> log2(p) < 0.0
    ensures TermSum(keys, m, total, log2) < 0.0
    decreases keys
  {
    var k := Pick(keys);
    var p := Probability(m[k], total);
    assert log2(p) < 0.0;
    assert p * log2(p) < 0.0;
    if keys - {k} != {} {
      TermSumNegative(keys - {k}, m, total, log2);
    }
  }
}
