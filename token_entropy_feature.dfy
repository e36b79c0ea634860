/**
 * Token entropy: the Shannon entropy of the token texts of a snippet, every
 * token counted (white space and punctuation included).
 */
module TokenEntropyFeature {

  import opened Wrappers
  import opened JavaText
  import opened Parser
  import opened FrequencyTable
  import opened Math

  /** The message of the error raised when the parsed snippet has no token range. */
  const TokenRangeMissingMessage := "Token extraction failed: Token range is not available."

  /** The outcome for a snippet that is neither null nor blank. */
  ghost function EntropyOfText(codeSnippet: string, parse: Parse, log2: real -> real): Result<real, MetricError> {
    match parse(codeSnippet)
    case Unparseable => Err(WrappedParseException(ParseExceptionMessage(codeSnippet)))
    case Parsed(_, None) => Err(RuntimeFailure(TokenRangeMissingMessage))
    case Parsed(_, Some(tokens)) => Ok(Entropy(Tally(tokens), |tokens|, log2))
  }

  /**
   * computeMetric: 0 for null or blank text, without parsing; otherwise
   * parse, take the token range, count every token text and its total, and
   * hand both to the entropy formula.
   */
  method ComputeMetric(codeSnippet: Option<string>, parse: Parse, log2: real -> real)
    returns (r: Result<real, MetricError>)
    ensures NullOrBlank(codeSnippet) ==> r == Ok(0.0)
    ensures !NullOrBlank(codeSnippet) ==> r == EntropyOfText(codeSnippet.value, parse, log2)
  {
    if NullOrBlank(codeSnippet) {
      return Ok(0.0);
    }
    var outcome := parse(codeSnippet.value);
    if outcome.Unparseable? {
      return Err(WrappedParseException(ParseExceptionMessage(codeSnippet.value)));
    }
    if outcome.tokenRange.None? {
      return Err(RuntimeFailure(TokenRangeMissingMessage));
    }
    var tokens := outcome.tokenRange.value;
    var tokenDictionary: Table := map[];
    var totalNumOfTokens := 0;
    var i := 0;
    while i < |tokens|
      invariant 0 <= i <= |tokens|
      invariant tokenDictionary == Tally(tokens[..i])
      invariant totalNumOfTokens == i
      invariant SumValues(tokenDictionary) == totalNumOfTokens
    {
      var currentToken := tokens[i];
      var numOfOccurrences := if currentToken in tokenDictionary then tokenDictionary[currentToken] + 1 else 1;
      SumValuesMerge(tokenDictionary, currentToken);
      tokenDictionary := tokenDictionary[currentToken := numOfOccurrences];
      totalNumOfTokens := totalNumOfTokens + 1;
      assert tokens[..i + 1][..i] == tokens[..i];
      i := i + 1;
    }
    assert tokens[..|tokens|] == tokens;
    var entropy := TokenEntropy(tokenDictionary, totalNumOfTokens, log2);
    r := Ok(entropy);
  }

  /** getIdentifier. */
  function GetIdentifier(): (id: string)
    ensures id == "TokenEntropy"
  {
    "TokenEntropy"
  }

  /** The table of a token sequence in which one text repeats is that text with the length. */
  lemma TallyOfOneText(tokens: seq<string>, t: string)
    requires |tokens| >= 1 && Elements(tokens) == {t}
    ensures Tally(tokens) == map[t := |tokens|]
  {
    var m := Tally(tokens);
    TallyKeys(tokens);
    TallySum(tokens);
    SumOverRemove(m.Keys, m, t);
    assert m.Keys - {t} == {};
  }

  /**
   * With two or more distinct token texts, every text's share lies strictly
   * between 0 and 1.
   */
  lemma SharesOfMixedTokens(tokens: seq<string>, k: string)
    requires |Elements(tokens)| >= 2 && k in Tally(tokens)
    ensures 1 <= Tally(tokens)[k] < |tokens|
  {
    var m := Tally(tokens);
    TallyKeys(tokens);
    TallySum(tokens);
    TallyCounts(tokens, k);
    forall j | j in m ensures m[j] >= 1 {
      TallyCounts(tokens, j);
    }
    SumOverRemove(m.Keys, m, k);
    assert |m.Keys - {k}| >= 1;
    SumOverAtLeastSize(m.Keys - {k}, m);
  }

  /** A token sequence that repeats one text has entropy 0, because log2(1) = 0. */
  lemma UniformTokensHaveZeroEntropy(tokens: seq<string>, log2: real -> real)
    requires |tokens| >= 1 && |Elements(tokens)| == 1
    requires Log2Facts(log2)
    ensures Entropy(Tally(tokens), |tokens|, log2) == 0.0
  {
    var t := tokens[0];
    assert t in Elements(tokens);
    assert Elements(tokens) == {t} by {
      forall x | x in Elements(tokens) ensures x == t {
        assert |Elements(tokens) - {t}| == 0;
      }
    }
    TallyOfOneText(tokens, t);
    EntropyOfSingleKind(t, |tokens|, log2);
  }

  /**
   * A token sequence with two or more distinct texts has positive entropy,
   * given that log2 is negative strictly between 0 and 1.
   */
  lemma MixedTokensHavePositiveEntropy(tokens: seq<string>, log2: real -> real)
    requires |Elements(tokens)| >= 2
    requires forall p :: 0.0 < p < 1.0 ==> log2(p) < 0.0
    ensures Entropy(Tally(tokens), |tokens|, log2) > 0.0
  {
    var m := Tally(tokens);
    TallyKeys(tokens);
    forall k | k in m.Keys ensures 0.0 < Probability(m[k], |tokens|) < 1.0 {
      SharesOfMixedTokens(tokens, k);
    }
    TermSumNegative(m.Keys, m, |tokens|, log2);
  }

  /**
   * For a non-empty token sequence, entropy is 0 exactly when all tokens are
   * the same text.
   */
  lemma EntropyZeroIffUniform(tokens: seq<string>, log2: real -> real)
    requires |tokens| >= 1
    requires Log2Facts(log2)
    requires forall p :: 0.0 < p < 1.0 ==> log2(p) < 0.0
    ensures Entropy(Tally(tokens), |tokens|, log2) == 0.0 <==> |Elements(tokens)| == 1
  {
    assert tokens[0] in Elements(tokens);
    if |Elements(tokens)| == 1 {
      UniformTokensHaveZeroEntropy(tokens, log2);
    } else {
      MixedTokensHavePositiveEntropy(tokens, log2);
    }
  }
}
