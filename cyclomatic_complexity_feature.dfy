/**
 * Cyclomatic complexity of a snippet: one plus the number of decision points
 * in its parsed declaration.
 */
module CyclomaticComplexityFeature {

  import opened Wrappers
  import opened JavaText
  import opened Parser
  import opened Complexity

  /**
   * computeMetric: 1 for null or blank text, without parsing; a parse
   * failure is rethrown wrapped; otherwise a fresh visitor walks the
   * declaration and its complexity is the value. Every value is at least 1.
   */
  method ComputeMetric(codeSnippet: Option<string>, parse: Parse) returns (r: Result<real, MetricError>)
    ensures NullOrBlank(codeSnippet) ==> r == Ok(1.0)
    ensures !NullOrBlank(codeSnippet) && parse(codeSnippet.value).Unparseable? ==>
              r == Err(WrappedParseException(ParseExceptionMessage(codeSnippet.value)))
    ensures !NullOrBlank(codeSnippet) && parse(codeSnippet.value).Parsed? ==>
              r == Ok((1 + DecisionCount(parse(codeSnippet.value).root)) as real)
    ensures r.Ok? ==> r.value >= 1.0
  {
    if NullOrBlank(codeSnippet) {
      return Ok(1.0);
    }
    var outcome := parse(codeSnippet.value);
    if outcome.Unparseable? {
      return Err(WrappedParseException(ParseExceptionMessage(codeSnippet.value)));
    }
    var complexityVisitor := new CyclomaticComplexityVisitor();
    complexityVisitor.Visit(outcome.root);
    r := Ok(complexityVisitor.GetComplexity() as real);
  }

  /** getIdentifier. */
  function GetIdentifier(): (id: string)
    ensures id == "CyclomaticComplexity"
  {
    "CyclomaticComplexity"
  }
}
