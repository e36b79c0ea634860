/**
 * Halstead volume of a snippet: program length times log2 of the program
 * vocabulary, from an operator walk and an operand walk of the parsed
 * declaration. Unlike the other features there is no guard for blank text:
 * every non-null snippet, blank ones included, goes to the parser.
 */
module HalsteadVolumeFeature {

  import opened Wrappers
  import opened Parser
  import opened Ast
  import opened FrequencyTable
  import opened Operands
  import opened Math

  /**
   * computeMetric: parse (a null snippet fails in the front end, a parse
   * failure is rethrown wrapped), walk the declaration with the operator
   * counter and with a fresh operand visitor, and combine both in the volume
   * formula. The operand side is the number of operand occurrences in the
   * tree and the number of distinct operand keys.
   */
  method ComputeMetric(codeSnippet: Option<string>, parse: Parse,
                       operatorVisitor: Node -> OperatorCounts, log2: real -> real)
    returns (r: Result<real, MetricError>)
    ensures codeSnippet.None? ==> r == Err(NullSnippet)
    ensures codeSnippet.Some? && parse(codeSnippet.value).Unparseable? ==>
              r == Err(WrappedParseException(ParseExceptionMessage(codeSnippet.value)))
    ensures codeSnippet.Some? && parse(codeSnippet.value).Parsed? ==>
              var root := parse(codeSnippet.value).root;
              var operators := operatorVisitor(root);
              r == Ok(HalsteadVolume(operators.totalOperators, operators.uniqueOperators,
                                     |OperandKeys(root)|, |Elements(OperandKeys(root))|, log2))
  {
    if codeSnippet.None? {
      return Err(NullSnippet);
    }
    var outcome := parse(codeSnippet.value);
    if outcome.Unparseable? {
      return Err(WrappedParseException(ParseExceptionMessage(codeSnippet.value)));
    }
    var operators := operatorVisitor(outcome.root);
    var operandVisitor := new OperandVisitor();
    operandVisitor.Visit(outcome.root);
    FreshTableOfTree(outcome.root);
    var totalOperands := operandVisitor.GetTotalNumberOfOperands();
    var uniqueOperands := operandVisitor.GetNumberOfUniqueOperands();
    r := Ok(HalsteadVolume(operators.totalOperators, operators.uniqueOperators,
                           totalOperands, uniqueOperands, log2));
  }

  /** getIdentifier. */
  function GetIdentifier(): (id: string)
    ensures id == "HalsteadVolume"
  {
    "HalsteadVolume"
  }
}
