/**
 * The boundary to the Java front end. Parsing itself belongs to the JavaParser
 * library; the metrics receive it as a function from snippet text to outcome.
 */
module Parser {

  import opened Wrappers
  import opened Ast

  /**
   * What parsing a snippet as a class-body declaration yields: the
   * declaration's tree together with the texts of its token range (absent when
   * the front end kept no token range), or a failure.
   */
  datatype ParseOutcome = Parsed(root: Node, tokenRange: Option<seq<string>>) | Unparseable

  /** A parser: the one thing the metrics know about it is that it is a function of the text. */
  type Parse = string -> ParseOutcome

  /** The exceptions a metric computation ends with instead of a value. */
  datatype MetricError =
    /** A RuntimeException whose cause is the ParseException the snippet raised. */
    | WrappedParseException(parseMessage: string)
    /** A RuntimeException with a message of its own. */
    | RuntimeFailure(message: string)
    /** The front end dereferencing a null snippet. */
    | NullSnippet

  /** The message of the ParseException raised for a snippet that does not parse. */
  function ParseExceptionMessage(codeSnippet: string): (message: string)
    ensures |message| == 16 + |codeSnippet|
    ensures message[..16] == "Could not parse " && message[16..] == codeSnippet
  {
    "Could not parse " + codeSnippet
  }
}
