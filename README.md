# Readability metrics engine, modelled in Dafny

This project models the metrics engine of a Java code-readability tool. The
tool reads Java snippets and computes one number per snippet and feature. The
numbers are written to a CSV file that a classifier is later trained on.

The model covers these parts:

- **Operand counter** (`Operands.OperandVisitor`). It walks a parsed
  declaration in pre-order and merges `+1` into a name → count map for:
  - every boolean, char, integer, long, double and string literal, keyed by
    its value text (other literal kinds, such as text blocks, are not counted);
  - `null`;
  - every declared variable name;
  - every name expression that has a parent which is not a field access,
    method call or array access. A name that is a call argument or an array
    index has such a parent and is not counted. A counted name spelled `null`
    in any case is folded to `"null"`.

  The unique operand count is the number of keys. The total is the sum of the
  counts.
- **Cyclomatic complexity counter** (`Complexity.CyclomaticComplexityVisitor`).
  A field starts at 1 and grows by one for each of these:
  - `if`, `catch`, `for`, for-each, `while`, `do` and the ternary operator;
  - each switch entry that does not start with `default`;
  - each `&&` or `||`.
- **Line counter** (`NumberLinesFeature`). Blank text has 0 lines. Otherwise
  a final `\n`, `\r` or `\r\n` is stripped and the result is the number of
  pieces that `split("\\R", -1)` makes. Any other final terminator (U+2028,
  U+2029, U+0085, VT, FF) stays and counts as a separator.
- **Token entropy** (`TokenEntropyFeature`, `Math`). The token texts are folded
  into a frequency map and a running total. The Shannon entropy is then
  accumulated entry by entry.
- **Halstead volume** (`HalsteadVolumeFeature`, `Math`): program length times
  log2 of the program vocabulary. The counts come from an operator walk and a
  fresh operand walk of the same tree.
- **Command-line helpers** (`SubcommandPreprocess`):
  - case-insensitive conversion of a metric name to a metric;
  - the CSV header line.

Conventions used throughout:

- The syntax tree is a closed datatype (`Ast.Node`). It has one kind per node
  class the visitors react to, and a generic kind for all other nodes.
- A visitor's walk is a recursive `Visit` method on its class. Each walk is
  proved against a function over the pre-order sequence of the tree.
- A metric whose Java code throws returns `Err` of a `Parser.MetricError` in
  the model.
- The Java parser, the operator counter and `log2` are taken as function
  parameters. Nothing is assumed about them except what a lemma states in its
  `requires`.

Where the tests and the code disagree, the code is followed. The tests expect
`HalsteadVolumeFeature.computeMetric` to return 0.0 for null, empty and blank
text. The code has no guard, though, and hands every snippet to the parser. The
model does the same (`HalsteadVolumeFeature.ComputeMetric`).

## Model

| member | source | states |
|---|---|---|
| Ast.PreOrder | src/de/uni_passau/fim/se2/sa/readability/utils/OperandVisitor.java:37-102 | The walk order of a visitor that handles a node and then calls `super.visit`. It starts at the node itself. |
| FrequencyTable.Merge | src/de/uni_passau/fim/se2/sa/readability/utils/OperandVisitor.java:39 | `merge(key, 1, Integer::sum)` adds the key if it is new. The key's count becomes its old count (0 if absent) plus 1. Every other key keeps its count. |
| FrequencyTable.MergeAllConcat | src/de/uni_passau/fim/se2/sa/readability/utils/OperandVisitor.java:37-102 | Merging two sequences of keys one after the other equals merging their concatenation. This is what makes the walk compositional. |
| FrequencyTable.MergeAllCounts | src/de/uni_passau/fim/se2/sa/readability/utils/OperandVisitor.java:37-102 | After merging a sequence into a map, a key is present iff it was present before or occurs in the sequence. Its count is the old count plus its number of occurrences. |
| FrequencyTable.TallyCounts | src/de/uni_passau/fim/se2/sa/readability/features/TokenEntropyFeature.java:43-52 | In a map built from empty, a key is present iff it occurs in the sequence. Its count is its number of occurrences, and that is at least 1. |
| FrequencyTable.TallyKeys | src/de/uni_passau/fim/se2/sa/readability/features/TokenEntropyFeature.java:43-52 | The keys of a map built from empty are exactly the distinct elements of the sequence. |
| FrequencyTable.TallyOrderIndependent | src/de/uni_passau/fim/se2/sa/readability/utils/OperandVisitor.java:37-102 | Two sequences with the same multiset of keys build the same map, whatever their order. |
| FrequencyTable.SumOverRemove | src/de/uni_passau/fim/se2/sa/readability/utils/OperandVisitor.java:30-35 | The sum of the counts over a key set is any one key's count plus the sum over the rest. |
| FrequencyTable.SumOverAgree | src/de/uni_passau/fim/se2/sa/readability/utils/OperandVisitor.java:30-35 | Sums over a key set depend only on the counts of those keys. |
| FrequencyTable.SumValuesMerge | src/de/uni_passau/fim/se2/sa/readability/features/TokenEntropyFeature.java:44-53 | One merge raises the sum of all counts by exactly 1, as one loop step raises the total by 1. |
| FrequencyTable.TallySum | src/de/uni_passau/fim/se2/sa/readability/features/TokenEntropyFeature.java:42-54 | The counts of a map built from a sequence add up to the sequence's length. |
| FrequencyTable.SumOverAtLeastSize | src/de/uni_passau/fim/se2/sa/readability/utils/OperandVisitor.java:30-35 | If every count is at least 1, the sum is at least the number of keys. |
| Operands.KeysOfConcat | src/de/uni_passau/fim/se2/sa/readability/utils/OperandVisitor.java:37-102 | The keys met over a concatenation of node sequences are the keys of each part, in order. |
| Operands.OperandKey | src/de/uni_passau/fim/se2/sa/readability/utils/OperandVisitor.java:37-102 | A node contributes a key iff it is a literal, `null`, a variable declarator, or a name whose parent is present and is not a field access, method call or array access. `null` is counted under "null". |
| Operands.LeafContribution | src/de/uni_passau/fim/se2/sa/readability/utils/OperandVisitor.java:37-84 | For a node without children: a literal, `null` or a variable declarator merges 1 under its key and changes nothing else. Any other childless node leaves the map unchanged. |
| Operands.OperandKeysUnfold | src/de/uni_passau/fim/se2/sa/readability/utils/OperandVisitor.java:37-102 | Visiting any node yields its own key, if it has one, followed by the keys of its children's subtrees in order. |
| Operands.DeclaratorContribution | src/de/uni_passau/fim/se2/sa/readability/utils/OperandVisitor.java:80-84 | A declarator with a type, a name and an initializer merges 1 under the declared name and then the initializer's operands, and nothing else. |
| Operands.NameExprKey | src/de/uni_passau/fim/se2/sa/readability/utils/OperandVisitor.java:86-102 | A name is counted iff it has a parent that is not a field access, method call or array access. A counted name goes under "null" iff it equals "null" ignoring case, and otherwise under its own text. |
| Operands.BooleanAndStringShareKey | test/de/uni_passau/fim/se2/sa/readability/utils/OperandVisitorTest.java:16-28 | The boolean literal `false` and the string literal `"false"` have the same key, and likewise for `true`. |
| Operands.FreshTableOfTree | src/de/uni_passau/fim/se2/sa/readability/utils/OperandVisitor.java:26-35 | After one walk, a fresh visitor's map has the following properties:<br>- its keys are the distinct operands of the tree;<br>- every count is at least 1;<br>- the counts add up to the number of operand occurrences;<br>- it does not depend on the order in which the operands were met. |
| Operands.OperandVisitor.constructor | src/de/uni_passau/fim/se2/sa/readability/utils/OperandVisitor.java:16-20 | A fresh visitor has an empty map. |
| Operands.OperandVisitor.Visit | src/de/uni_passau/fim/se2/sa/readability/utils/OperandVisitor.java:37-102 | Visiting a subtree merges, into the map in place, the key of every node of the subtree, in pre-order. |
| Operands.OperandVisitor.GetNumberOfUniqueOperands | src/de/uni_passau/fim/se2/sa/readability/utils/OperandVisitor.java:26-28 | The unique count is the number of keys in the map. |
| Operands.OperandVisitor.GetTotalNumberOfOperands | src/de/uni_passau/fim/se2/sa/readability/utils/OperandVisitor.java:30-35 | The loop over the entries returns the sum of all counts. |
| Complexity.IsDecisionPoint | src/de/uni_passau/fim/se2/sa/readability/utils/CyclomaticComplexityVisitor.java:16-75 | Every `if`, `catch`, `for`, for-each, `while`, `do` and ternary is a decision point. Anything else that is one is a switch entry or a binary expression. |
| Complexity.DecisionsConcat | src/de/uni_passau/fim/se2/sa/readability/utils/CyclomaticComplexityVisitor.java:16-75 | The decision points of a concatenation of node sequences add up. |
| Complexity.BinaryDecision | src/de/uni_passau/fim/se2/sa/readability/utils/CyclomaticComplexityVisitor.java:68-75 | A binary expression is a decision point iff its operator is the conditional AND or the conditional OR. Its name then equals "and" or "or" ignoring case. The bitwise and, or and xor operators are not decision points. |
| Complexity.SwitchEntryDecision | src/de/uni_passau/fim/se2/sa/readability/utils/CyclomaticComplexityVisitor.java:52-60 | A switch entry without a token range does not count. One starting with `default`, `DEFAULT` or `Default` does not count. One starting with `case` counts. |
| Complexity.ChildrenDecisions | src/de/uni_passau/fim/se2/sa/readability/utils/CyclomaticComplexityVisitor.java:16-75 | The decision points in the pre-order of a node's first k children are the sum of those children's counts. |
| Complexity.DecisionCountUnfold | src/de/uni_passau/fim/se2/sa/readability/utils/CyclomaticComplexityVisitor.java:16-75 | A tree's count is 1 if its root is a decision point and 0 otherwise, plus the counts of its children's subtrees. |
| Complexity.ConnectiveDecisions | src/de/uni_passau/fim/se2/sa/readability/utils/CyclomaticComplexityVisitor.java:68-75 | A conditional AND or OR counts once, plus whatever their operands count. |
| Complexity.ComparisonHasNoDecision | src/de/uni_passau/fim/se2/sa/readability/utils/CyclomaticComplexityVisitor.java:68-75 | A comparison between plain operands adds nothing. |
| Complexity.ConnectivesCondition | test/de/uni_passau/fim/se2/sa/readability/utils/CyclomaticComplexityVisitorTest.java:23-32 | The condition (a > b AND a < c) OR a == d holds two decision points. |
| Complexity.IfWithConnectivesScenario | test/de/uni_passau/fim/se2/sa/readability/utils/CyclomaticComplexityVisitorTest.java:23-32 | An `if` whose condition is (a>0 AND a<5) OR a==3 gives complexity 4. |
| Complexity.EntryDecisions | src/de/uni_passau/fim/se2/sa/readability/utils/CyclomaticComplexityVisitor.java:52-60 | A `case` entry with a body that has no decision points counts 1. A `default` entry of that kind counts 0. |
| Complexity.SwitchScenario | test/de/uni_passau/fim/se2/sa/readability/utils/CyclomaticComplexityVisitorTest.java:34-60 | A switch with two cases and a default gives complexity 3. A switch with only a default gives 1. |
| Complexity.LoopDecisions | src/de/uni_passau/fim/se2/sa/readability/utils/CyclomaticComplexityVisitor.java:28-50 | A `for`, `while` or `do` loop with a plain comparison as condition counts exactly once. |
| Complexity.LoopsScenario | test/de/uni_passau/fim/se2/sa/readability/utils/CyclomaticComplexityVisitorTest.java:62-73 | A `for`, a `while` and a `do` loop in sequence give complexity 4. |
| Complexity.CyclomaticComplexityVisitor.constructor | src/de/uni_passau/fim/se2/sa/readability/utils/CyclomaticComplexityVisitor.java:10 | A fresh visitor has complexity 1. |
| Complexity.CyclomaticComplexityVisitor.Visit | src/de/uni_passau/fim/se2/sa/readability/utils/CyclomaticComplexityVisitor.java:16-75 | Visiting a subtree raises the field in place by the number of decision points in the subtree. It never lowers it. |
| NumberLinesFeature.ComputeMetric | src/de/uni_passau/fim/se2/sa/readability/features/NumberLinesFeature.java:12-22 | The result is 0 iff the text is null or blank. Otherwise it is at least 1. |
| NumberLinesFeature.GetIdentifier | src/de/uni_passau/fim/se2/sa/readability/features/NumberLinesFeature.java:25-27 | The identifier is "NumberLines". |
| NumberLinesFeature.Separators | src/de/uni_passau/fim/se2/sa/readability/features/NumberLinesFeature.java:21 | The number of `\R` matches is at most the text length, and it is 0 iff the text has no line terminator. |
| NumberLinesFeature.StripTrailingTerminator | src/de/uni_passau/fim/se2/sa/readability/features/NumberLinesFeature.java:17-19 | The result is a prefix of the text, at most 2 characters shorter. It is shorter iff the text ends in `\n` or `\r`, and 2 shorter iff it ends in `\r\n`. |
| NumberLinesFeature.SeparatorsAppend | src/de/uni_passau/fim/se2/sa/readability/features/NumberLinesFeature.java:21 | The `\R` matches of a concatenation are those of each part, unless a `\r` and a `\n` meet at the seam (they then form one `\r\n` match). |
| NumberLinesFeature.SeparatorsOfSingleLine | src/de/uni_passau/fim/se2/sa/readability/features/NumberLinesFeature.java:21 | Text without line terminators has no separator, so it splits into one piece. |
| NumberLinesFeature.SeparatorsOfTerminatorPrefix | src/de/uni_passau/fim/se2/sa/readability/features/NumberLinesFeature.java:21 | A `\n`, `\r\n` or `\r` in front of more text is one separator. The exception is a lone `\r` followed by `\n`. |
| NumberLinesFeature.StripRemovesCrLf | src/de/uni_passau/fim/se2/sa/readability/features/NumberLinesFeature.java:17-19 | For text ending in `\r\n`, the strip removes both characters, which are exactly one separator. |
| NumberLinesFeature.StripRemovesSingle | src/de/uni_passau/fim/se2/sa/readability/features/NumberLinesFeature.java:17-19 | For text ending in a lone `\n` or `\r`, the strip removes that one separator. |
| NumberLinesFeature.StripRemovesOneSeparator | src/de/uni_passau/fim/se2/sa/readability/features/NumberLinesFeature.java:17-19 | For text ending in `\n` or `\r`, the strip removes exactly one separator. |
| NumberLinesFeature.SeparatorsOfLineThenRest | src/de/uni_passau/fim/se2/sa/readability/features/NumberLinesFeature.java:21 | A line, a terminator and more text have one separator more than the rest alone. |
| NumberLinesFeature.JoinFirstChar | src/de/uni_passau/fim/se2/sa/readability/features/NumberLinesFeature.java:21 | Single lines joined by `\r` never start with `\n`, so a preceding `\r` cannot pair with them. |
| NumberLinesFeature.SeparatorsOfJoin | src/de/uni_passau/fim/se2/sa/readability/features/NumberLinesFeature.java:21 | n single lines joined by one terminator contain n - 1 separators. |
| NumberLinesFeature.JoinLastChar | src/de/uni_passau/fim/se2/sa/readability/features/NumberLinesFeature.java:17-19 | Joined text ends in `\r` only when the terminator is `\r`. |
| NumberLinesFeature.JoinEndsWithLastLine | src/de/uni_passau/fim/se2/sa/readability/features/NumberLinesFeature.java:21 | Joined lines end with the last line. |
| NumberLinesFeature.TerminatedLinesCount | test/de/uni_passau/fim/se2/sa/readability/features/NumberLinesFeatureTest.java:53-70 | Non-blank text of n lines, each ended by the same terminator (`\n`, `\r\n` or `\r`), counts n. Blank lines at the start and inside count, and the final terminator adds no line. |
| NumberLinesFeature.UnterminatedLinesCount | test/de/uni_passau/fim/se2/sa/readability/features/NumberLinesFeatureTest.java:53-70 | Non-blank text of n lines joined by one terminator, the last line non-empty, counts n. |
| NumberLinesFeature.TrailingBlankLineCounts | test/de/uni_passau/fim/se2/sa/readability/features/NumberLinesFeatureTest.java:28-51 | Appending one more `\n` to non-blank text that ends in `\n` adds exactly one line, e.g. 5 becomes 6. |
| Math.HalsteadVolume | src/de/uni_passau/fim/se2/sa/readability/utils/Math.java:19-23 | In real arithmetic a program of length 0 has volume 0 (Java gives NaN here, see "Left out"). Given log2(1) = 0, a vocabulary of one word gives volume 0. Given log2(2) = 1, a vocabulary of two gives the length. |
| Math.HalsteadVolumeProperties | src/de/uni_passau/fim/se2/sa/readability/utils/Math.java:19-23 | Operators and operands play symmetric roles in the volume. 5 operators (3 unique) and 7 operands (4 unique) give 12·log2(7). A vocabulary of one gives 0, and a vocabulary of two gives the length. |
| Math.TermSumRemove | src/de/uni_passau/fim/se2/sa/readability/utils/Math.java:12-15 | The entropy sum over a key set is one key's term plus the sum over the rest, whichever key the loop takes first. |
| Math.TokenEntropy | src/de/uni_passau/fim/se2/sa/readability/utils/Math.java:10-17 | Starting from 0 and subtracting p·log2(p) for each entry, with p = count/total, the loop returns the entropy of the map. |
| Math.EntropyOfEmptyTable | src/de/uni_passau/fim/se2/sa/readability/utils/Math.java:10-17 | An empty map has entropy 0. |
| Math.EntropyOfSingleKind | test/de/uni_passau/fim/se2/sa/readability/utils/MathTest.java:20-26 | Given log2(1) = 0, a single key whose count is the total has entropy 0. |
| Math.EntropyOfTwoKinds | src/de/uni_passau/fim/se2/sa/readability/utils/Math.java:10-17 | Two keys seen once each out of 2 have entropy -log2(0.5), which is 1 when log2(0.5) = -1. |
| Math.TermSumNegative | src/de/uni_passau/fim/se2/sa/readability/utils/Math.java:12-15 | Suppose every share lies strictly between 0 and 1 and log2 is negative there. Then the accumulated sum of p·log2(p) is negative. |
| Parser.ParseExceptionMessage | src/de/uni_passau/fim/se2/sa/readability/utils/Parser.java:18-19 | The message is "Could not parse " followed by the whole snippet. |
| TokenEntropyFeature.ComputeMetric | src/de/uni_passau/fim/se2/sa/readability/features/TokenEntropyFeature.java:22-57 | Null or blank text gives 0 without parsing. Otherwise:<br>- a parse failure gives the wrapped parse error;<br>- a missing token range gives the "Token extraction failed: Token range is not available." error;<br>- else the loop builds the occurrence map and total of the token texts, and the result is their entropy. |
| TokenEntropyFeature.GetIdentifier | src/de/uni_passau/fim/se2/sa/readability/features/TokenEntropyFeature.java:59-62 | The identifier is "TokenEntropy". |
| TokenEntropyFeature.TallyOfOneText | src/de/uni_passau/fim/se2/sa/readability/features/TokenEntropyFeature.java:42-54 | Tokens that all have one text give a map with that single text, counted the number of tokens. |
| TokenEntropyFeature.SharesOfMixedTokens | src/de/uni_passau/fim/se2/sa/readability/features/TokenEntropyFeature.java:42-54 | With at least two distinct texts, every text's count is at least 1 and below the total. |
| TokenEntropyFeature.UniformTokensHaveZeroEntropy | src/de/uni_passau/fim/se2/sa/readability/features/TokenEntropyFeature.java:42-56 | Tokens that all have one text have entropy 0. |
| TokenEntropyFeature.MixedTokensHavePositiveEntropy | src/de/uni_passau/fim/se2/sa/readability/features/TokenEntropyFeature.java:42-56 | Tokens with two or more distinct texts have positive entropy. |
| TokenEntropyFeature.EntropyZeroIffUniform | src/de/uni_passau/fim/se2/sa/readability/features/TokenEntropyFeature.java:42-56 | For a non-empty token sequence, the entropy is 0 iff all tokens have the same text. |
| HalsteadVolumeFeature.ComputeMetric | src/de/uni_passau/fim/se2/sa/readability/features/HalsteadVolumeFeature.java:19-33 | There is no blank guard. A null snippet fails and a parse failure gives the wrapped parse error. Otherwise the result is the volume of:<br>- the operator counts of the tree;<br>- the number of operand occurrences, from a fresh operand walk;<br>- the number of distinct operands. |
| HalsteadVolumeFeature.GetIdentifier | src/de/uni_passau/fim/se2/sa/readability/features/HalsteadVolumeFeature.java:36-38 | The identifier is "HalsteadVolume". |
| CyclomaticComplexityFeature.ComputeMetric | src/de/uni_passau/fim/se2/sa/readability/features/CyclomaticComplexityFeature.java:17-33 | Null or blank text gives 1 without parsing, and a parse failure gives the wrapped parse error. Otherwise the result is 1 plus the decision points of the tree, from a fresh visitor. Every value is at least 1. |
| CyclomaticComplexityFeature.GetIdentifier | src/de/uni_passau/fim/se2/sa/readability/features/CyclomaticComplexityFeature.java:35-38 | The identifier is "CyclomaticComplexity". |
| Features.Identifier | src/de/uni_passau/fim/se2/sa/readability/features/FeatureMetric.java:15-20 | Each metric's identifier is non-empty and has no comma. |
| Features.IdentifierIsColumnName | src/de/uni_passau/fim/se2/sa/readability/features/FeatureMetric.java:15-20 | Identifiers are unique to their metric, non-empty and free of commas. |
| SubcommandPreprocess.Convert | src/de/uni_passau/fim/se2/sa/readability/subcommands/SubcommandPreprocess.java:127-138 | A rejected name gives the message "The metric '<name>' is not a valid option.", quoting the name as given. |
| SubcommandPreprocess.ConvertAccepts | src/de/uni_passau/fim/se2/sa/readability/subcommands/SubcommandPreprocess.java:130-135 | A name converts to metric m iff its lower case is m's command-line name. No other name is accepted. |
| SubcommandPreprocess.ConvertCliName | src/de/uni_passau/fim/se2/sa/readability/subcommands/SubcommandPreprocess.java:130-134 | Every metric's command-line name converts back to that metric, in any mix of cases. |
| SubcommandPreprocess.ConvertIgnoresCaseExamples | src/de/uni_passau/fim/se2/sa/readability/subcommands/SubcommandPreprocess.java:130-133 | "LINES" gives the line count and "Token_Entropy" gives the token entropy. |
| SubcommandPreprocess.ConvertRejectsExamples | src/de/uni_passau/fim/se2/sa/readability/subcommands/SubcommandPreprocess.java:135 | "loc" is rejected, and so is "lines " with a trailing space. |
| SubcommandPreprocess.ToLowerOfLowerCase | src/de/uni_passau/fim/se2/sa/readability/subcommands/SubcommandPreprocess.java:130 | Lower-casing text without capitals leaves it unchanged. |
| SubcommandPreprocess.StringBuilder.Append | src/de/uni_passau/fim/se2/sa/readability/subcommands/SubcommandPreprocess.java:101-106 | `append` adds the text at the end of the builder. |
| SubcommandPreprocess.ColumnsAppend | src/de/uni_passau/fim/se2/sa/readability/subcommands/SubcommandPreprocess.java:102-104 | One more metric adds one `,identifier` column at the end. |
| SubcommandPreprocess.GenerateCSVHeader | src/de/uni_passau/fim/se2/sa/readability/subcommands/SubcommandPreprocess.java:100-107 | The builder's old text is followed by the header: "File", one `,identifier` per metric in list order, ",Truth" and the line separator. |
| SubcommandPreprocess.HeaderFrame | src/de/uni_passau/fim/se2/sa/readability/subcommands/SubcommandPreprocess.java:100-107 | The header starts with "File" and ends with ",Truth" plus the separator. With no metrics it is exactly "File,Truth" plus the separator. |
| SubcommandPreprocess.SplitWithoutComma | src/de/uni_passau/fim/se2/sa/readability/subcommands/SubcommandPreprocess.java:103 | Text without a comma is one CSV cell. |
| SubcommandPreprocess.SplitAtComma | src/de/uni_passau/fim/se2/sa/readability/subcommands/SubcommandPreprocess.java:103 | A comma-free cell, a comma and more text split into that cell followed by the cells of the rest. |
| SubcommandPreprocess.CellsAfterFirst | src/de/uni_passau/fim/se2/sa/readability/subcommands/SubcommandPreprocess.java:102-105 | A first cell, the metric columns, a comma and a last cell split into exactly those cells. |
| SubcommandPreprocess.HeaderCells | src/de/uni_passau/fim/se2/sa/readability/subcommands/SubcommandPreprocess.java:100-107 | If the separator has no comma, the header read back as CSV has exactly these cells: "File", each identifier in list order, then "Truth" with the separator. |

## Left out

- The Java parser (`Parser.parseJavaSnippet`, a wrapper over the JavaParser library) is a function parameter from text to a parse outcome. The outcome is a tree with an optional token-text sequence, or a failure. Grammar, token ranges and tree shapes belong to the library.
- `OperatorVisitor` is not part of this model. Its total and unique operator counts are a function parameter of `HalsteadVolumeFeature.ComputeMetric`.
- `log2` and floating point:
  - `log2` is a function parameter on `real`. Lemmas assume only log2(1) = 0, log2(2) = 1, log2(4) = 2 and log2(8) = 3, or that log2 is negative strictly between 0 and 1.
  - Double rounding, NaN and infinities (such as 0·log2(0)) are not modelled.
  - Numeric outputs of the tests such as 3.347 or 19.651 are not reproduced.
- Math.TokenEntropy: requires a non-zero total whenever the map is non-empty. With a zero total the Java division gives an infinity or NaN, which `real` cannot represent. Every caller in the source satisfies this.
- Math.HalsteadVolume: a program of length 0 (no operators and no operands) has vocabulary 0, and Java computes 0 * log2(0) = NaN; the model gives 0. `real` has no NaN.
- Integer overflow is not modelled anywhere, because integers are unbounded. This covers several Java counters:
  - the 32-bit length and vocabulary sums in `Math.HalsteadVolume`;
  - the 32-bit `Integer::sum` counts merged by `FrequencyTable.Merge`;
  - the 32-bit total of `Operands.OperandVisitor.GetTotalNumberOfOperands`;
  - the 64-bit token total of `TokenEntropyFeature.ComputeMetric`.
- HalsteadVolumeFeature.ComputeMetric:
  - a null snippet is modelled as a `NullSnippet` error, standing for the exception the front end raises when it dereferences the null text. The library code that would throw is not visible.
  - the tests expect 0.0 for null and blank snippets, but the code parses them, and the model follows the code.
- JavaText.Lower: maps only 'A'..'Z' and the Kelvin sign. Java's `Character.toLowerCase` also maps U+0130 to 'i', and `equalsIgnoreCase` also matches U+0131 with 'i' and U+017F with 's'. This cannot change a comparison with "null", "default", "and" or "or", which have neither letter. `String.toLowerCase` turns U+0130 into two characters, and neither that nor the model's leaving it unchanged matches a metric name. Locale-specific rules, such as the Turkish dotted I under a Turkish default locale, are not modelled.
- SubcommandPreprocess.ConvertCliName: the hypothesis is the model's `EqualsIgnoreCase`, which for names containing 'i' or 's' is stricter than Java's `equalsIgnoreCase`. The lemma is about `convert`, which uses `toLowerCase` and is modelled exactly against these names outside a Turkish default locale.
- Complexity.CyclomaticComplexityVisitor.GetComplexity: reads the field. It has no contract of its own, because the feature method states the value it yields.
- Several expectations in the operand visitor's tests have no override in the code, and the model follows the code:
  - constructor, method, parameter and type names;
  - member-value pairs;
  - break labels.
- `Preprocess.collectCSVBody` and `Classify` only throw "unsupported operation" (`Classify` also wraps a machine-learning library), so they are not modelled.
- The picocli option setters, `call()`, printing and `writeCSVToFile` are I/O and are not modelled. `System.lineSeparator()` is a parameter of `GenerateCSVHeader`.
- `FeatureMetric` is an abstract class with no behaviour. It is a datatype of the four concrete metrics (`Features.FeatureMetric`) with an identifier dispatch. Its `computeMetric` is the four `ComputeMetric` members, one per module.
- The line counter's lemmas cover text whose lines all end in the same one of `\n`, `\r\n` or `\r`. Lines ended by VT, FF, U+0085, U+2028 or U+2029, and mixed terminators, are handled by the definitions but have no lemma. A final one of these five is not stripped and adds a line.
- Maximality of entropy (log2 of the number of distinct texts for a uniform distribution) is not proved.
