/**
 * The two pieces of the preprocess subcommand that belong to the metrics
 * engine: turning a command-line metric name into a FeatureMetric, and
 * writing the header line of the CSV output.
 */
module SubcommandPreprocess {

  import opened Wrappers
  import opened JavaText
  import opened Features

  /** The message of the IllegalArgumentException for an unknown metric name. */
  function InvalidMetricMessage(metric: string): string {
    "The metric '" + metric + "' is not a valid option."
  }

  /** The lower-case command-line name under which each metric is selected. */
  function CliName(m: FeatureMetric): string {
    match m
    case NumberLines => "lines"
    case HalsteadVolume => "h_volume"
    case TokenEntropy => "token_entropy"
    case CyclomaticComplexity => "cyclomatic_complexity"
  }

  /**
   * FeatureConverter.convert: lower-case the name and match it against the
   * four metric names; anything else is rejected with a message that quotes
   * the name as given.
   */
  function Convert(metric: string): (r: Result<FeatureMetric, string>)
    ensures r.Err? ==> r.error == InvalidMetricMessage(metric)
  {
    var lowered := ToLower(metric);
    if lowered == "lines" then Ok(NumberLines)
    else if lowered == "h_volume" then Ok(HalsteadVolume)
    else if lowered == "token_entropy" then Ok(TokenEntropy)
    else if lowered == "cyclomatic_complexity" then Ok(CyclomaticComplexity)
    else Err(InvalidMetricMessage(metric))
  }

  /** A string with no character that Lower changes. */
  predicate LowerCase(s: string) {
    forall i :: 0 <= i < |s| ==> !('A' <= s[i] <= 'Z') && s[i] != '\U{212A}'
  }

  lemma ToLowerOfLowerCase(s: string)
    requires LowerCase(s)
    ensures ToLower(s) == s
  {
  }

  /**
   * A name is accepted as metric m exactly when it lower-cases to m's
   * command-line name: convert is case-insensitive and selects nothing else.
   */
  lemma ConvertAccepts(metric: string, m: FeatureMetric)
    ensures Convert(metric) == Ok(m) <==> ToLower(metric) == CliName(m)
  {
  }

  /**
   * Every metric's own command-line name, in any mix of ASCII cases, converts
   * back to it. The hypothesis is the model's case folding, not Java's
   * equalsIgnoreCase, which also accepts U+0131 for 'i' and U+017F for 's'.
   */
  lemma ConvertCliName(m: FeatureMetric, name: string)
    requires EqualsIgnoreCase(name, CliName(m))
    ensures Convert(name) == Ok(m)
  {
    assert LowerCase(CliName(m));
    ToLowerOfLowerCase(CliName(m));
  }

  /** "LINES" selects the line count and "Token_Entropy" the token entropy. */
  lemma ConvertIgnoresCaseExamples()
    ensures Convert("LINES") == Ok(NumberLines)
    ensures Convert("Token_Entropy") == Ok(TokenEntropy)
  {
    assert ToLower("LINES") == "lines";
    assert ToLower("Token_Entropy") == "token_entropy";
  }

  /** "loc" is not a metric name, and neither is "lines " with a space: names are not trimmed. */
  lemma ConvertRejectsExamples()
    ensures Convert("loc") == Err(InvalidMetricMessage("loc"))
    ensures Convert("lines ") == Err(InvalidMetricMessage("lines "))
  {
    assert ToLower("loc") == "loc";
    assert ToLower("lines ") == "lines ";
  }

  /** java.lang.StringBuilder as far as the header writer uses it. */
  class StringBuilder {

    var contents: string

    constructor()
      ensures contents == ""
    {
      contents := "";
    }

    /** append: the text is added at the end. */
    method Append(s: string)
      modifies this
      ensures contents == old(contents) + s
    {
      contents := contents + s;
    }
  }

  /** The identifiers of the metrics, in order. */
  function Identifiers(featureMetrics: seq<FeatureMetric>): (ids: seq<string>)
    ensures |ids| == |featureMetrics|
  {
    seq(|featureMetrics|, i requires 0 <= i < |featureMetrics| => Identifier(featureMetrics[i]))
  }

  /**
   * The i-th identifier is that of the i-th metric: a sequence fact stated on
   * its own so that the header loop's proof stays small and stable.
   */
  lemma IdentifierAt(featureMetrics: seq<FeatureMetric>, i: int)
    requires 0 <= i < |featureMetrics|
    ensures Identifiers(featureMetrics)[i] == Identifier(featureMetrics[i])
  {
  }

  /** One ",identifier" column per identifier, in order. */
  function Columns(ids: seq<string>): string {
    if ids == [] then "" else "," + ids[0] + Columns(ids[1..])
  }

  /** The header line: the file column, one column per metric, the truth column, a line separator. */
  function Header(featureMetrics: seq<FeatureMetric>, lineSeparator: string): string {
    "File" + Columns(Identifiers(featureMetrics)) + ",Truth" + lineSeparator
  }

  lemma {:induction false} ColumnsAppend(ids: seq<string>, id: string)
    ensures Columns(ids + [id]) == Columns(ids) + "," + id
    decreases |ids|
  {
    if ids == [] {
      assert [id][1..] == [];
      assert ids + [id] == [id];
    } else {
      assert (ids + [id])[1..] == ids[1..] + [id];
      assert (ids + [id])[0] == ids[0];
      ColumnsAppend(ids[1..], id);
    }
  }

  /**
   * Regrouping a concatenation of three strings: a sequence fact stated on its
   * own so that the header loop's proof stays small and stable.
   */
  lemma ConcatAssociative(a: string, b: string, c: string)
    ensures a + b + c == a + (b + c)
  {
  }

  lemma ColumnsStep(ids: seq<string>, i: int)
    requires 0 <= i < |ids|
    ensures Columns(ids[..i + 1]) == Columns(ids[..i]) + ("," + ids[i])
  {
    assert ids[..i + 1] == ids[..i] + [ids[i]];
    ColumnsAppend(ids[..i], ids[i]);
  }

  /**
   * generateCSVHeader: append "File", then ",identifier" for each metric in
   * order, then ",Truth" and the platform line separator.
   */
  method GenerateCSVHeader(csv: StringBuilder, featureMetrics: seq<FeatureMetric>, lineSeparator: string)
    modifies csv
    ensures csv.contents == old(csv.contents) + Header(featureMetrics, lineSeparator)
  {
    csv.Append("File");
    ghost var start := csv.contents;
    ghost var ids := Identifiers(featureMetrics);
    assert ids[..0] == [];
    for i := 0 to |featureMetrics|
      invariant csv.contents == start + Columns(ids[..i])
    {
      ColumnsStep(ids, i);
      ConcatAssociative(start, Columns(ids[..i]), "," + ids[i]);
      var column := "," + Identifier(featureMetrics[i]);
      IdentifierAt(featureMetrics, i);
      csv.Append(column);
    }
    assert ids[..|ids|] == ids;
    assert csv.contents == old(csv.contents) + ("File" + Columns(ids));
    csv.Append(",Truth");
    csv.Append(lineSeparator);
  }

  /** The cells of a CSV line: the text between commas, left to right. */
  function SplitOnComma(s: string): (cells: seq<string>)
    ensures |cells| >= 1
  {
    if s == [] then [""]
    else
      var rest := SplitOnComma(s[1..]);
      if s[0] == ',' then [""] + rest else [[s[0]] + rest[0]] + rest[1..]
  }

  lemma {:induction false} SplitWithoutComma(a: string)
    requires ',' !in a
    ensures SplitOnComma(a) == [a]
    decreases |a|
  {
    if a != [] {
      assert ',' !in a[1..] by {
        forall i | 0 <= i < |a[1..]| ensures a[1..][i] != ',' {
          assert a[1..][i] == a[i + 1];
        }
      }
      SplitWithoutComma(a[1..]);
      assert [a[0]] + a[1..] == a;
    }
  }

  lemma {:induction false} SplitAtComma(a: string, b: string)
    requires ',' !in a
    ensures SplitOnComma(a + "," + b) == [a] + SplitOnComma(b)
    decreases |a|
  {
    if a == [] {
      assert a + "," + b == [','] + b;
      assert (a + "," + b)[1..] == b;
    } else {
      assert ',' !in a[1..] by {
        forall i | 0 <= i < |a[1..]| ensures a[1..][i] != ',' {
          assert a[1..][i] == a[i + 1];
        }
      }
      SplitAtComma(a[1..], b);
      assert (a + "," + b)[1..] == a[1..] + "," + b;
      assert [a[0]] + a[1..] == a;
    }
  }

  /** Every identifier is free of the separator. */
  predicate CommaFreeCells(ids: seq<string>) {
    forall i :: 0 <= i < |ids| ==> ',' !in ids[i]
  }

  lemma {:induction false} CellsAfterFirst(first: string, ids: seq<string>, last: string)
    requires ',' !in first && ',' !in last && CommaFreeCells(ids)
    ensures SplitOnComma(first + Columns(ids) + "," + last) == [first] + ids + [last]
    decreases |ids|
  {
    if ids == [] {
      assert first + Columns(ids) + "," + last == first + "," + last;
      SplitAtComma(first, last);
      SplitWithoutComma(last);
    } else {
      var rest := ids[0] + Columns(ids[1..]) + "," + last;
      CellsAfterFirst(ids[0], ids[1..], last);
      assert first + Columns(ids) + "," + last == first + "," + rest;
      SplitAtComma(first, rest);
      assert [ids[0]] + ids[1..] == ids;
    }
  }

  /**
   * Read back as CSV, the header has the cells "File", each metric's
   * identifier in list order, and "Truth" followed by the line separator,
   * provided the separator has no comma in it.
   */
  lemma HeaderCells(featureMetrics: seq<FeatureMetric>, lineSeparator: string)
    requires ',' !in lineSeparator
    ensures SplitOnComma(Header(featureMetrics, lineSeparator))
            == ["File"] + Identifiers(featureMetrics) + ["Truth" + lineSeparator]
  {
    assert ',' !in "Truth" + lineSeparator by {
      forall i | 0 <= i < |"Truth" + lineSeparator| ensures ("Truth" + lineSeparator)[i] != ',' {
        if i >= 5 {
          assert ("Truth" + lineSeparator)[i] == lineSeparator[i - 5];
        }
      }
    }
    var ids := Identifiers(featureMetrics);
    forall i | 0 <= i < |ids| ensures ',' !in ids[i] {
      IdentifierIsColumnName(featureMetrics[i], featureMetrics[i]);
    }
    CellsAfterFirst("File", ids, "Truth" + lineSeparator);
    assert Header(featureMetrics, lineSeparator) == "File" + Columns(ids) + "," + ("Truth" + lineSeparator);
  }

  /**
   * The header starts with "File" and ends with ",Truth" and the line
   * separator; with no metrics it is exactly "File,Truth" and the separator.
   */
  lemma HeaderFrame(featureMetrics: seq<FeatureMetric>, lineSeparator: string)
    ensures |Header(featureMetrics, lineSeparator)| >= 10 + |lineSeparator|
    ensures Header(featureMetrics, lineSeparator)[..4] == "File"
    ensures Header(featureMetrics, lineSeparator)[|Header(featureMetrics, lineSeparator)| - (6 + |lineSeparator|)..]
            == ",Truth" + lineSeparator
    ensures featureMetrics == [] ==> Header(featureMetrics, lineSeparator) == "File,Truth" + lineSeparator
  {
    var columns := Columns(Identifiers(featureMetrics));
    var tail := ",Truth" + lineSeparator;
    ConcatAssociative("File" + columns, ",Truth", lineSeparator);
    assert Header(featureMetrics, lineSeparator) == ("File" + columns) + tail;
    assert ("File" + columns)[..4] == "File";
    if featureMetrics == [] {
      assert Identifiers(featureMetrics) == [];
      assert columns == "";
    }
  }
}
