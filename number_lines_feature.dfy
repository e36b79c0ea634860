/**
 * The line counter: a pure function of the snippet text that counts physical
 * lines, blank and comment lines included, after stripping a final '\n', '\r'
 * or "\r\n". Any other final terminator stays and ends an empty last line.
 */
module NumberLinesFeature {

  import opened Wrappers
  import opened JavaText

  /** The characters the regular expression \R matches on its own. */
  predicate IsLineTerminator(c: char) {
    c == '\n' || c == '\U{000B}' || c == '\U{000C}' || c == '\r'
    || c == '\U{0085}' || c == '\U{2028}' || c == '\U{2029}'
  }

  /** A text without line terminators: one line. */
  predicate SingleLine(s: string) {
    forall i :: 0 <= i < |s| ==> !IsLineTerminator(s[i])
  }

  /**
   * The number of matches of \R when the text is scanned from left to right,
   * as split finds them: "\r\n" is one match, any other terminator is one.
   */
  function Separators(s: string): (count: nat)
    ensures count <= |s|
    ensures count == 0 <==> SingleLine(s)
    decreases |s|
  {
    if s == [] then 0
    else if s[0] == '\r' && |s| >= 2 && s[1] == '\n' then 1 + Separators(s[2..])
    else if IsLineTerminator(s[0]) then 1 + Separators(s[1..])
    else Separators(s[1..])
  }

  /**
   * codeSnippet.replaceFirst("\\R\\z", ""), applied only when the text ends
   * in '\n' or '\r': the one terminator at the very end goes, "\r\n" as a whole.
   */
  function StripTrailingTerminator(s: string): (r: string)
    ensures |s| - 2 <= |r| <= |s| && r == s[..|r|]
    ensures |r| < |s| <==> |s| > 0 && (s[|s| - 1] == '\n' || s[|s| - 1] == '\r')
    ensures |r| == |s| - 2 <==> |s| >= 2 && s[|s| - 2..] == "\r\n"
  {
    if |s| >= 2 && s[|s| - 2] == '\r' && s[|s| - 1] == '\n' then s[..|s| - 2]
    else if |s| >= 1 && (s[|s| - 1] == '\n' || s[|s| - 1] == '\r') then s[..|s| - 1]
    else s
  }

  /**
   * computeMetric: 0 for null or blank text; otherwise the number of pieces
   * split("\\R", -1) makes of the text after the final terminator is
   * stripped, which is one more than the number of separators.
   */
  function ComputeMetric(codeSnippet: Option<string>): (lines: real)
    ensures NullOrBlank(codeSnippet) <==> lines == 0.0
    ensures !NullOrBlank(codeSnippet) ==> lines >= 1.0
  {
    if NullOrBlank(codeSnippet) then 0.0
    else (Separators(StripTrailingTerminator(codeSnippet.value)) + 1) as real
  }

  /** getIdentifier. */
  function GetIdentifier(): (id: string)
    ensures id == "NumberLines"
  {
    "NumberLines"
  }

  /** Text from one line joins, in order, with the terminator in between. */
  function Join(lines: seq<string>, terminator: string): string
    requires |lines| >= 1
  {
    if |lines| == 1 then lines[0] else lines[0] + terminator + Join(lines[1..], terminator)
  }

  /** Separators add up over a concatenation unless a "\r" and a "\n" meet at the seam. */
  lemma {:induction false} SeparatorsAppend(a: string, b: string)
    requires !(|a| >= 1 && a[|a| - 1] == '\r' && |b| >= 1 && b[0] == '\n')
    ensures Separators(a + b) == Separators(a) + Separators(b)
    decreases |a|
  {
    if a == [] {
      assert a + b == b;
    } else if a[0] == '\r' && |a| >= 2 && a[1] == '\n' {
      assert (a + b)[2..] == a[2..] + b;
      SeparatorsAppend(a[2..], b);
    } else {
      assert (a + b)[1..] == a[1..] + b;
      SeparatorsAppend(a[1..], b);
    }
  }

  /** One line alone has no separator. */
  lemma {:induction false} SeparatorsOfSingleLine(s: string)
    requires SingleLine(s)
    ensures Separators(s) == 0
    decreases |s|
  {
    if s != [] {
      SeparatorsOfSingleLine(s[1..]);
    }
  }

  /** The terminators the strip recognises: the only ones the line-count lemmas cover. */
  predicate StrippedTerminator(t: string) {
    t == "\n" || t == "\r\n" || t == "\r"
  }

  /** A terminator in front of the rest of a text is one separator, unless a lone "\r" meets a "\n". */
  lemma SeparatorsOfTerminatorPrefix(t: string, rest: string)
    requires StrippedTerminator(t)
    requires !(t == "\r" && |rest| >= 1 && rest[0] == '\n')
    ensures Separators(t + rest) == 1 + Separators(rest)
  {
    var s := t + rest;
    assert s[0] == t[0];
    if t == "\r\n" {
      assert s[1] == '\n';
      assert s[2..] == rest;
    } else {
      assert s[1..] == rest;
      if t == "\r" && |s| >= 2 {
        assert s[1] == rest[0];
      }
    }
  }

  /** A final "\r\n" is one separator, and the strip removes both characters. */
  lemma StripRemovesCrLf(s: string)
    requires |s| >= 2 && s[|s| - 2] == '\r' && s[|s| - 1] == '\n'
    ensures Separators(s) == Separators(StripTrailingTerminator(s)) + 1
  {
    var prefix := s[..|s| - 2];
    assert StripTrailingTerminator(s) == prefix;
    assert s == prefix + "\r\n";
    SeparatorsAppend(prefix, "\r\n");
    SeparatorsOfTerminatorPrefix("\r\n", []);
    assert "\r\n" + [] == "\r\n";
  }

  /** A final lone '\n' or '\r' is one separator, and the strip removes it. */
  lemma StripRemovesSingle(s: string)
    requires |s| >= 1 && (s[|s| - 1] == '\n' || s[|s| - 1] == '\r')
    requires !(|s| >= 2 && s[|s| - 2] == '\r' && s[|s| - 1] == '\n')
    ensures Separators(s) == Separators(StripTrailingTerminator(s)) + 1
  {
    var prefix := s[..|s| - 1];
    assert StripTrailingTerminator(s) == prefix;
    var last := s[|s| - 1..];
    assert prefix + last == s;
    SeparatorsAppend(prefix, last);
    assert Separators(last) == 1 by {
      assert IsLineTerminator(last[0]) && last[1..] == [];
    }
  }

  /** A final "\n", "\r" or "\r\n" that the strip removes is one separator. */
  lemma StripRemovesOneSeparator(s: string)
    requires |s| >= 1 && (s[|s| - 1] == '\n' || s[|s| - 1] == '\r')
    ensures Separators(s) == Separators(StripTrailingTerminator(s)) + 1
  {
    if |s| >= 2 && s[|s| - 2] == '\r' && s[|s| - 1] == '\n' {
      StripRemovesCrLf(s);
    } else {
      StripRemovesSingle(s);
    }
  }

  /** One line, a terminator, then more text: one separator more than the rest has. */
  lemma SeparatorsOfLineThenRest(line: string, t: string, rest: string)
    requires SingleLine(line) && StrippedTerminator(t)
    requires !(t == "\r" && |rest| >= 1 && rest[0] == '\n')
    ensures Separators(line + (t + rest)) == 1 + Separators(rest)
  {
    SeparatorsOfSingleLine(line);
    SeparatorsOfTerminatorPrefix(t, rest);
    if |line| >= 1 {
      assert !IsLineTerminator(line[|line| - 1]);
    }
    SeparatorsAppend(line, t + rest);
  }

  /** Text joined with "\r" never starts with '\n'. */
  lemma {:induction false} JoinFirstChar(lines: seq<string>, t: string)
    requires |lines| >= 1 && StrippedTerminator(t)
    requires forall i :: 0 <= i < |lines| ==> SingleLine(lines[i])
    requires |Join(lines, t)| >= 1 && t == "\r"
    ensures Join(lines, t)[0] != '\n'
  {
    if lines[0] != [] {
      assert !IsLineTerminator(lines[0][0]);
      if |lines| > 1 {
        assert Join(lines, t) == lines[0] + (t + Join(lines[1..], t));
      }
    } else if |lines| > 1 {
      assert Join(lines, t) == t + Join(lines[1..], t);
    }
  }

  /** Joined single lines have one separator fewer than there are lines. */
  lemma {:induction false} SeparatorsOfJoin(lines: seq<string>, t: string)
    requires |lines| >= 1 && StrippedTerminator(t)
    requires forall i :: 0 <= i < |lines| ==> SingleLine(lines[i])
    ensures Separators(Join(lines, t)) == |lines| - 1
    decreases |lines|
  {
    if |lines| == 1 {
      SeparatorsOfSingleLine(lines[0]);
    } else {
      var rest := Join(lines[1..], t);
      assert Join(lines, t) == lines[0] + (t + rest);
      assert SingleLine(lines[0]);
      forall i | 0 <= i < |lines[1..]| ensures SingleLine(lines[1..][i]) {
        assert lines[1..][i] == lines[i + 1];
      }
      SeparatorsOfJoin(lines[1..], t);
      if |rest| >= 1 && t == "\r" {
        JoinFirstChar(lines[1..], t);
      }
      SeparatorsOfLineThenRest(lines[0], t, rest);
    }
  }

  /**
   * Lines each ended by a terminator are counted one by one: blank lines at
   * the start, inside and at the end count, and the final terminator adds
   * no phantom line.
   */
  lemma TerminatedLinesCount(lines: seq<string>, t: string)
    requires |lines| >= 1 && StrippedTerminator(t)
    requires forall i :: 0 <= i < |lines| ==> SingleLine(lines[i])
    requires !IsBlank(Join(lines, t))
    ensures ComputeMetric(Some(Join(lines, t) + t)) == |lines| as real
  {
    var text := Join(lines, t);
    SeparatorsOfJoin(lines, t);
    assert !IsBlank(text + t) by {
      var i :| 0 <= i < |text| && !IsWhitespace(text[i]);
      assert (text + t)[i] == text[i];
    }
    assert StripTrailingTerminator(text + t) == text by {
      if t == "\n" && |text| >= 1 {
        assert text[|text| - 1] != '\r' by {
          if |lines| == 1 {
            assert !IsLineTerminator(text[|text| - 1]);
          } else {
            JoinLastChar(lines, t);
          }
        }
      }
    }
  }

  /** Joined text ends in '\r' only when the lines are joined by "\r". */
  lemma {:induction false} JoinLastChar(lines: seq<string>, t: string)
    requires |lines| >= 1 && StrippedTerminator(t)
    requires forall i :: 0 <= i < |lines| ==> SingleLine(lines[i])
    requires |Join(lines, t)| >= 1
    ensures Join(lines, t)[|Join(lines, t)| - 1] == '\r' ==> t == "\r"
    decreases |lines|
  {
    if |lines| > 1 {
      var rest := Join(lines[1..], t);
      if |rest| >= 1 {
        JoinLastChar(lines[1..], t);
        assert Join(lines, t) == (lines[0] + t) + rest;
      }
    }
  }

  /**
   * Text whose last line is not empty is counted line by line without any
   * strip: interior and leading blank lines count.
   */
  lemma UnterminatedLinesCount(lines: seq<string>, t: string)
    requires |lines| >= 1 && StrippedTerminator(t)
    requires forall i :: 0 <= i < |lines| ==> SingleLine(lines[i])
    requires lines[|lines| - 1] != []
    requires !IsBlank(Join(lines, t))
    ensures ComputeMetric(Some(Join(lines, t))) == |lines| as real
  {
    SeparatorsOfJoin(lines, t);
    JoinEndsWithLastLine(lines, t);
  }

  /** Joined lines end with the last line. */
  lemma {:induction false} JoinEndsWithLastLine(lines: seq<string>, t: string)
    requires |lines| >= 1
    ensures |Join(lines, t)| >= |lines[|lines| - 1]|
    ensures Join(lines, t)[|Join(lines, t)| - |lines[|lines| - 1]|..] == lines[|lines| - 1]
    decreases |lines|
  {
    if |lines| > 1 {
      JoinEndsWithLastLine(lines[1..], t);
      var rest := Join(lines[1..], t);
      assert Join(lines, t) == (lines[0] + t) + rest;
    }
  }

  /** Adding one more empty line after a final '\n' adds exactly one line. */
  lemma TrailingBlankLineCounts(s: string)
    requires !IsBlank(s) && |s| >= 1 && s[|s| - 1] == '\n'
    ensures ComputeMetric(Some(s + "\n")) == ComputeMetric(Some(s)) + 1.0
  {
    assert !IsBlank(s + "\n") by {
      var i :| 0 <= i < |s| && !IsWhitespace(s[i]);
      assert (s + "\n")[i] == s[i];
    }
    assert StripTrailingTerminator(s + "\n") == s;
    StripRemovesOneSeparator(s);
  }
}
