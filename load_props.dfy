/**
 What one more line does to the loader's state, for every kind of line. Each lemma speaks of
 `Step(s, line, c)` for an arbitrary state `s`; `ScanSnoc` carries them over to the pass
 over any input followed by that line.
 */
module LoadProps {
  import opened FleText
  import opened LoadSpec

  /** The pass over `lines + [line]` is the pass over `lines` followed by one step. */
  lemma ScanSnoc(lines: seq<string>, line: string, c: Collaborators)
    ensures Scan(lines + [line], c) == Step(Scan(lines, c), line, c)
  {
    assert (lines + [line])[..|lines|] == lines;
  }

  /** A line starting with `#` is dropped: only the line counter moves, whatever the state,
      inside a block comment or not. */
  lemma LineCommentSkipped(s: ScanState, line: string, c: Collaborators)
    requires IsLineComment(line)
    ensures Step(s, line, c) == s.(lineCount := s.lineCount + 1)
  {
  }

  /** An empty or all-white-space line is dropped the same way. */
  lemma BlankLineSkipped(s: ScanState, line: string, c: Collaborators)
    requires IsBlank(line)
    ensures Step(s, line, c) == s.(lineCount := s.lineCount + 1)
  {
  }

  /** A `{...}` line is dropped without entering (or leaving) a block comment. */
  lemma OneLineBlockSkipped(s: ScanState, line: string, c: Collaborators)
    requires IsOneLineBlock(line)
    ensures Step(s, line, c) == s.(lineCount := s.lineCount + 1)
  {
    assert !IsSpace(line[0]);
  }

  /** Any other line starting with `{` (such as `{}` or `{abc`) is dropped and opens a block
      comment. */
  lemma UnclosedBraceOpensBlock(s: ScanState, line: string, c: Collaborators)
    requires OpensBlock(line) && !IsOneLineBlock(line)
    ensures Step(s, line, c) == s.(lineCount := s.lineCount + 1, inMultiLine := true)
  {
    assert !IsSpace(line[0]);
  }

  /** Inside a block comment every line is dropped, directives included; the comment ends
      exactly when the line closes it. */
  lemma InsideBlockDiscarded(s: ScanState, line: string, c: Collaborators)
    requires s.inMultiLine
    ensures Step(s, line, c) == s.(lineCount := s.lineCount + 1, inMultiLine := !ClosesBlock(line))
  {
    if OpensBlock(line) && !IsLineComment(line) && !IsBlank(line) && !IsOneLineBlock(line) {
      assert !IsSpace(line[0]);
    }
  }

  /** A line that starts with a directive keyword is never a comment, blank or brace line. */
  lemma KeywordLineIsPlain(line: string, k: Keyword)
    requires StartsWithKeyword(line, KeywordText(k))
    ensures !IsLineComment(line) && !IsBlank(line) && !OpensBlock(line)
  {
    assert FoldsTo(line[0], KeywordText(k)[0]);
  }

  /** No line starts with two different directive keywords. */
  lemma KeywordsExclusive(line: string, k: Keyword, j: Keyword)
    requires StartsWithKeyword(line, KeywordText(k)) && StartsWithKeyword(line, KeywordText(j))
    ensures k == j
  {
    var a, b := KeywordText(k), KeywordText(j);
    // Keywords of different lengths clash at the shorter one's space; equal-length ones
    // differ in their first or third letter.
    if |a| == |b| {
      assert FoldsTo(line[0], a[0]) && FoldsTo(line[0], b[0]);
      assert FoldsTo(line[2], a[2]) && FoldsTo(line[2], b[2]);
    }
  }

  /** Outside a block comment, a line starting with a keyword is that directive. */
  lemma DirectiveClassified(line: string, k: Keyword)
    requires StartsWithKeyword(line, KeywordText(k))
    ensures Classify(line, false) == Directive(k, AfterKeyword(line, KeywordText(k)))
  {
    KeywordLineIsPlain(line, k);
    var m := MatchKeyword(line);
    assert m.Some?;
    KeywordsExclusive(line, k, m.value);
  }

  /** Outside a block comment, a directive line counts the line and applies the first
      keyword it starts with to the remainder after `keyword `. */
  lemma DirectiveApplied(s: ScanState, line: string, c: Collaborators)
    requires !s.inMultiLine && MatchKeyword(line).Some?
    ensures var k := MatchKeyword(line).value;
            Step(s, line, c) ==
            ApplyDirective(s.(lineCount := s.lineCount + 1), k, AfterKeyword(line, KeywordText(k)), c)
  {
    KeywordLineIsPlain(line, MatchKeyword(line).value);
  }

  /** A directive with nothing after `keyword ` changes nothing but the line counter: no
      header value, no echo line, no error. */
  lemma EmptyDirectiveIgnored(s: ScanState, line: string, k: Keyword, c: Collaborators)
    requires !s.inMultiLine
    requires StartsWithKeyword(line, KeywordText(k)) && |line| == |KeywordText(k)| + 1
    ensures Step(s, line, c) == s.(lineCount := s.lineCount + 1)
  {
    DirectiveClassified(line, k);
  }

  /** What a validated directive with a value contributes: the validator's value, its echo
      line, and an error exactly when the validator complains. */
  lemma ValidatedDirectiveParts(h: Header, k: Keyword, rest: string, n: nat, c: Collaborators)
    requires IsValidated(k) && rest != ""
    ensures var v := Validator(k, c)(rest);
      && StoredHeader(h, k, rest, c) == SetHeaderField(h, k, v.value)
      && EchoLines(k, rest, c) == Echo(k, v.value)
      && DirectiveErrors(k, rest, n, c) ==
           (if v.errorMsg == "" then [] else [DirectiveError(ErrorLabel(k), n, rest, v.errorMsg)])
  {
  }

  /**
   `mycall`, `operator`, `mywwff`, `mysota` and `date` with a value: the validator's value is
   stored even when the validator also complains; then exactly one error, naming the 1-based
   line number, the raw value and the complaint, is logged. The value is echoed to the cleaned
   input, except for a date. Records, the carry-forward basis and the other header values are
   left alone, and the line never reaches the data-line parser.
   */
  lemma ValidatedDirectiveStored(s: ScanState, line: string, k: Keyword, c: Collaborators)
    requires !s.inMultiLine && IsValidated(k)
    requires StartsWithKeyword(line, KeywordText(k)) && |line| > |KeywordText(k)| + 1
    ensures var s' := Step(s, line, c);
            var raw := AfterKeyword(line, KeywordText(k));
            var v := Validator(k, c)(raw);
            && s'.header == SetHeaderField(s.header, k, v.value)
            && s'.cleanedInput == s.cleanedInput + Echo(k, v.value)
            && (k == Date ==> s'.cleanedInput == s.cleanedInput)
            && s'.errorLog == s.errorLog +
                 (if v.errorMsg == "" then [] else [DirectiveError(ErrorLabel(k), s.lineCount + 1, raw, v.errorMsg)])
            && s'.fullLog == s.fullLog && s'.previous == s.previous
            && s'.inMultiLine == s.inMultiLine && s'.lineCount == s.lineCount + 1
  {
    DirectiveClassified(line, k);
    ValidatedDirectiveParts(s.header, k, AfterKeyword(line, KeywordText(k)), s.lineCount + 1, c);
  }

  /** `qslmsg` and `nickname` with a value: stored verbatim and echoed, and never an error. */
  lemma VerbatimDirectiveStored(s: ScanState, line: string, k: Keyword, c: Collaborators)
    requires !s.inMultiLine && !IsValidated(k)
    requires StartsWithKeyword(line, KeywordText(k)) && |line| > |KeywordText(k)| + 1
    ensures var s' := Step(s, line, c);
            var raw := AfterKeyword(line, KeywordText(k));
            && s'.header == SetHeaderField(s.header, k, raw)
            && s'.cleanedInput == s.cleanedInput + Echo(k, raw)
            && s'.errorLog == s.errorLog
            && s'.fullLog == s.fullLog && s'.previous == s.previous
            && s'.inMultiLine == s.inMultiLine && s'.lineCount == s.lineCount + 1
  {
    DirectiveClassified(line, k);
  }

  /**
   A data line: the parser sees the seven header values written over the previous record;
   its record is kept iff it names the other station; its complaint, if any, is logged with
   the 1-based line number; and its record becomes the next carry-forward basis in every case.
   */
  lemma DataLineParsed(s: ScanState, line: string, c: Collaborators)
    requires !s.inMultiLine && IsDataLine(line)
    ensures var s' := Step(s, line, c);
            var p := c.parseLine(line, MergeHeader(s.header, s.previous));
            && s'.previous == p.logLine
            && s'.fullLog == s.fullLog + (if p.logLine.call != "" then [p.logLine] else [])
            && s'.errorLog == s.errorLog +
                 (if p.errorLine != "" then [ParseError(s.lineCount + 1, p.errorLine)] else [])
            && s'.header == s.header && s'.cleanedInput == s.cleanedInput
            && !s'.inMultiLine && s'.lineCount == s.lineCount + 1
  {
  }
}
