/**
 What the whole pass over a shorthand log guarantees: the three lists only grow, each line
 adds at most one entry to each, a header value stays until a directive for it sets it again,
 an unclosed block comment swallows the rest of the input, and every record kept names the
 other station.
 */
module LoadRuns {
  import opened FleText
  import opened LoadSpec
  import opened LoadProps

  /** One line appends to the three lists, at most one entry to each, and keeps what was there. */
  lemma StepAppends(s: ScanState, line: string, c: Collaborators)
    ensures var t := Step(s, line, c);
            && s.fullLog <= t.fullLog && |t.fullLog| <= |s.fullLog| + 1
            && s.errorLog <= t.errorLog && |t.errorLog| <= |s.errorLog| + 1
            && s.cleanedInput <= t.cleanedInput && |t.cleanedInput| <= |s.cleanedInput| + 1
  {
  }

  /** Splitting an input after its last line, as `Scan` does. */
  lemma SplitLast(prefix: seq<string>, rest: seq<string>)
    requires |rest| > 0
    ensures prefix + rest == (prefix + rest[..|rest| - 1]) + [rest[|rest| - 1]]
  {
    assert rest == rest[..|rest| - 1] + [rest[|rest| - 1]];
  }

  /** `cleanedInput`, `errorLog` and `fullLog` are append-only: after more lines, what the
      pass had produced is still there, first, in the same order. */
  lemma {:induction false} ScanAppendOnly(prefix: seq<string>, rest: seq<string>, c: Collaborators)
    ensures var s, t := Scan(prefix, c), Scan(prefix + rest, c);
            && s.fullLog <= t.fullLog && s.errorLog <= t.errorLog && s.cleanedInput <= t.cleanedInput
    decreases |rest|
  {
    if rest == [] {
      assert prefix + rest == prefix;
    } else {
      var front, line := rest[..|rest| - 1], rest[|rest| - 1];
      SplitLast(prefix, rest);
      ScanAppendOnly(prefix, front, c);
      ScanSnoc(prefix + front, line, c);
      StepAppends(Scan(prefix + front, c), line, c);
    }
  }

  /** Every line adds at most one entry to each list, so none is longer than the input. */
  lemma {:induction false} ScanBounded(lines: seq<string>, c: Collaborators)
    ensures var s := Scan(lines, c);
            && |s.fullLog| <= |lines| && |s.errorLog| <= |lines| && |s.cleanedInput| <= |lines|
    decreases |lines|
  {
    if lines != [] {
      var front := lines[..|lines| - 1];
      ScanBounded(front, c);
      StepAppends(Scan(front, c), lines[|lines| - 1], c);
    }
  }

  /** Only a record whose `Call` is non-empty is ever kept. */
  lemma {:induction false} ScanRecordsHaveCall(lines: seq<string>, c: Collaborators)
    ensures forall i | 0 <= i < |Scan(lines, c).fullLog| :: Scan(lines, c).fullLog[i].call != ""
    decreases |lines|
  {
    if lines != [] {
      var front, line := lines[..|lines| - 1], lines[|lines| - 1];
      ScanRecordsHaveCall(front, c);
      var s := Scan(front, c);
      if !s.inMultiLine && IsDataLine(line) {
        DataLineParsed(s, line, c);
      } else {
        assert Step(s, line, c).fullLog == s.fullLog;
      }
    }
  }

  /** A line the parser does not see keeps the records as they are. */
  lemma StepKeepsRecords(s: ScanState, line: string, c: Collaborators)
    requires s.inMultiLine || !IsDataLine(line)
    ensures Step(s, line, c).fullLog == s.fullLog
  {
  }

  /** An input that never hands a line to the parser keeps no record: every line is either
      inside a block comment when it is read, or not a data line. */
  lemma {:induction false} NoDataLinesNoRecords(lines: seq<string>, c: Collaborators)
    requires forall i | 0 <= i < |lines| :: Scan(lines[..i], c).inMultiLine || !IsDataLine(lines[i])
    ensures Scan(lines, c).fullLog == []
    decreases |lines|
  {
    if lines != [] {
      var front := lines[..|lines| - 1];
      forall i | 0 <= i < |front|
        ensures Scan(front[..i], c).inMultiLine || !IsDataLine(front[i])
      {
        assert front[..i] == lines[..i];
      }
      NoDataLinesNoRecords(front, c);
      assert lines[..|front|] == front;
      StepKeepsRecords(Scan(front, c), lines[|front|], c);
    }
  }

  /** A line that sets header value `k`: the keyword, its space and at least one character. */
  predicate SetsHeader(line: string, k: Keyword) {
    StartsWithKeyword(line, KeywordText(k)) && |line| > |KeywordText(k)| + 1
  }

  /** Only a directive for `k` with a value changes header value `k`. */
  lemma StepKeepsHeader(s: ScanState, line: string, k: Keyword, c: Collaborators)
    requires !SetsHeader(line, k)
    ensures HeaderField(Step(s, line, c).header, k) == HeaderField(s.header, k)
  {
    match Classify(line, s.inMultiLine)
    case Directive(j, rest) =>
      if j == k {
        assert StartsWithKeyword(line, KeywordText(k));
        assert rest == "";
      }
    case _ =>
  }

  /** Header values are sticky: header value `k` keeps its value across any lines that do
      not set it, whatever else they do. */
  lemma {:induction false} HeaderSticky(prefix: seq<string>, rest: seq<string>, k: Keyword, c: Collaborators)
    requires forall i | 0 <= i < |rest| :: !SetsHeader(rest[i], k)
    ensures HeaderField(Scan(prefix + rest, c).header, k) == HeaderField(Scan(prefix, c).header, k)
    decreases |rest|
  {
    if rest == [] {
      assert prefix + rest == prefix;
    } else {
      var front, line := rest[..|rest| - 1], rest[|rest| - 1];
      SplitLast(prefix, rest);
      HeaderSticky(prefix, front, k, c);
      ScanSnoc(prefix + front, line, c);
      StepKeepsHeader(Scan(prefix + front, c), line, k, c);
    }
  }

  /** Once inside a block comment, lines that do not close it are all dropped, and the flag is
      still set at the end of the input: nothing resets it when the lines run out. */
  lemma {:induction false} UnclosedBlockDiscardsRest(prefix: seq<string>, rest: seq<string>, c: Collaborators)
    requires Scan(prefix, c).inMultiLine
    requires forall i | 0 <= i < |rest| :: !ClosesBlock(rest[i])
    ensures Scan(prefix + rest, c) == Scan(prefix, c).(lineCount := |prefix| + |rest|)
    decreases |rest|
  {
    if rest == [] {
      assert prefix + rest == prefix;
    } else {
      var front, line := rest[..|rest| - 1], rest[|rest| - 1];
      SplitLast(prefix, rest);
      UnclosedBlockDiscardsRest(prefix, front, c);
      ScanSnoc(prefix + front, line, c);
      InsideBlockDiscarded(Scan(prefix + front, c), line, c);
    }
  }
}
