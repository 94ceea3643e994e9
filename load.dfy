/**
 The loop of `loadFile` in `cmd/load.go`, over the lines already read from the file, with the
 source's order of tests and its `continue`s. The seven header directives are the method
 `HeaderBlock`, which works on the seven sticky header values as one `Header`. Both methods
 are proved against `LoadSpec`, so what `LoadProps` proves of `Scan` holds of `LoadFile`.
 */
module LoadCommand {
  import opened FleText
  import opened Records
  import opened LoadSpec
  import opened LoadProps

  /**
   The header directives of one line, outside a block comment: if the line starts with one,
   its value is stored, echoed and, when its validator complains, an error naming line
   `lineCount` is logged; the result says whether the line was a directive.
   */
  method HeaderBlock(eachLine: string, lineCount: nat, header: Header, cleanedInput: seq<string>,
                     errorLog: seq<string>, c: Collaborators)
    returns (isHeader: bool, header': Header, cleanedInput': seq<string>, errorLog': seq<string>)
    ensures isHeader == MatchKeyword(eachLine).Some?
    ensures isHeader ==>
      var k := MatchKeyword(eachLine).value;
      var rest := AfterKeyword(eachLine, KeywordText(k));
      && header' == StoredHeader(header, k, rest, c)
      && cleanedInput' == cleanedInput + EchoLines(k, rest, c)
      && errorLog' == errorLog + DirectiveErrors(k, rest, lineCount, c)
    ensures !isHeader ==> header' == header && cleanedInput' == cleanedInput && errorLog' == errorLog
  {
    isHeader, header', cleanedInput', errorLog' := true, header, cleanedInput, errorLog;

    if StartsWithKeyword(eachLine, KeywordText(MyCall)) {
      assert MatchKeyword(eachLine) == Some(MyCall);
      var myCall := AfterKeyword(eachLine, KeywordText(MyCall));
      if |myCall| > 0 {
        ValidatedDirectiveParts(header, MyCall, myCall, lineCount, c);
        var v := c.validateCall(myCall);
        header' := header'.(myCall := v.value);
        cleanedInput' := cleanedInput' + ["My call: " + header'.myCall];
        if |v.errorMsg| != 0 {
          errorLog' := errorLog' + [DirectiveError("myCall", lineCount, myCall, v.errorMsg)];
        }
      }
    } else if StartsWithKeyword(eachLine, KeywordText(Operator)) {
      assert MatchKeyword(eachLine) == Some(Operator);
      var operator := AfterKeyword(eachLine, KeywordText(Operator));
      if |operator| > 0 {
        ValidatedDirectiveParts(header, Operator, operator, lineCount, c);
        var v := c.validateCall(operator);
        header' := header'.(operator := v.value);
        cleanedInput' := cleanedInput' + ["Operator: " + header'.operator];
        if |v.errorMsg| != 0 {
          errorLog' := errorLog' + [DirectiveError("Operator", lineCount, operator, v.errorMsg)];
        }
      }
    } else if StartsWithKeyword(eachLine, KeywordText(MyWwff)) {
      assert MatchKeyword(eachLine) == Some(MyWwff);
      var myWwff := AfterKeyword(eachLine, KeywordText(MyWwff));
      if |myWwff| > 0 {
        ValidatedDirectiveParts(header, MyWwff, myWwff, lineCount, c);
        var v := c.validateWwff(myWwff);
        header' := header'.(myWwff := v.value);
        cleanedInput' := cleanedInput' + ["My WWFF: " + header'.myWwff];
        if |v.errorMsg| != 0 {
          errorLog' := errorLog' + [DirectiveError("\"My WWFF\"", lineCount, myWwff, v.errorMsg)];
        }
      }
    } else if StartsWithKeyword(eachLine, KeywordText(MySota)) {
      assert MatchKeyword(eachLine) == Some(MySota);
      var mySota := AfterKeyword(eachLine, KeywordText(MySota));
      if |mySota| > 0 {
        ValidatedDirectiveParts(header, MySota, mySota, lineCount, c);
        var v := c.validateSota(mySota);
        header' := header'.(mySota := v.value);
        cleanedInput' := cleanedInput' + ["My Sota: " + header'.mySota];
        if |v.errorMsg| != 0 {
          errorLog' := errorLog' + [DirectiveError("\"My SOTA\"", lineCount, mySota, v.errorMsg)];
        }
      }
    } else if StartsWithKeyword(eachLine, KeywordText(QslMsg)) {
      assert MatchKeyword(eachLine) == Some(QslMsg);
      var qslMsg := AfterKeyword(eachLine, KeywordText(QslMsg));
      if |qslMsg| > 0 {
        header' := header'.(qslMsg := qslMsg);
        cleanedInput' := cleanedInput' + ["QSL Message: " + header'.qslMsg];
      }
    } else if StartsWithKeyword(eachLine, KeywordText(Nickname)) {
      assert MatchKeyword(eachLine) == Some(Nickname);
      var nickname := AfterKeyword(eachLine, KeywordText(Nickname));
      if |nickname| > 0 {
        header' := header'.(nickname := nickname);
        cleanedInput' := cleanedInput' + ["eQSL Nickmane: " + header'.nickname];
      }
    } else if StartsWithKeyword(eachLine, KeywordText(Date)) {
      assert MatchKeyword(eachLine) == Some(Date);
      var date := AfterKeyword(eachLine, KeywordText(Date));
      if |date| > 0 {
        ValidatedDirectiveParts(header, Date, date, lineCount, c);
        var v := c.validateDate(date);
        header' := header'.(date := v.value);
        if |v.errorMsg| != 0 {
          errorLog' := errorLog' + [DirectiveError("Date", lineCount, date, v.errorMsg)];
        }
      }
    } else {
      isHeader := false;
    }

  }

  /** Loads the lines of a shorthand log: the records, the errors and the header echo lines,
      in encounter order, and the number of lines seen. */
  method LoadFile(txtLines: seq<string>, c: Collaborators)
    returns (fullLog: seq<LogLine>, errorLog: seq<string>, cleanedInput: seq<string>, lineCount: nat)
    ensures fullLog == Scan(txtLines, c).fullLog
    ensures errorLog == Scan(txtLines, c).errorLog
    ensures cleanedInput == Scan(txtLines, c).cleanedInput
    ensures lineCount == |txtLines|
  {
    var header := EmptyHeader;
    var isInMultiLine := false;
    var previousLogLine := EmptyLogLine;
    fullLog, errorLog, cleanedInput, lineCount := [], [], [], 0;

    for i := 0 to |txtLines|
      invariant lineCount == i
      invariant isInMultiLine == Scan(txtLines[..i], c).inMultiLine
      invariant header == Scan(txtLines[..i], c).header
      invariant previousLogLine == Scan(txtLines[..i], c).previous
      invariant cleanedInput == Scan(txtLines[..i], c).cleanedInput
      invariant errorLog == Scan(txtLines[..i], c).errorLog
      invariant fullLog == Scan(txtLines[..i], c).fullLog
    {
      var eachLine := txtLines[i];
      ghost var seen := txtLines[..i];
      assert txtLines[..i + 1] == seen + [eachLine];
      ScanSnoc(seen, eachLine, c);
      ghost var s := Scan(seen, c);
      lineCount := lineCount + 1;

      if IsLineComment(eachLine) {
        LineCommentSkipped(s, eachLine, c);
        continue;
      }
      if |eachLine| == 0 || IsOnlySpaces(eachLine) {
        BlankLineSkipped(s, eachLine, c);
        continue;
      }

      if OpensBlock(eachLine) {
        if IsOneLineBlock(eachLine) {
          OneLineBlockSkipped(s, eachLine, c);
          continue;
        }
        isInMultiLine := true;
        UnclosedBraceOpensBlock(s, eachLine, c);
        continue;
      }
      if isInMultiLine {
        if EndsBlock(eachLine) {
          isInMultiLine := false;
        }
        InsideBlockDiscarded(s, eachLine, c);
        continue;
      }

      var isHeader;
      isHeader, header, cleanedInput, errorLog :=
        HeaderBlock(eachLine, lineCount, header, cleanedInput, errorLog, c);
      if isHeader {
        DirectiveApplied(s, eachLine, c);
        continue;
      }

      previousLogLine := MergeHeader(header, previousLogLine);
      DataLineParsed(s, eachLine, c);

      var parsed := c.parseLine(eachLine, previousLogLine);
      var logLine, errorLine := parsed.logLine, parsed.errorLine;
      if logLine.call != "" {
        fullLog := fullLog + [logLine];
      }
      if errorLine != "" {
        errorLog := errorLog + [ParseError(lineCount, errorLine)];
      }
      previousLogLine := logLine;
    }
    assert txtLines[..|txtLines|] == txtLines;
  }
}
