/**
 What the loop of `loadFile` in `cmd/load.go` computes: one pass over the lines of a shorthand
 log that drops comments and blank lines, tracks block comments, keeps seven sticky header
 values and hands every data line to the data-line parser. `Step` is one iteration and `Scan`
 the whole pass; the loop itself is `LoadCommand.LoadFile`.
 */
module LoadSpec {
  import opened FleText
  import opened Records

  /** A field validator's answer: the (possibly normalised) value, and an error message
      that is empty when the value is valid. */
  datatype Validated = Validated(value: string, errorMsg: string)

  /** The data-line parser's answer: a best-effort record, and an error string that is
      empty when the line parsed cleanly. */
  datatype Parsed = Parsed(logLine: LogLine, errorLine: string)

  /** The code the loader calls but whose bodies are not part of this model. Every result
      is arbitrary, so everything proved here holds whatever they do. */
  datatype Collaborators = Collaborators(
    validateCall: string -> Validated,
    validateWwff: string -> Validated,
    validateSota: string -> Validated,
    validateDate: string -> Validated,
    parseLine: (string, LogLine) -> Parsed)

  /** The seven header directives, in the order the loader tests them. */
  datatype Keyword = MyCall | Operator | MyWwff | MySota | QslMsg | Nickname | Date

  function KeywordText(k: Keyword): string {
    match k
    case MyCall => "mycall"
    case Operator => "operator"
    case MyWwff => "mywwff"
    case MySota => "mysota"
    case QslMsg => "qslmsg"
    case Nickname => "nickname"
    case Date => "date"
  }

  /** The directives whose value goes through a validator; `qslmsg` and `nickname` are stored verbatim. */
  predicate IsValidated(k: Keyword) {
    k != QslMsg && k != Nickname
  }

  function Validator(k: Keyword, c: Collaborators): string -> Validated
    requires IsValidated(k)
  {
    match k
    case MyCall => c.validateCall
    case Operator => c.validateCall
    case MyWwff => c.validateWwff
    case MySota => c.validateSota
    case Date => c.validateDate
  }

  /** How a rejected directive value is named in its error message. */
  function ErrorLabel(k: Keyword): string
    requires IsValidated(k)
  {
    match k
    case MyCall => "myCall"
    case Operator => "Operator"
    case MyWwff => "\"My WWFF\""
    case MySota => "\"My SOTA\""
    case Date => "Date"
  }

  /** The echo line a stored directive adds to the cleaned input; a date adds none. */
  function Echo(k: Keyword, value: string): (lines: seq<string>)
    ensures |lines| == if k == Date then 0 else 1
  {
    match k
    case MyCall => ["My call: " + value]
    case Operator => ["Operator: " + value]
    case MyWwff => ["My WWFF: " + value]
    case MySota => ["My Sota: " + value]
    case QslMsg => ["QSL Message: " + value]
    case Nickname => ["eQSL Nickmane: " + value]
    case Date => []
  }

  function DirectiveError(what: string, lineCount: nat, raw: string, msg: string): string {
    "Invalid " + what + " at line " + NatToString(lineCount) + ": " + raw + " (" + msg + ")"
  }

  function ParseError(lineCount: nat, errorLine: string): string {
    "Parsing error at line " + NatToString(lineCount) + ": " + errorLine + " "
  }

  /** The sticky header values. */
  datatype Header = Header(
    myCall: string, operator: string, myWwff: string, mySota: string,
    qslMsg: string, nickname: string, date: string)

  const EmptyHeader := Header("", "", "", "", "", "", "")

  function HeaderField(h: Header, k: Keyword): string {
    match k
    case MyCall => h.myCall
    case Operator => h.operator
    case MyWwff => h.myWwff
    case MySota => h.mySota
    case QslMsg => h.qslMsg
    case Nickname => h.nickname
    case Date => h.date
  }

  /** The header with the directive `k` set to `v` and every other directive kept. */
  function SetHeaderField(h: Header, k: Keyword, v: string): (h': Header)
    ensures HeaderField(h', k) == v
    ensures forall j: Keyword | j != k :: HeaderField(h', j) == HeaderField(h, j)
  {
    match k
    case MyCall => h.(myCall := v)
    case Operator => h.(operator := v)
    case MyWwff => h.(myWwff := v)
    case MySota => h.(mySota := v)
    case QslMsg => h.(qslMsg := v)
    case Nickname => h.(nickname := v)
    case Date => h.(date := v)
  }

  /** The header values a record carries. */
  function HeaderOf(l: LogLine): Header {
    Header(l.myCall, l.operator, l.myWwff, l.mySota, l.qslMsg, l.nickname, l.date)
  }

  /** The basis handed to the parser: the header values written over the previous record. */
  function MergeHeader(h: Header, previous: LogLine): (basis: LogLine)
    ensures HeaderOf(basis) == h
    ensures basis.mode == previous.mode && basis.band == previous.band
    ensures basis.time == previous.time && basis.call == previous.call
    ensures basis.rstSent == previous.rstSent && basis.rstRcvd == previous.rstRcvd
    ensures basis.wwff == previous.wwff && basis.sota == previous.sota
    ensures basis.comment == previous.comment
  {
    previous.(myCall := h.myCall, operator := h.operator, myWwff := h.myWwff,
              mySota := h.mySota, qslMsg := h.qslMsg, nickname := h.nickname, date := h.date)
  }

  /** What a line is, given whether the scan is inside a block comment; the tests are
      made in the source's order and the first that matches wins. */
  datatype LineKind =
    | LineComment
    | BlankLine
    | OneLineBlock
    | BlockOpen
    | InsideBlock
    | Directive(keyword: Keyword, rest: string)
    | DataLine

  /** The directive the line starts with, testing the keywords in the source's order. */
  function MatchKeyword(line: string): (r: Option<Keyword>)
    ensures r.Some? ==> StartsWithKeyword(line, KeywordText(r.value))
    ensures r.None? ==> forall k: Keyword :: !StartsWithKeyword(line, KeywordText(k))
  {
    if StartsWithKeyword(line, KeywordText(MyCall)) then Some(MyCall)
    else if StartsWithKeyword(line, KeywordText(Operator)) then Some(Operator)
    else if StartsWithKeyword(line, KeywordText(MyWwff)) then Some(MyWwff)
    else if StartsWithKeyword(line, KeywordText(MySota)) then Some(MySota)
    else if StartsWithKeyword(line, KeywordText(QslMsg)) then Some(QslMsg)
    else if StartsWithKeyword(line, KeywordText(Nickname)) then Some(Nickname)
    else if StartsWithKeyword(line, KeywordText(Date)) then Some(Date)
    else None
  }

  function Classify(line: string, inMultiLine: bool): LineKind {
    if IsLineComment(line) then LineComment
    else if IsBlank(line) then BlankLine
    else if OpensBlock(line) then (if IsOneLineBlock(line) then OneLineBlock else BlockOpen)
    else if inMultiLine then InsideBlock
    else match MatchKeyword(line)
      case Some(k) => Directive(k, AfterKeyword(line, KeywordText(k)))
      case None => DataLine
  }

  /** Everything the loop keeps between lines. */
  datatype ScanState = ScanState(
    lineCount: nat,
    inMultiLine: bool,
    header: Header,
    previous: LogLine,
    cleanedInput: seq<string>,
    errorLog: seq<string>,
    fullLog: seq<LogLine>)

  /** The state before the first line: no line counted, outside a block comment, every header
      value and the carry-forward record empty, and the three lists empty. */
  function Initial(): ScanState {
    ScanState(0, false, EmptyHeader, EmptyLogLine, [], [], [])
  }

  /** The value a directive stores: what its validator returns, or the text itself for
      `qslmsg` and `nickname`. */
  function DirectiveValue(k: Keyword, rest: string, c: Collaborators): string {
    if IsValidated(k) then Validator(k, c)(rest).value else rest
  }

  /** The header after a directive: an empty remainder leaves it alone. */
  function StoredHeader(h: Header, k: Keyword, rest: string, c: Collaborators): Header {
    if rest == "" then h else SetHeaderField(h, k, DirectiveValue(k, rest, c))
  }

  /** The echo lines a directive adds to the cleaned input. */
  function EchoLines(k: Keyword, rest: string, c: Collaborators): seq<string> {
    if rest == "" then [] else Echo(k, DirectiveValue(k, rest, c))
  }

  /** The errors a directive on line `n` logs: one exactly when its validator complains. */
  function DirectiveErrors(k: Keyword, rest: string, n: nat, c: Collaborators): seq<string> {
    if rest == "" || !IsValidated(k) then []
    else
      var v := Validator(k, c)(rest);
      if v.errorMsg == "" then [] else [DirectiveError(ErrorLabel(k), n, rest, v.errorMsg)]
  }

  /** A header directive: store the value, echo it, log a validator's complaint. */
  function ApplyDirective(s: ScanState, k: Keyword, rest: string, c: Collaborators): ScanState {
    s.(header := StoredHeader(s.header, k, rest, c),
       cleanedInput := s.cleanedInput + EchoLines(k, rest, c),
       errorLog := s.errorLog + DirectiveErrors(k, rest, s.lineCount, c))
  }

  /** A data line: parse it against the merged basis, keep the record if it names a
      station, log the parser's complaint if any, and carry the record forward regardless. */
  function ApplyDataLine(s: ScanState, line: string, c: Collaborators): ScanState {
    var p := c.parseLine(line, MergeHeader(s.header, s.previous));
    s.(previous := p.logLine,
       fullLog := s.fullLog + if p.logLine.call != "" then [p.logLine] else [],
       errorLog := s.errorLog + if p.errorLine != "" then [ParseError(s.lineCount, p.errorLine)] else [])
  }

  /** The state with the line counter moved on and nothing else changed. */
  function Counted(s: ScanState): ScanState {
    s.(lineCount := s.lineCount + 1)
  }

  /** A line that ends a block comment when the scan is inside one: it is not a line comment,
      not blank, does not itself start with `{`, and ends with `}`. */
  predicate ClosesBlock(line: string) {
    !IsLineComment(line) && !IsBlank(line) && !OpensBlock(line) && EndsBlock(line)
  }

  /** A line handed to the data-line parser when the scan is outside a block comment. */
  predicate IsDataLine(line: string) {
    Classify(line, false) == DataLine
  }

  /** One iteration of the loop: count the line, then act on its kind. */
  function Step(s: ScanState, line: string, c: Collaborators): ScanState {
    var t := Counted(s);
    match Classify(line, s.inMultiLine)
    case LineComment => t
    case BlankLine => t
    case OneLineBlock => t
    case BlockOpen => t.(inMultiLine := true)
    case InsideBlock => t.(inMultiLine := !EndsBlock(line))
    case Directive(k, rest) => ApplyDirective(t, k, rest, c)
    case DataLine => ApplyDataLine(t, line, c)
  }

  /** The state after the loop has seen `lines`, first to last. */
  function Scan(lines: seq<string>, c: Collaborators): (s: ScanState)
    ensures s.lineCount == |lines|
    decreases |lines|
  {
    if lines == [] then Initial()
    else Step(Scan(lines[..|lines| - 1], c), lines[|lines| - 1], c)
  }
}
