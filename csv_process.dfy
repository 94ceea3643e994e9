/**
 The completeness check that gates the SOTA CSV export (`validateDataForSotaCsv`), and the
 gate itself: a load with errors, a load without a single QSO, or an incomplete record refuses
 the export. The check's expected outputs in `fleprocess/csv_process_test.go` are lemmas here.
 */
module SotaCsv {
  import opened FleText
  import opened Records
  import opened LoadSpec
  import opened LoadProps
  import opened LoadRuns

  /** The fields every record needs for a SOTA export besides the two owner fields. */
  predicate HasEntryFields(r: LogLine) {
    r.date != "" && r.band != "" && r.time != "" && r.mode != "" && r.call != ""
  }

  /** A record the export accepts: date, owner call, owner SOTA reference, band, time, mode
      and call all present. */
  predicate IsComplete(r: LogLine) {
    HasEntryFields(r) && r.myCall != "" && r.mySota != ""
  }

  /** How a message names record number `n`: by its time when it has one, and always by
      its 1-based position. */
  function EntryTag(r: LogLine, n: nat): string {
    if r.time == "" then "for log entry #" + NatToString(n)
    else "for log entry at " + r.time + " (#" + NatToString(n) + ")"
  }

  /** The tag ends with the record's position: `#n`, then `)` when the record has a time. */
  lemma EntryTagEndsWithPosition(r: LogLine, n: nat)
    ensures var tag, pos := EntryTag(r, n), "#" + NatToString(n) + (if r.time == "" then "" else ")");
            |pos| <= |tag| && tag[|tag| - |pos|..] == pos
  {
  }

  /** Numbering follows position: the same record at two different positions is never named
      alike, because `%d` loses nothing. */
  lemma EntryTagNamesPosition(r: LogLine, n: nat, m: nat)
    requires EntryTag(r, n) == EntryTag(r, m)
    ensures n == m
  {
    var tn, tm := EntryTag(r, n), EntryTag(r, m);
    var p := if r.time == "" then "for log entry #" else "for log entry at " + r.time + " (#";
    var k := if r.time == "" then 0 else 1;
    assert tn == p + NatToString(n) + tn[|tn| - k..];
    assert tm == p + NatToString(m) + tm[|tm| - k..];
    assert NatToString(n) == tn[|p|..|tn| - k];
    assert NatToString(m) == tm[|p|..|tm| - k];
    NatToStringRoundTrip(n);
    NatToStringRoundTrip(m);
  }

  function Missing(what: string, r: LogLine, n: nat): string {
    "missing " + what + " " + EntryTag(r, n)
  }

  /** 1 for an empty field, 0 for a filled one. */
  function Absent(field: string): nat {
    if field == "" then 1 else 0
  }

  /** The ninth character of a phrase is the first letter of the field it names, and the five
      field names start with five different letters, so no two fields share a phrase. */
  lemma MissingNamesField(r: LogLine, n: nat)
    ensures Missing("date", r, n)[8] == 'd' && Missing("band", r, n)[8] == 'b'
    ensures Missing("QSO time", r, n)[8] == 'Q' && Missing("mode", r, n)[8] == 'm'
    ensures Missing("call", r, n)[8] == 'c'
  {
  }

  /** The phrases for record number `n`, one per missing field, in the order date, band,
      QSO time, mode, call. */
  function RecordPhrases(r: LogLine, n: nat): (phrases: seq<string>)
    ensures phrases == [] <==> HasEntryFields(r)
    ensures |phrases| <= 5
  {
    (if r.date == "" then [Missing("date", r, n)] else []) +
    (if r.band == "" then [Missing("band", r, n)] else []) +
    (if r.time == "" then [Missing("QSO time", r, n)] else []) +
    (if r.mode == "" then [Missing("mode", r, n)] else []) +
    (if r.call == "" then [Missing("call", r, n)] else [])
  }

  /** One phrase per missing field and none for a present one: a record's phrases are as many
      as its empty fields, and the phrase naming a field is among them iff that field is empty. */
  lemma PhrasesNameMissingFields(r: LogLine, n: nat)
    ensures var phrases := RecordPhrases(r, n);
      && |phrases| == Absent(r.date) + Absent(r.band) + Absent(r.time) + Absent(r.mode) + Absent(r.call)
      && (Missing("date", r, n) in phrases <==> r.date == "")
      && (Missing("band", r, n) in phrases <==> r.band == "")
      && (Missing("QSO time", r, n) in phrases <==> r.time == "")
      && (Missing("mode", r, n) in phrases <==> r.mode == "")
      && (Missing("call", r, n) in phrases <==> r.call == "")
  {
    MissingNamesField(r, n);
  }

  /** `f` of every record and its number, counting from `first`, concatenated in order. */
  function ConcatNumbered(log: seq<LogLine>, first: nat, f: (LogLine, nat) -> seq<string>): seq<string>
    decreases |log|
  {
    if log == [] then [] else f(log[0], first) + ConcatNumbered(log[1..], first + 1, f)
  }

  /** Numbering follows position: over `a + b`, the records of `b` are numbered on from
      where `a` stops. */
  lemma {:induction false} ConcatNumberedAppend(a: seq<LogLine>, b: seq<LogLine>, first: nat,
                                                f: (LogLine, nat) -> seq<string>)
    ensures ConcatNumbered(a + b, first, f) == ConcatNumbered(a, first, f) + ConcatNumbered(b, first + |a|, f)
    decreases |a|
  {
    if a == [] {
      assert a + b == b;
    } else {
      assert (a + b)[0] == a[0];
      assert (a + b)[1..] == a[1..] + b;
      ConcatNumberedAppend(a[1..], b, first + 1, f);
    }
  }

  /** The phrases for `log`, whose first record is number `first`, record by record. */
  function Phrases(log: seq<LogLine>, first: nat): seq<string> {
    ConcatNumbered(log, first, RecordPhrases)
  }

  /** There is nothing to report exactly when every record has its entry fields. */
  lemma {:induction false} NoPhrasesIffEntriesFilled(log: seq<LogLine>, first: nat)
    ensures Phrases(log, first) == [] <==> forall i | 0 <= i < |log| :: HasEntryFields(log[i])
    decreases |log|
  {
    if log != [] {
      NoPhrasesIffEntriesFilled(log[1..], first + 1);
      assert Phrases(log, first) == RecordPhrases(log[0], first) + Phrases(log[1..], first + 1);
      assert forall i | 1 <= i < |log| :: log[i] == log[1..][i - 1];
    }
  }

  /**
   `validateDataForSotaCsv`: nothing when every record is complete; otherwise `Missing MyCall`
   if any record lacks the owner call, else `Missing MY-SOTA reference` if any lacks the owner
   SOTA reference, else every missing-field phrase of every record, joined with ", ".
   */
  function ValidateDataForSotaCsv(log: seq<LogLine>): (err: Option<string>)
    ensures err.None? <==> forall i | 0 <= i < |log| :: IsComplete(log[i])
  {
    if !(forall i | 0 <= i < |log| :: log[i].myCall != "") then Some("Missing MyCall")
    else if !(forall i | 0 <= i < |log| :: log[i].mySota != "") then Some("Missing MY-SOTA reference")
    else
      var phrases := Phrases(log, 1);
      NoPhrasesIffEntriesFilled(log, 1);
      if phrases == [] then None else Some(Join(phrases, ", "))
  }

  /** Numbering follows position: the phrases for `a + b` are those for `a`, then those for
      `b` numbered on from where `a` stops. */
  lemma PhrasesAppend(a: seq<LogLine>, b: seq<LogLine>, first: nat)
    ensures Phrases(a + b, first) == Phrases(a, first) + Phrases(b, first + |a|)
  {
    ConcatNumberedAppend(a, b, first, RecordPhrases);
  }

  /** Three records: each record's phrases with its own number, in record order. */
  lemma PhrasesOfThree(r1: LogLine, r2: LogLine, r3: LogLine)
    ensures Phrases([r1, r2, r3], 1) == RecordPhrases(r1, 1) + RecordPhrases(r2, 2) + RecordPhrases(r3, 3)
  {
    var f := RecordPhrases;
    assert [r1, r2, r3][1..] == [r2, r3] && [r2, r3][1..] == [r3] && [r3][1..] == [];
    assert ConcatNumbered([r3], 3, f) == f(r3, 3) + ConcatNumbered([], 4, f);
    assert ConcatNumbered([r2, r3], 2, f) == f(r2, 2) + ConcatNumbered([r3], 3, f);
    assert ConcatNumbered([r1, r2, r3], 1, f) == f(r1, 1) + ConcatNumbered([r2, r3], 2, f);
  }

  /** Messages compose: when both halves of a log have complete owner fields and something
      missing, the message for the whole is the message for the first half, a comma, and the
      message for the second half with its records numbered from `|a| + 1`. */
  lemma MessageAppend(a: seq<LogLine>, b: seq<LogLine>)
    requires forall i | 0 <= i < |a + b| :: (a + b)[i].myCall != "" && (a + b)[i].mySota != ""
    requires Phrases(a, 1) != [] && Phrases(b, |a| + 1) != []
    ensures ValidateDataForSotaCsv(a + b) ==
            Some(Join(Phrases(a, 1), ", ") + ", " + Join(Phrases(b, |a| + 1), ", "))
  {
    PhrasesAppend(a, b, 1);
    JoinAppend(Phrases(a, 1), Phrases(b, |a| + 1), ", ");
  }

  /** A record with every field the tests fill in. */
  function Entry(date: string, myCall: string, mySota: string, mode: string, band: string,
                 time: string, call: string): LogLine
  {
    EmptyLogLine.(date := date, myCall := myCall, mySota := mySota, mode := mode, band := band,
                  time := time, call := call)
  }

  /** "Happy Case": three complete records give no error. */
  lemma HappyCase()
    ensures var r := Entry("date", "myCall", "mySota", "mode", "band", "time", "call");
            ValidateDataForSotaCsv([r, r, r]) == None
  {
  }

  /** Record 1 of the "Misc. missing data" vector has no time, so it is named by position. */
  lemma UntimedTag(r: LogLine)
    requires r.time == ""
    ensures EntryTag(r, 1) == "for log entry #1"
  {
    assert NatToString(1) == "1";
  }

  /** Record 2 of the two vectors is named by its time 12:02 and its position. */
  lemma TimedTagTwo(r: LogLine)
    requires r.time == "12:02"
    ensures EntryTag(r, 2) == "for log entry at 12:02 (#2)"
  {
    assert NatToString(2) == "2";
  }

  /** Record 3 of the two vectors is named by its time 12:03 and its position. */
  lemma TimedTagThree(r: LogLine)
    requires r.time == "12:03"
    ensures EntryTag(r, 3) == "for log entry at 12:03 (#3)"
  {
    assert NatToString(3) == "3";
  }

  /** The expected phrases of the two vectors, one lemma each, from the record's tag. */
  lemma DateTwoText(r: LogLine)
    requires EntryTag(r, 2) == "for log entry at 12:02 (#2)"
    ensures Missing("date", r, 2) == "missing date for log entry at 12:02 (#2)"
  {
  }

  lemma DateThreeText(r: LogLine)
    requires EntryTag(r, 3) == "for log entry at 12:03 (#3)"
    ensures Missing("date", r, 3) == "missing date for log entry at 12:03 (#3)"
  {
  }

  lemma BandOneText(r: LogLine)
    requires EntryTag(r, 1) == "for log entry #1"
    ensures Missing("band", r, 1) == "missing band for log entry #1"
  {
  }

  lemma TimeOneText(r: LogLine)
    requires EntryTag(r, 1) == "for log entry #1"
    ensures Missing("QSO time", r, 1) == "missing QSO time for log entry #1"
  {
  }

  lemma ModeTwoText(r: LogLine)
    requires EntryTag(r, 2) == "for log entry at 12:02 (#2)"
    ensures Missing("mode", r, 2) == "missing mode for log entry at 12:02 (#2)"
  {
  }

  lemma CallThreeText(r: LogLine)
    requires EntryTag(r, 3) == "for log entry at 12:03 (#3)"
    ensures Missing("call", r, 3) == "missing call for log entry at 12:03 (#3)"
  {
  }

  /** Four phrases joined: the separator between each consecutive pair. */
  lemma JoinFour(p1: string, p2: string, p3: string, p4: string, sep: string)
    ensures Join([p1, p2, p3, p4], sep) == p1 + sep + p2 + sep + p3 + sep + p4
  {
    var ps := [p1, p2, p3, p4];
    assert ps[1..] == [p2, p3, p4] && ps[1..][1..] == [p3, p4] && ps[1..][1..][1..] == [p4];
    assert Join([p3, p4], sep) == p3 + sep + p4;
    assert Join([p2, p3, p4], sep) == p2 + sep + (p3 + sep + p4);
  }

  /** A record that lacks only its date. */
  predicate OnlyDateMissing(r: LogLine) {
    r.date == "" && r.myCall != "" && r.mySota != "" && r.band != "" && r.time != "" &&
    r.mode != "" && r.call != ""
  }

  /** A complete record followed by two that lack only their date: one date phrase for each of
      the two, numbered 2 and 3, joined by ", ". */
  lemma DateMissingInLastTwo(r1: LogLine, r2: LogLine, r3: LogLine)
    requires IsComplete(r1) && OnlyDateMissing(r2) && OnlyDateMissing(r3)
    ensures ValidateDataForSotaCsv([r1, r2, r3]) ==
            Some(Missing("date", r2, 2) + ", " + Missing("date", r3, 3))
  {
    var log := [r1, r2, r3];
    assert forall i | 0 <= i < |log| :: log[i].myCall != "" && log[i].mySota != "" by {
      assert forall i | 0 <= i < |log| :: log[i] == r1 || log[i] == r2 || log[i] == r3;
    }
    PhrasesOfThree(r1, r2, r3);
    var p2, p3 := Missing("date", r2, 2), Missing("date", r3, 3);
    assert RecordPhrases(r1, 1) == [];
    assert RecordPhrases(r2, 2) == [p2];
    assert RecordPhrases(r3, 3) == [p3];
    assert Phrases(log, 1) == [p2, p3];
    assert Join([p2, p3], ", ") == p2 + ", " + p3 by {
      assert [p2, p3][1..] == [p3];
    }
  }

  /** "Missing Date": records 2 and 3 lack a date and are named by their times. */
  lemma MissingDateCase()
    ensures ValidateDataForSotaCsv([
              Entry("date", "myCall", "mySota", "mode", "band", "12:01", "call"),
              Entry("", "myCall", "mySota", "mode", "band", "12:02", "call"),
              Entry("", "myCall", "mySota", "mode", "band", "12:03", "call")]) ==
            Some("missing date for log entry at 12:02 (#2)" + ", " +
                 "missing date for log entry at 12:03 (#3)")
  {
    var r1 := Entry("date", "myCall", "mySota", "mode", "band", "12:01", "call");
    var r2 := Entry("", "myCall", "mySota", "mode", "band", "12:02", "call");
    var r3 := Entry("", "myCall", "mySota", "mode", "band", "12:03", "call");
    DateMissingInLastTwo(r1, r2, r3);
    TimedTagTwo(r2);
    TimedTagThree(r3);
    DateTwoText(r2);
    DateThreeText(r3);
  }

  /** "Missing MyCall": no per-record detail, just the fixed message. */
  lemma MissingMyCallCase()
    ensures ValidateDataForSotaCsv([
              Entry("date", "", "mySota", "mode", "band", "12:01", "call"),
              Entry("date", "", "mySota", "mode", "band", "12:02", "call"),
              Entry("date", "", "mySota", "mode", "band", "12:03", "call")]) ==
            Some("Missing MyCall")
  {
    var r1 := Entry("date", "", "mySota", "mode", "band", "12:01", "call");
    assert [r1, Entry("date", "", "mySota", "mode", "band", "12:02", "call"),
            Entry("date", "", "mySota", "mode", "band", "12:03", "call")][0] == r1;
  }

  /** "Missing MySota": the fixed message for a missing owner SOTA reference. */
  lemma MissingMySotaCase()
    ensures var r := Entry("date", "myCall", "", "mode", "band", "time", "call");
            ValidateDataForSotaCsv([r, r, r]) == Some("Missing MY-SOTA reference")
  {
    var r := Entry("date", "myCall", "", "mode", "band", "time", "call");
    assert [r, r, r][0] == r;
  }

  /** "Misc. missing data": two phrases for record 1, named by position since it has no
      time, then one phrase each for records 2 and 3, named by their times. */
  lemma MiscMissingCase()
    ensures ValidateDataForSotaCsv([
              Entry("date", "myCall", "mySota", "mode", "", "", "call"),
              Entry("date", "myCall", "mySota", "", "band", "12:02", "call"),
              Entry("date", "myCall", "mySota", "mode", "band", "12:03", "")]) ==
            Some("missing band for log entry #1" + ", " +
                 "missing QSO time for log entry #1" + ", " +
                 "missing mode for log entry at 12:02 (#2)" + ", " +
                 "missing call for log entry at 12:03 (#3)")
  {
    var r1 := Entry("date", "myCall", "mySota", "mode", "", "", "call");
    var r2 := Entry("date", "myCall", "mySota", "", "band", "12:02", "call");
    var r3 := Entry("date", "myCall", "mySota", "mode", "band", "12:03", "");
    UntimedTag(r1);
    TimedTagTwo(r2);
    TimedTagThree(r3);
    BandOneText(r1);
    TimeOneText(r1);
    ModeTwoText(r2);
    CallThreeText(r3);
    PhrasesOfThree(r1, r2, r3);
    var p1, q1 := Missing("band", r1, 1), Missing("QSO time", r1, 1);
    var p2, p3 := Missing("mode", r2, 2), Missing("call", r3, 3);
    assert RecordPhrases(r1, 1) == [p1, q1];
    assert Phrases([r1, r2, r3], 1) == [p1, q1, p2, p3];
    JoinFour(p1, q1, p2, p3, ", ");
  }

  /** Why the CSV command refuses to export. */
  datatype GateError =
    | LoadErrors(errors: seq<string>)
    | NoQso
    | Incomplete(message: string)

  /**
   The checks the CSV command makes before it writes anything: the load must be free of
   errors, it must hold at least one QSO, and every record must be complete; the first
   failing check is the reason given.
   */
  function CsvExportGate(fullLog: seq<LogLine>, errorLog: seq<string>): (refusal: Option<GateError>)
    ensures refusal.None? <==>
            errorLog == [] && |fullLog| > 0 && forall i | 0 <= i < |fullLog| :: IsComplete(fullLog[i])
    ensures errorLog != [] ==> refusal == Some(LoadErrors(errorLog))
  {
    if errorLog != [] then Some(LoadErrors(errorLog))
    else if fullLog == [] then Some(NoQso)
    else match ValidateDataForSotaCsv(fullLog)
      case Some(message) => Some(Incomplete(message))
      case None => None
  }

  /** "input file parsing errors": one data line the parser complains about, anywhere in the
      input, is enough to refuse the export, whatever follows it. */
  lemma {:induction false} ParseErrorRefusesExport(lines: seq<string>, j: nat, c: Collaborators)
    requires j < |lines|
    requires !Scan(lines[..j], c).inMultiLine && IsDataLine(lines[j])
    requires var s := Scan(lines[..j], c);
             c.parseLine(lines[j], MergeHeader(s.header, s.previous)).errorLine != ""
    ensures var s := Scan(lines, c);
            CsvExportGate(s.fullLog, s.errorLog).Some? &&
            CsvExportGate(s.fullLog, s.errorLog).value.LoadErrors?
  {
    var before := lines[..j];
    ScanSnoc(before, lines[j], c);
    DataLineParsed(Scan(before, c), lines[j], c);
    assert before + [lines[j]] == lines[..j + 1];
    ScanAppendOnly(lines[..j + 1], lines[j + 1..], c);
    assert lines[..j + 1] + lines[j + 1..] == lines;
  }

  /** A block comment holding a line that would otherwise be a data line keeps no QSO either,
      so the export is refused. */
  lemma CommentedOutQsoRefused(c: Collaborators)
    ensures var s := Scan(["{", "ab", "}"], c);
            s.fullLog == [] && CsvExportGate(s.fullLog, s.errorLog).Some?
  {
    var lines := ["{", "ab", "}"];
    assert lines[..0] == [] && lines[..1] == ["{"] && lines[..2] == ["{", "ab"];
    assert Scan(["{"], c).inMultiLine;
    NoDataLinesNoRecords(lines, c);
  }

  /** "No QSO in loaded file": an input that never hands a line to the parser, even one whose
      headers are all valid, refuses the export. */
  lemma NoQsoRefusesExport(lines: seq<string>, c: Collaborators)
    requires forall i | 0 <= i < |lines| :: Scan(lines[..i], c).inMultiLine || !IsDataLine(lines[i])
    ensures var s := Scan(lines, c);
            CsvExportGate(s.fullLog, s.errorLog).Some? &&
            (s.errorLog == [] ==> CsvExportGate(s.fullLog, s.errorLog) == Some(NoQso))
  {
    NoDataLinesNoRecords(lines, c);
  }
}
