# FLEcli: the shorthand-log loader and the SOTA CSV completeness check, in Dafny

FLEcli reads an amateur-radio contact log written in the "FLE" shorthand format. It turns
the log into contact records and can export them as a CSV file for SOTA ("Summits on the
Air") activations. This project models two pieces of it.

**The loading pass of `loadFile`.** The loader makes one pass over the lines of the file.
- It drops `#` comments and blank lines.
- It tracks block comments: a `{...}` line, or a run of lines from one starting with `{` to a
  line that closes it. A closing line ends in `}` and is not itself a `#` comment, a blank line
  or a line starting with `{`: those tests come first, so such lines inside a block never close it.
- It keeps seven sticky header values: owner call, operator, owner WWFF and SOTA references,
  QSL message, nickname and date. Each one is set by a case-insensitive directive
  (`mycall `, `operator `, …), and may be validated and echoed on the way.
- It hands every other line to the data-line parser. The parser sees the header values laid
  over the previous record.
- It collects the kept records (`fullLog`), the error messages (`errorLog`) and the header
  echo lines (`cleanedInput`).

**The SOTA CSV completeness check, `validateDataForSotaCsv`, and the checks the CSV command
makes before exporting.** A complete log gives no message. A log missing the owner call or
the owner SOTA reference gets one fixed message. Any other log gets one "missing X for log
entry …" phrase per missing field, joined with ", ".

Layout:

- `text.dfy` (`FleText`) holds the line tests behind the loader's regular expressions, with
  Go's RE2 meaning spelled out:
  - `\s` is tab, newline, form feed, carriage return or space;
  - `.` is any character except newline;
  - `(?i)` follows the Unicode simple case folding, so `k` also matches the Kelvin sign and
    `s` also matches the long s.

  It also holds `%d` rendering of line numbers and joining with a separator.
- `records.dfy` (`Records`): the contact record and `Option`.
- `load_spec.dfy` (`LoadSpec`): one step of the loop (`Step`) and the whole pass (`Scan`), as
  functions. The four validators and the data-line parser are arbitrary functions passed in,
  so every result holds whatever they return.
- `load.dfy` (`LoadCommand`): the loop itself, imperative, proved against `Scan`.
- `load_props.dfy` (`LoadProps`): what one line does to the state, for each kind of line.
- `load_runs.dfy` (`LoadRuns`): properties of the whole pass.
- `csv_process.dfy` (`SotaCsv`): the completeness check, its expected outputs, and the
  export gate.

## Model

| member | source | states |
|---|---|---|
| LoadCommand.LoadFile | cmd/load.go:94-267 | The loop over the lines returns exactly the records, error messages and echo lines of the pass `Scan`, and the number of lines seen. |
| LoadCommand.HeaderBlock | cmd/load.go:143-241 | A line is a directive iff it starts with one of the seven keywords; then the first keyword in the source order is applied to the text after it: the header value stored, the echo line added, and an error naming the line number logged only when the validator complains; otherwise nothing changes. |
| LoadSpec.Scan | cmd/load.go:110-112 | After the pass, the line counter equals the number of input lines: every line is counted, even a dropped one. |
| LoadSpec.MatchKeyword | cmd/load.go:86-92 | The keyword returned does start the line, followed by a space; no keyword means none of the seven starts it. |
| LoadSpec.SetHeaderField | cmd/load.go:147-241 | A directive sets its own header value to the new value and leaves the other six unchanged. |
| LoadSpec.MergeHeader | cmd/load.go:247-254 | The basis given to the parser carries the seven header values in the owner fields and keeps every other field of the previous record. |
| LoadSpec.Echo | cmd/load.go:147-241 | Each directive except `date` adds exactly one echo line; `date` adds none. |
| FleText.IsSpace | cmd/load.go:82 | RE2's `\s`: tab, newline, form feed, carriage return and space, and no vertical tab. |
| FleText.IsLineComment | cmd/load.go:81 | `^#`: the line's first character is `#`. |
| FleText.IsOnlySpaces | cmd/load.go:82 | `^\s+$`: at least one character, every one of them RE2 white space. |
| FleText.IsBlank | cmd/load.go:123 | The loader's blank test: `len(eachline) == 0`, or `^\s+$`. |
| FleText.IsOneLineBlock | cmd/load.go:83 | `^{.+}$`: starts with `{`, ends with `}`, at least one character between, and none of those a newline, since RE2's `.` does not match one. |
| FleText.OpensBlock | cmd/load.go:84 | `^{`: the line's first character is `{`. |
| FleText.EndsBlock | cmd/load.go:85 | `}$`: the line's last character is `}`. |
| FleText.FoldsTo | cmd/load.go:86-92 | What a keyword letter matches under RE2's `(?i)`: its own letter, its capital, and for `k` the Kelvin sign and for `s` the long s, following Unicode simple case folding. |
| FleText.StartsWithKeyword | cmd/load.go:86-92 | `(?i)^keyword `: the keyword's letters in any case at the start, then exactly one literal space. |
| FleText.AfterKeyword | cmd/load.go:150-151 | The remainder is as long as the line minus the keyword and its space; what it holds is stated by `FleText.AfterKeywordSplits`. |
| FleText.AfterKeywordSplits | cmd/load.go:150-151 | The line is the keyword as written, one space, and the remainder: the remainder is exactly the rest of the line, with nothing lost or added. |
| FleText.NatToString | cmd/load.go:155 | A line number renders as at least one decimal digit, with no leading zero for a positive number. |
| FleText.NatToStringRoundTrip | cmd/load.go:155 | Reading the rendering back gives the number, so two line numbers never render alike. |
| FleText.Join | fleprocess/csv_process_test.go:33-60 | The phrases in order with ", " between consecutive ones, as in the expected messages; stated by `FleText.JoinAppend`. |
| FleText.JoinAppend | fleprocess/csv_process_test.go:60 | Joining two non-empty runs of phrases is joining each and putting one separator between them. |
| LoadSpec.KeywordText | cmd/load.go:86-92 | The seven keyword texts of the directive regexes, in the order the loader tests them; what a line must start with is `FleText.StartsWithKeyword`, and `LoadProps.KeywordsExclusive` shows no line starts with two of them. |
| LoadSpec.Initial | cmd/load.go:94-108 | The state before the loop: counter 0, outside a block comment, the seven header values and the carry-forward record empty, and the three lists empty. |
| LoadSpec.Counted | cmd/load.go:112 | `lineCount++`: the counter moves on and nothing else changes; `LoadSpec.Scan` shows every line is counted. |
| LoadSpec.DirectiveValue | cmd/load.go:151-234 | The value a directive stores: its validator's value for `mycall`, `operator`, `mywwff`, `mysota` and `date`, the text itself for `qslmsg` and `nickname`; stated by `LoadProps.ValidatedDirectiveParts`. |
| LoadSpec.StoredHeader | cmd/load.go:151-234 | The header after a directive: an empty remainder leaves it alone, otherwise the directive's own value is set; stated by `LoadProps.ValidatedDirectiveStored`, `LoadProps.VerbatimDirectiveStored` and `LoadProps.EmptyDirectiveIgnored`, and used by `LoadCommand.HeaderBlock`'s contract. |
| LoadSpec.EchoLines | cmd/load.go:151-234 | The echo lines a directive adds: none for an empty remainder, otherwise `LoadSpec.Echo` of the stored value; used by `LoadCommand.HeaderBlock`'s contract. |
| LoadSpec.DirectiveErrors | cmd/load.go:151-241 | The errors a directive logs: one exactly when a validated directive with a value draws a complaint, naming the line; stated by `LoadProps.ValidatedDirectiveParts` and used by `LoadCommand.HeaderBlock`'s contract. |
| LoadSpec.IsDataLine | cmd/load.go:243-257 | A line that, outside a block comment, gets past the comment, blank, brace and seven directive tests to the parser; stated by `LoadProps.DataLineParsed` and `LoadRuns.NoDataLinesNoRecords`. |
| LoadSpec.Step | cmd/load.go:112-264 | One iteration of the loop: count the line, then act on its kind; what each kind does is stated by the `LoadProps` lemmas, one per kind. |
| LoadSpec.Classify | cmd/load.go:119-241 | The loop's tests in the source's order, first match wins; its outcomes are stated by `LoadProps.DirectiveClassified`, `LoadProps.KeywordLineIsPlain` and the per-kind `LoadProps` lemmas. |
| LoadSpec.ApplyDirective | cmd/load.go:147-241 | A directive's effect on the state; stated by `LoadProps.ValidatedDirectiveStored`, `LoadProps.VerbatimDirectiveStored` and `LoadProps.EmptyDirectiveIgnored`. |
| LoadSpec.ApplyDataLine | cmd/load.go:248-264 | A data line's effect on the state; stated by `LoadProps.DataLineParsed`. |
| LoadSpec.DirectiveError | cmd/load.go:155 | The text of a rejected directive value: "Invalid <label> at line <n>: <raw> (<complaint>)", as the formats at cmd/load.go lines 155, 170, 185, 200 and 236 write it; which label each directive uses is `LoadSpec.ErrorLabel`. |
| LoadSpec.ErrorLabel | cmd/load.go:155-236 | How each validated directive is named in its error: `myCall`, `Operator`, `"My WWFF"`, `"My SOTA"` and `Date`, quotes included. |
| LoadSpec.ParseError | cmd/load.go:262 | The text of a parser complaint: "Parsing error at line <n>: <complaint> ", trailing space included. |
| LoadSpec.Validator | cmd/load.go:152-234 | Which validator each directive calls: the call validator for `mycall` and `operator`, the WWFF validator for `mywwff`, the SOTA validator for `mysota`, the date validator for `date`. |
| LoadSpec.ClosesBlock | cmd/load.go:119-137 | Inside a block comment, the line that ends it: it reaches the `}$` test because it is not a `#` comment, not blank and does not start with `{`, and it ends with `}`. |
| LoadProps.ScanSnoc | cmd/load.go:111 | The pass over some lines followed by one more line is one more step after the pass over those lines. |
| LoadProps.LineCommentSkipped | cmd/load.go:119-121 | A line starting with `#` changes nothing but the line counter, inside a block comment or not. |
| LoadProps.BlankLineSkipped | cmd/load.go:123-125 | An empty or all-white-space line changes nothing but the line counter. |
| LoadProps.OneLineBlockSkipped | cmd/load.go:128-132 | A `{...}` line with at least one character between the braces changes nothing but the line counter; in particular it does not start a block comment. |
| LoadProps.UnclosedBraceOpensBlock | cmd/load.go:128-135 | Any other line starting with `{` (such as `{}` or `{abc`) is dropped and starts a block comment. |
| LoadProps.InsideBlockDiscarded | cmd/load.go:136-141 | Inside a block comment every line is dropped, directives included; the block ends exactly when the line closes it. |
| LoadProps.KeywordLineIsPlain | cmd/load.go:119-141 | A line starting with a keyword is never a comment, blank or brace line, so only the block-comment flag keeps it from the directives. |
| LoadProps.KeywordsExclusive | cmd/load.go:86-92 | No line starts with two different keywords, so the order of the directive tests never decides anything. |
| LoadProps.DirectiveClassified | cmd/load.go:147-241 | Outside a block comment, a line starting with a keyword is that directive, with the text after the keyword and its space. |
| LoadProps.DirectiveApplied | cmd/load.go:147-241 | Outside a block comment, a directive line counts the line and applies its keyword to the text after it. |
| LoadProps.EmptyDirectiveIgnored | cmd/load.go:150-159 | A directive with nothing after `keyword ` changes no header value, adds no echo line and logs no error: only the line counter moves. |
| LoadProps.ValidatedDirectiveParts | cmd/load.go:151-156 | For a validated directive with a value, the value stored and echoed is the validator's, and an error is logged iff the validator complains. |
| LoadProps.ValidatedDirectiveStored | cmd/load.go:148-241 | For `mycall`, `operator`, `mywwff`, `mysota` and `date`, the validator's value is stored even when it complains, and then exactly one error naming the 1-based line number, the raw value and the complaint is logged. The value is echoed, except for `date`. The records, the carry-forward record and the block-comment flag are unchanged. |
| LoadProps.VerbatimDirectiveStored | cmd/load.go:208-227 | `qslmsg` and `nickname` store the text verbatim and echo it, log nothing, and change no record. |
| LoadProps.DataLineParsed | cmd/load.go:248-264 | On a data line, the parser sees the header values laid over the previous record. Its record is kept iff its call is non-empty, and its complaint is logged with the line number iff there is one. Its record becomes the next basis in every case. The header values and echo lines are unchanged. |
| LoadRuns.StepAppends | cmd/load.go:147-264 | One line extends each of the three lists by at most one entry and keeps what was there. |
| LoadRuns.ScanAppendOnly | cmd/load.go:104-267 | More input never removes or reorders anything: what the pass had produced is still the start of each list. |
| LoadRuns.ScanBounded | cmd/load.go:111-267 | No list is longer than the input. |
| LoadRuns.ScanRecordsHaveCall | cmd/load.go:258-260 | Every record kept has a non-empty call. |
| LoadRuns.StepKeepsRecords | cmd/load.go:136-141 | A line the parser does not see, because the scan is inside a block comment or the line is no data line, leaves the records as they are. |
| LoadRuns.NoDataLinesNoRecords | cmd/load.go:136-260 | An input that never hands a line to the parser keeps no record: every line is read inside a block comment or is no data line. |
| LoadRuns.StepKeepsHeader | cmd/load.go:94-241 | Only a directive for a header value, with a value after its keyword, changes that header value. |
| LoadRuns.HeaderSticky | cmd/load.go:94-241 | A header value keeps its value across any run of lines that do not set it. |
| LoadRuns.UnclosedBlockDiscardsRest | cmd/load.go:133-141 | Once inside a block comment, lines that do not close it are all dropped and the flag stays set to the end of the input. |
| SotaCsv.HasEntryFields | fleprocess/csv_process_test.go:17-60 | The five per-record fields a phrase can report: date, band, time, mode and call, all non-empty. |
| SotaCsv.IsComplete | fleprocess/csv_process_test.go:17-25 | The seven fields the export needs: the five entry fields plus the owner call and the owner SOTA reference. |
| SotaCsv.Missing | fleprocess/csv_process_test.go:26-60 | The phrase for one missing field: "missing <field> <tag>", with the field named `date`, `band`, `QSO time`, `mode` or `call`. |
| SotaCsv.EntryTagEndsWithPosition | fleprocess/csv_process_test.go:26-60 | Every record's tag ends with `#` and its position in decimal, then `)` when the record has a time. |
| SotaCsv.EntryTagNamesPosition | fleprocess/csv_process_test.go:26-60 | Numbering follows position: the same record at two different positions never gets the same tag. |
| SotaCsv.RecordPhrases | fleprocess/csv_process_test.go:53-60 | A record gets no phrase iff its date, band, time, mode and call are all present, and never more than five phrases. |
| SotaCsv.PhrasesNameMissingFields | fleprocess/csv_process_test.go:53-60 | A record gets exactly as many phrases as it has empty fields among date, band, time, mode and call, and the phrase naming a field is among them iff that field is empty. |
| SotaCsv.MissingNamesField | fleprocess/csv_process_test.go:53-60 | The phrases for the five fields differ at the field name's first letter, so no phrase names two fields. |
| SotaCsv.EntryTag | fleprocess/csv_process_test.go:26-60 | How a message names a record: "for log entry #n" when it has no time, "for log entry at <time> (#n)" when it has. For every record and position, `SotaCsv.EntryTagEndsWithPosition` and `SotaCsv.EntryTagNamesPosition` state its meaning; the tested texts are `SotaCsv.UntimedTag`, `SotaCsv.TimedTagTwo` and `SotaCsv.TimedTagThree`. |
| SotaCsv.ConcatNumbered | fleprocess/csv_process_test.go:26-60 | The record-by-record walk: each record's phrases with its own number, counting on from the first, concatenated in record order; stated by `SotaCsv.ConcatNumberedAppend` and `SotaCsv.PhrasesOfThree`. |
| SotaCsv.Phrases | fleprocess/csv_process_test.go:26-60 | Every missing-field phrase of a log, records numbered 1-based by position; stated by `SotaCsv.NoPhrasesIffEntriesFilled`, `SotaCsv.PhrasesAppend` and `SotaCsv.PhrasesOfThree`. |
| SotaCsv.ConcatNumberedAppend | fleprocess/csv_process_test.go:26-60 | Over two runs of records, the second run is numbered on from where the first stops. |
| SotaCsv.NoPhrasesIffEntriesFilled | fleprocess/csv_process_test.go:17-60 | A log gets no phrase iff every record has its date, band, time, mode and call. |
| SotaCsv.ValidateDataForSotaCsv | fleprocess/csv_process_test.go:8-79 | No message iff every record has date, owner call, owner SOTA reference, band, time, mode and call. |
| SotaCsv.PhrasesAppend | fleprocess/csv_process_test.go:26-60 | The phrases for two runs of records are those of the first, then those of the second numbered on from where the first stops. |
| SotaCsv.PhrasesOfThree | fleprocess/csv_process_test.go:26-60 | For three records, each record's phrases come with its own 1-based number, in record order. |
| SotaCsv.MessageAppend | fleprocess/csv_process_test.go:26-60 | When the owner fields are present, the message for two runs of records is the first run's message, ", ", then the second's with numbering continued. |
| SotaCsv.HappyCase | fleprocess/csv_process_test.go:17-25 | Three complete records give no message. |
| SotaCsv.UntimedTag | fleprocess/csv_process_test.go:56-60 | A record without a time is named by its position only: "for log entry #1". |
| SotaCsv.TimedTagTwo | fleprocess/csv_process_test.go:30-33 | A record with time 12:02 at position 2 is named "for log entry at 12:02 (#2)". |
| SotaCsv.TimedTagThree | fleprocess/csv_process_test.go:31-33 | A record with time 12:03 at position 3 is named "for log entry at 12:03 (#3)". |
| SotaCsv.DateTwoText | fleprocess/csv_process_test.go:30-33 | The missing-date phrase for record 2 is "missing date for log entry at 12:02 (#2)". |
| SotaCsv.DateThreeText | fleprocess/csv_process_test.go:31-33 | The missing-date phrase for record 3 is "missing date for log entry at 12:03 (#3)". |
| SotaCsv.BandOneText | fleprocess/csv_process_test.go:56-60 | The missing-band phrase for record 1 is "missing band for log entry #1". |
| SotaCsv.TimeOneText | fleprocess/csv_process_test.go:56-60 | The missing-time phrase for record 1 is "missing QSO time for log entry #1". |
| SotaCsv.ModeTwoText | fleprocess/csv_process_test.go:57-60 | The missing-mode phrase for record 2 is "missing mode for log entry at 12:02 (#2)". |
| SotaCsv.CallThreeText | fleprocess/csv_process_test.go:58-60 | The missing-call phrase for record 3 is "missing call for log entry at 12:03 (#3)". |
| SotaCsv.DateMissingInLastTwo | fleprocess/csv_process_test.go:26-34 | For any complete record followed by two records that lack only their date, the message is the date phrase of record 2, ", ", then the date phrase of record 3. |
| SotaCsv.MissingDateCase | fleprocess/csv_process_test.go:26-34 | "Missing Date": the message is the two missing-date phrases for records 2 and 3, each tagged by its time, joined by ", ". |
| SotaCsv.MissingMyCallCase | fleprocess/csv_process_test.go:35-43 | "Missing MyCall": the message is exactly "Missing MyCall", with no per-record detail. |
| SotaCsv.MissingMySotaCase | fleprocess/csv_process_test.go:44-52 | "Missing MySota": the message is exactly "Missing MY-SOTA reference". |
| SotaCsv.MiscMissingCase | fleprocess/csv_process_test.go:53-61 | "Misc. missing data": band then QSO time for the untimed record 1, then mode for record 2 and call for record 3 tagged by their times, all joined by ", ". |
| SotaCsv.CsvExportGate | fleprocess/csv_process_test.go:98-107 | The CSV command goes on iff the load logged no error, kept at least one QSO and every record is complete; a load with errors is refused for those errors. |
| SotaCsv.ParseErrorRefusesExport | fleprocess/csv_process_test.go:98-102 | "input file parsing errors": one data line the parser complains about, anywhere in the input, refuses the export for load errors, whatever follows it. |
| SotaCsv.NoQsoRefusesExport | fleprocess/csv_process_test.go:103-107 | "No QSO in loaded file": an input that never hands a line to the parser refuses the export, and an error-free one for having no QSO. |
| SotaCsv.CommentedOutQsoRefused | fleprocess/csv_process_test.go:103-107 | A would-be data line inside a block comment (`{`, `ab`, `}`) keeps no QSO, and the export is refused. |

## Left out

- Reading the file (`os.Open`, `bufio.Scanner`, `log.Fatal`, cmd/load.go:60-79): the model takes the line sequence as input.
- The command-line wiring (cmd/load.go:30-58) and the report printing after the loop (cmd/load.go:269-293): framework glue and output formatting only.
- `ValidateCall`, `ValidateWwff`, `ValidateSota`, `ValidateDate` and `ParseLine`: their bodies are not part of this model. They are arbitrary functions passed to the loader, so nothing here depends on what they accept.
- The body of `validateDataForSotaCsv` is not part of this model. `SotaCsv.ValidateDataForSotaCsv` is built from the five expected outputs in fleprocess/csv_process_test.go and the documented field list. Those outputs fix only some of its behaviour, and the model chooses the rest:
  - the phrase order within a record is date, band, QSO time, mode, call (the tests fix only band before QSO time);
  - the owner-call and owner-SOTA messages are given when any record lacks that field (the tests have all three records lack it), and the owner call is checked first;
  - an empty record sequence gives no message.
- The CSV command's filesystem checks (output path is a directory or already exists, fleprocess/csv_process_test.go:93-97), time interpolation and the CSV writer itself: filesystem I/O and code not part of this model.
- SotaCsv.CsvExportGate: models the order of the command's refusals abstractly, as a function of the load's result; it does not model the command's error texts.
- Directive keywords are followed by exactly one literal space, as the regular expressions `(?i)^keyword ` are written: a tab after the keyword makes the line a data line, and a second space stays at the start of the value.
- `Records.LogLine` has sixteen fields. Eleven of them are set by the loader or read by the
  completeness check: the seven header fields, plus mode, band, time and call. The other five
  (the two reports, the other station's WWFF and SOTA references, and the comment) are filled
  in by the data-line parser and carried forward; `LoadSpec.MergeHeader` is shown to keep them.
  Go's record has further fields, which the loader never touches; since the parser is
  arbitrary, they would only be carried through.
- Strings are sequences of characters. Go's `len` counts bytes, which agrees with the model wherever the loader uses it: every such test only asks whether a string is empty.
- The seven header variables are one `Header` record in `LoadCommand.HeaderBlock` and `LoadCommand.LoadFile`, not seven locals; each directive updates only its own field.
- LoadSpec.Scan: its own contract states only the line count; what it computes is stated by the `LoadProps` and `LoadRuns` lemmas.
