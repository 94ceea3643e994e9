/** The contact record (Go's `LogLine`) and an optional-value wrapper. */
module Records {

  datatype Option<T> = None | Some(value: T)

  /**
   One QSO. The first seven fields are the sticky header values the loader copies in before
   each data line is parsed; the rest is what the data-line parser fills in or carries
   forward from the previous record.
   */
  datatype LogLine = LogLine(
    date: string,
    myCall: string,
    operator: string,
    myWwff: string,
    mySota: string,
    qslMsg: string,
    nickname: string,
    mode: string,
    band: string,
    time: string,
    call: string,
    rstSent: string,
    rstRcvd: string,
    wwff: string,
    sota: string,
    comment: string)

  /** Go's zero value of a `LogLine`: every field empty. */
  const EmptyLogLine := LogLine("", "", "", "", "", "", "", "", "", "", "", "", "", "", "", "")
}
