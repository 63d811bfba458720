/**
 * Values shared by every part of the reservation model: the session record
 * stored in the JSON session files, and the datetime parser.
 */
module Records {

  datatype Option<+T> = None | Some(value: T)

  /**
   * One stored reservation session: the `datetime`, `url` and `passed` keys of
   * a record in `sessions.lst` / `sessions_passed.lst`.
   */
  datatype Session = Session(dtStr: string, url: string, passed: bool)

  /**
   * `datetime.strptime(s, '%d/%m/%Y %H:%M')` as an abstract partial function:
   * `Some(t)` is the moment in seconds, `None` is the ValueError it raises.
   */
  type Parser = string -> Option<int>

  /** Every session's datetime string parses. */
  predicate AllParse(parse: Parser, s: seq<Session>)
  {
    forall i :: 0 <= i < |s| ==> parse(s[i].dtStr).Some?
  }

  /** The sort key of a session: its parsed datetime (0 stands in where it does not parse). */
  function KeyOf(parse: Parser): Session -> int
  {
    (x: Session) => if parse(x.dtStr).Some? then parse(x.dtStr).value else 0
  }
}
