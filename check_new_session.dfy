/**
 * check_new_session.py: validation of the datetime a user proposes for a new
 * session. Three checks in order: the string parses, the moment is not in
 * the past, and it lies at least 300 seconds from every stored session.
 */
module CheckNewSession {
  import opened Records

  // `CHECK_SESS_CORRECT, CHECK_SESS_DATE_ERR_BAD_FORMAT, CHECK_SESS_ERR_DATE_PASSED,
  //  CHECK_SESS_ERR_DATE_DELAY = range(4)`
  const CHECK_SESS_CORRECT := 0
  const CHECK_SESS_DATE_ERR_BAD_FORMAT := 1
  const CHECK_SESS_ERR_DATE_PASSED := 2
  const CHECK_SESS_ERR_DATE_DELAY := 3

  /** Two sessions must lie at least this many seconds apart. */
  const MIN_DELAY_TIME_SEC := 300

  /** The verdicts check_new_datetime can return; `TooClose` names the stored datetime it clashed with. */
  datatype Verdict = Accepted | BadFormat | DatePassed | TooClose(existing: string)

  /** The exceptions that can escape the check instead of a returned verdict. */
  datatype Fault =
    | NameError   // the format-error branch names an undefined constant
    | ValueError  // a stored session's datetime does not parse

  datatype CheckOutcome = Checked(verdict: Verdict) | Raised(fault: Fault)

  /** The error code returned with each verdict. */
  function Code(v: Verdict): (c: int)
    ensures c == CHECK_SESS_CORRECT <==> v == Accepted
    ensures v != Accepted ==> c > 0
  {
    match v
    case Accepted => CHECK_SESS_CORRECT
    case BadFormat => CHECK_SESS_DATE_ERR_BAD_FORMAT
    case DatePassed => CHECK_SESS_ERR_DATE_PASSED
    case TooClose(_) => CHECK_SESS_ERR_DATE_DELAY
  }

  function Abs(x: int): int { if x < 0 then -x else x }

  /** A stored session parses and lies at least MIN_DELAY_TIME_SEC seconds from `t`. */
  predicate FarFrom(parse: Parser, s: Session, t: int)
  {
    parse(s.dtStr).Some? && Abs(parse(s.dtStr).value - t) >= MIN_DELAY_TIME_SEC
  }

  /** A stored session parses and lies less than MIN_DELAY_TIME_SEC seconds from `t`. */
  predicate CloseTo(parse: Parser, s: Session, t: int)
  {
    parse(s.dtStr).Some? && Abs(parse(s.dtStr).value - t) < MIN_DELAY_TIME_SEC
  }

  /** The `for session in sessions_list` scan: the first clash in list order ends it. */
  function ScanStored(stored: seq<Session>, t: int, parse: Parser): (r: CheckOutcome)
    ensures r.Checked? ==> r.verdict == Accepted || r.verdict.TooClose?
    ensures r.Raised? ==> r.fault == ValueError
  {
    if |stored| == 0 then Checked(Accepted)
    else match parse(stored[0].dtStr)
      case None => Raised(ValueError)
      case Some(st) =>
        if Abs(st - t) < MIN_DELAY_TIME_SEC then Checked(TooClose(stored[0].dtStr))
        else ScanStored(stored[1..], t, parse)
  }

  /**
   * check_new_datetime as written: an unparseable string reaches the format-error
   * branch, which raises NameError; a moment before `now` is refused before the store
   * is read; then the stored sessions are scanned.
   */
  function CheckNewDatetime(dtStr: string, now: int, stored: seq<Session>, parse: Parser): (r: CheckOutcome)
    ensures r == Raised(NameError) <==> parse(dtStr).None?
    ensures r.Checked? ==> r.verdict != BadFormat
  {
    match parse(dtStr)
    case None => Raised(NameError)
    case Some(t) => if t < now then Checked(DatePassed) else ScanStored(stored, t, parse)
  }

  /** check_new_datetime as evidently intended: the format-error branch returns code 1. */
  function CheckNewDatetimeFixed(dtStr: string, now: int, stored: seq<Session>, parse: Parser): (r: CheckOutcome)
    ensures r == Checked(BadFormat) <==> parse(dtStr).None?
    ensures r != Raised(NameError)
  {
    match parse(dtStr)
    case None => Checked(BadFormat)
    case Some(t) => if t < now then Checked(DatePassed) else ScanStored(stored, t, parse)
  }

  // ---------------------------------------------------------------------------
  // The scan.
  // ---------------------------------------------------------------------------

  /** The scan accepts exactly when every stored session parses and is far enough from `t`. */
  lemma {:induction false} ScanAcceptsIff(stored: seq<Session>, t: int, parse: Parser)
    ensures ScanStored(stored, t, parse) == Checked(Accepted) <==>
      forall i :: 0 <= i < |stored| ==> FarFrom(parse, stored[i], t)
  {
    if |stored| > 0 {
      ScanAcceptsIff(stored[1..], t, parse);
      if FarFrom(parse, stored[0], t) {
        assert forall i :: 1 <= i < |stored| ==> stored[1..][i - 1] == stored[i];
      }
    }
  }

  /**
   * The scan reports a clash with `x` exactly when `x` is the datetime of the first
   * stored session that is too close, every session before it parsing and being far enough.
   */
  lemma {:induction false} ScanReportsFirstClash(stored: seq<Session>, t: int, parse: Parser, x: string)
    ensures ScanStored(stored, t, parse) == Checked(TooClose(x)) <==>
      exists k :: 0 <= k < |stored| && CloseTo(parse, stored[k], t) && stored[k].dtStr == x &&
        forall j :: 0 <= j < k ==> FarFrom(parse, stored[j], t)
  {
    if |stored| > 0 {
      ScanReportsFirstClash(stored[1..], t, parse, x);
      var tl := stored[1..];
      if CloseTo(parse, stored[0], t) {
        if ScanStored(stored, t, parse) == Checked(TooClose(x)) {
          assert CloseTo(parse, stored[0], t) && stored[0].dtStr == x;
        } else {
          forall k | 0 <= k < |stored| && CloseTo(parse, stored[k], t) && stored[k].dtStr == x
            ensures exists j :: 0 <= j < k && !FarFrom(parse, stored[j], t)
          {
            assert k != 0;
            assert !FarFrom(parse, stored[0], t);
          }
        }
      } else if FarFrom(parse, stored[0], t) {
        if ScanStored(stored, t, parse) == Checked(TooClose(x)) {
          var k :| 0 <= k < |tl| && CloseTo(parse, tl[k], t) && tl[k].dtStr == x &&
            forall j :: 0 <= j < k ==> FarFrom(parse, tl[j], t);
          assert stored[k + 1] == tl[k];
          assert forall j :: 0 <= j < k + 1 ==> FarFrom(parse, stored[j], t) by {
            forall j | 0 <= j < k + 1 ensures FarFrom(parse, stored[j], t) {
              if j > 0 { assert stored[j] == tl[j - 1]; }
            }
          }
        } else {
          forall k | 0 <= k < |stored| && CloseTo(parse, stored[k], t) && stored[k].dtStr == x
            ensures exists j :: 0 <= j < k && !FarFrom(parse, stored[j], t)
          {
            assert k != 0;
            assert tl[k - 1] == stored[k];
            if forall j :: 0 <= j < k - 1 ==> FarFrom(parse, tl[j], t) {
              assert false;
            }
            var j :| 0 <= j < k - 1 && !FarFrom(parse, tl[j], t);
            assert stored[j + 1] == tl[j];
          }
        }
      } else {
        assert parse(stored[0].dtStr).None?;
        forall k | 0 <= k < |stored| && CloseTo(parse, stored[k], t) && stored[k].dtStr == x
          ensures exists j :: 0 <= j < k && !FarFrom(parse, stored[j], t)
        {
          assert k != 0;
          assert !FarFrom(parse, stored[0], t);
        }
      }
    }
  }

  /** The scan's only other outcome is the ValueError of a stored datetime that does not parse. */
  lemma {:induction false} ScanOutcomes(stored: seq<Session>, t: int, parse: Parser)
    ensures var r := ScanStored(stored, t, parse);
      r == Checked(Accepted) || (r.Checked? && r.verdict.TooClose?) || r == Raised(ValueError)
    ensures ScanStored(stored, t, parse) == Raised(ValueError) ==> !AllParse(parse, stored)
  {
    if |stored| > 0 {
      ScanOutcomes(stored[1..], t, parse);
      if ScanStored(stored, t, parse) == Raised(ValueError) && parse(stored[0].dtStr).Some? {
        assert !AllParse(parse, stored[1..]);
        var i :| 0 <= i < |stored[1..]| && parse(stored[1..][i].dtStr).None?;
        assert stored[i + 1] == stored[1..][i];
      }
    }
  }

  // ---------------------------------------------------------------------------
  // The whole check.
  // ---------------------------------------------------------------------------

  /** A moment before `now` is refused with code 2 whatever the store holds: it is not read. */
  lemma PastDateIgnoresStore(dtStr: string, now: int, stored: seq<Session>, other: seq<Session>, parse: Parser)
    requires parse(dtStr).Some? && parse(dtStr).value < now
    ensures CheckNewDatetime(dtStr, now, stored, parse) == Checked(DatePassed)
    ensures CheckNewDatetime(dtStr, now, stored, parse) == CheckNewDatetime(dtStr, now, other, parse)
    ensures Code(CheckNewDatetime(dtStr, now, stored, parse).verdict) == CHECK_SESS_ERR_DATE_PASSED
  {
  }

  /**
   * The check returns code 0 exactly when the string parses, the moment is not
   * before `now` (equal passes), and every stored session is at least 300 s away.
   */
  lemma CheckAcceptsIff(dtStr: string, now: int, stored: seq<Session>, parse: Parser)
    ensures CheckNewDatetime(dtStr, now, stored, parse) == Checked(Accepted) <==>
      && parse(dtStr).Some?
      && now <= parse(dtStr).value
      && forall i :: 0 <= i < |stored| ==> FarFrom(parse, stored[i], parse(dtStr).value)
  {
    if parse(dtStr).Some? {
      ScanAcceptsIff(stored, parse(dtStr).value, parse);
    }
  }

  /**
   * The checks run in the order format, past, proximity, so at most one verdict comes
   * back, and every verdict other than acceptance carries a positive code.
   */
  lemma CheckOutcomes(dtStr: string, now: int, stored: seq<Session>, parse: Parser)
    ensures var r := CheckNewDatetime(dtStr, now, stored, parse);
      && (r == Raised(NameError) <==> parse(dtStr).None?)
      && (r == Checked(DatePassed) <==> parse(dtStr).Some? && parse(dtStr).value < now)
      && (r.Checked? && r.verdict.TooClose? ==> parse(dtStr).Some? && now <= parse(dtStr).value)
      && (r == Raised(ValueError) ==> parse(dtStr).Some? && now <= parse(dtStr).value && !AllParse(parse, stored))
      && (r.Checked? ==> r.verdict != BadFormat && (Code(r.verdict) == 0 || Code(r.verdict) in {2, 3}))
  {
    if parse(dtStr).Some? {
      ScanOutcomes(stored, parse(dtStr).value, parse);
    }
  }

  /** A too-close verdict names the first stored session, in list order, that clashes. */
  lemma CheckReportsFirstClash(dtStr: string, now: int, stored: seq<Session>, parse: Parser, x: string)
    requires parse(dtStr).Some? && now <= parse(dtStr).value
    ensures CheckNewDatetime(dtStr, now, stored, parse) == Checked(TooClose(x)) <==>
      exists k :: 0 <= k < |stored| && CloseTo(parse, stored[k], parse(dtStr).value) && stored[k].dtStr == x &&
        forall j :: 0 <= j < k ==> FarFrom(parse, stored[j], parse(dtStr).value)
  {
    ScanReportsFirstClash(stored, parse(dtStr).value, parse, x);
  }

  /** As written, an unparseable string does not produce code 1: the check raises NameError. */
  lemma UnparseableDateFaults(dtStr: string, now: int, stored: seq<Session>, parse: Parser)
    requires parse(dtStr).None?
    ensures CheckNewDatetime(dtStr, now, stored, parse) == Raised(NameError)
    ensures forall v :: CheckNewDatetime(dtStr, now, stored, parse) != Checked(v)
  {
  }

  /**
   * As intended, an unparseable string is reported with code 1; otherwise the fixed check
   * agrees with the written one, so it never raises NameError and every error code is positive.
   */
  lemma FixedCheckReportsBadFormat(dtStr: string, now: int, stored: seq<Session>, parse: Parser)
    ensures parse(dtStr).None? ==>
      CheckNewDatetimeFixed(dtStr, now, stored, parse) == Checked(BadFormat) &&
      Code(BadFormat) == CHECK_SESS_DATE_ERR_BAD_FORMAT
    ensures parse(dtStr).Some? ==>
      CheckNewDatetimeFixed(dtStr, now, stored, parse) == CheckNewDatetime(dtStr, now, stored, parse)
    ensures CheckNewDatetimeFixed(dtStr, now, stored, parse) != Raised(NameError)
    ensures var r := CheckNewDatetimeFixed(dtStr, now, stored, parse);
      r.Checked? ==> (Code(r.verdict) == 0 <==> r.verdict == Accepted)
  {
    if parse(dtStr).Some? {
      ScanOutcomes(stored, parse(dtStr).value, parse);
    }
  }
}
