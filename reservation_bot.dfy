/**
 * reservation_bot.py: the decisions the chat bot takes, with the messaging left
 * out. Access gates, the add-session conversation and its `user_data`, the
 * argument handling of /deletesession, and the line selection of the log dumps.
 */
module ReservationBot {
  import opened Records
  import opened SessionsUtils
  import CheckNewSession

  // `DATETIME, URL_LINK, PROCESS_NEW_SESSION = range(3)`
  const DATETIME := 0
  const URL_LINK := 1
  const PROCESS_NEW_SESSION := 2
  /** `ConversationHandler.END` of the chat library. */
  const END := -1

  const DEFAULT_NLINES_DUMP := 10
  const DATETIME_KEY := "datetime-str"
  const URL_KEY := "url-str"

  /** What a handler gives back to the dispatcher. */
  datatype HandlerResult =
    | Return(state: int)  // a conversation state, or END
    | ReturnNone          // the handler returned nothing
    | Escaped              // an exception escaped the handler

  datatype GateDecision =
    | Run           // the wrapped handler runs
    | Unauthorized  // the caller is not on the list: logged, nothing else
    | NotActivated  // the bot is not activated: the caller is told to /start

  /**
   * `@restricted` (or `@admin`) stacked on `@activated`: the list check runs first, then
   * the activation check, then the handler.
   */
  function Gate(userId: int, allowed: seq<int>, botActivated: bool): (d: GateDecision)
    ensures d == Run <==> userId in allowed && botActivated
    ensures d == Unauthorized <==> userId !in allowed
    ensures d == NotActivated <==> userId in allowed && !botActivated
  {
    if userId !in allowed then Unauthorized
    else if !botActivated then NotActivated
    else Run
  }

  // ---------------------------------------------------------------------------
  // The add-session conversation: the datetime step.
  // ---------------------------------------------------------------------------

  /** addsession_datetime's answer to the check: re-ask on any positive code, else go on to the URL. */
  function DatetimeReply(check: CheckNewSession.CheckOutcome): (r: HandlerResult)
    ensures r == Return(URL_LINK) <==> check == CheckNewSession.Checked(CheckNewSession.Accepted)
    ensures r == Return(DATETIME) <==> check.Checked? && CheckNewSession.Code(check.verdict) > 0
    ensures r == Escaped <==> check.Raised?
  {
    match check
    case Raised(_) => Escaped
    case Checked(v) => if CheckNewSession.Code(v) > 0 then Return(DATETIME) else Return(URL_LINK)
  }

  /**
   * The conversation moves from the datetime step to the URL step exactly when the
   * datetime parses, is not in the past and is at least 300 s from every stored session.
   * An unparseable datetime makes the handler raise as written; the corrected check
   * would have the user re-enter it instead.
   */
  lemma DatetimeStepAdvancesIff(text: string, now: int, stored: seq<Session>, parse: Parser)
    ensures DatetimeReply(CheckNewSession.CheckNewDatetime(text, now, stored, parse)) == Return(URL_LINK) <==>
      && parse(text).Some?
      && now <= parse(text).value
      && forall i :: 0 <= i < |stored| ==> CheckNewSession.FarFrom(parse, stored[i], parse(text).value)
    ensures parse(text).None? ==>
      DatetimeReply(CheckNewSession.CheckNewDatetime(text, now, stored, parse)) == Escaped &&
      DatetimeReply(CheckNewSession.CheckNewDatetimeFixed(text, now, stored, parse)) == Return(DATETIME)
  {
    CheckNewSession.CheckAcceptsIff(text, now, stored, parse);
  }

  // ---------------------------------------------------------------------------
  // /deletesession and /printsessions.
  // ---------------------------------------------------------------------------

  /** `int(s)` as an oracle: `None` is the ValueError. */
  type IntParser = string -> Option<int>

  datatype IndexArgument = MissingArgument | NotAnInteger | Index(n: int)

  /** deletesession's argument handling (lines 296-307). */
  function DeleteArgument(args: seq<string>, parseInt: IntParser): (r: IndexArgument)
    ensures r == MissingArgument <==> |args| == 0
    ensures r == NotAnInteger <==> |args| > 0 && parseInt(args[0]).None?
    ensures r.Index? <==> |args| > 0 && parseInt(args[0]).Some?
    ensures r.Index? ==> r.n == parseInt(args[0]).value
  {
    if |args| == 0 then MissingArgument
    else match parseInt(args[0])
      case None => NotAnInteger
      case Some(n) => Index(n)
  }

  datatype PrintReply = SessionListEmpty | Table(rows: seq<Session>)

  /** printsessions: the pending sessions then the passed ones, shown with their row index. */
  function PrintSessions(pending: seq<Session>, passed: seq<Session>): (r: PrintReply)
    ensures r == SessionListEmpty <==> |pending| == 0 && |passed| == 0
    ensures r.Table? ==> |r.rows| == |pending| + |passed|
    ensures r.Table? ==> forall i :: 0 <= i < |pending| ==> r.rows[i] == pending[i]
    ensures r.Table? ==> forall i :: 0 <= i < |passed| ==> r.rows[|pending| + i] == passed[i]
  {
    if |pending + passed| == 0 then SessionListEmpty else Table(pending + passed)
  }

  /**
   * Of the indices /printsessions shows, delete_session accepts exactly those of the
   * pending rows, and it removes that very row; the passed rows' indices are refused.
   */
  lemma PrintedIndicesDeletable(pending: seq<Session>, passed: seq<Session>, i: int)
    requires PrintSessions(pending, passed).Table?
    requires 0 <= i < |PrintSessions(pending, passed).rows|
    ensures DeleteAt(pending, i).Some? <==> i < |pending|
    ensures i < |pending| ==>
      multiset(DeleteAt(pending, i).value) + multiset{PrintSessions(pending, passed).rows[i]} == multiset(pending)
  {
  }

  // ---------------------------------------------------------------------------
  // /logdumpbot and /logdumpres (the same selection).
  // ---------------------------------------------------------------------------

  datatype DumpReply =
    | CannotOpen           // OSError opening the log
    | BadArgument          // the argument is not an integer
    | NothingAsked(n: int) // a count that is not positive
    | Dump(lines: seq<string>)
    | LogEmpty

  /** `lines[-n:]` for a positive `n`: the last `n` lines, or all of them when there are fewer. */
  function LastLines(lines: seq<string>, n: int): (r: seq<string>)
    requires n > 0
    ensures |r| == (if n < |lines| then n else |lines|)
    ensures r == lines[|lines| - |r|..]
  {
    if n < |lines| then lines[|lines| - n..] else lines
  }

  /** The number of lines asked for: 10 without an argument, else the parsed argument. */
  function RequestedLines(args: seq<string>, parseInt: IntParser): Option<int>
  {
    if |args| == 0 then Some(DEFAULT_NLINES_DUMP) else parseInt(args[0])
  }

  /** logdumpbot / logdumpres once the gate has let the caller through. */
  function LogDump(log: Option<seq<string>>, args: seq<string>, parseInt: IntParser): (r: DumpReply)
    ensures r == CannotOpen <==> log.None?
    ensures r == BadArgument <==> log.Some? && RequestedLines(args, parseInt).None?
    ensures r.NothingAsked? <==> log.Some? && RequestedLines(args, parseInt).Some? && RequestedLines(args, parseInt).value <= 0
    ensures r.NothingAsked? ==> r.n == RequestedLines(args, parseInt).value
    ensures r == LogEmpty <==>
      log.Some? && RequestedLines(args, parseInt).Some? && RequestedLines(args, parseInt).value > 0 && |log.value| == 0
    ensures log.Some? && RequestedLines(args, parseInt).Some? && RequestedLines(args, parseInt).value > 0 && |log.value| > 0 ==>
      && r.Dump?
      && var n := RequestedLines(args, parseInt).value;
         |r.lines| == (if n < |log.value| then n else |log.value|) && r.lines == log.value[|log.value| - |r.lines|..]
  {
    match log
    case None => CannotOpen
    case Some(lines) =>
      match RequestedLines(args, parseInt)
      case None => BadArgument
      case Some(n) =>
        if n <= 0 then NothingAsked(n)
        else
          var dumpLines := LastLines(lines, n);
          if |dumpLines| > 0 then Dump(dumpLines) else LogEmpty
  }

  /** Without an argument, a non-empty log dumps its last ten lines (all of them if fewer). */
  lemma LogDumpDefault(lines: seq<string>, parseInt: IntParser)
    requires |lines| > 0
    ensures LogDump(Some(lines), [], parseInt) == Dump(LastLines(lines, DEFAULT_NLINES_DUMP))
    ensures |lines| >= 10 ==> LogDump(Some(lines), [], parseInt) == Dump(lines[|lines| - 10..])
  {
  }

  // ---------------------------------------------------------------------------
  // The bot's mutable state and its handlers.
  // ---------------------------------------------------------------------------

  datatype DeleteReply =
    | Blocked(gate: GateDecision)
    | NeedsArgument
    | ArgumentNotInteger
    | NoSuchSession        // delete_session returned a positive code
    | SessionRemoved(n: int)

  datatype DeleteAllReply = DeleteAllBlocked(gate: GateDecision) | AllDeleted

  datatype AdminReply = AdminBlocked(gate: GateDecision) | Dumped(reply: DumpReply)

  /** The global `bot_activated`, one user's `context.user_data`, and the two access lists. */
  class Bot {
    var botActivated: bool
    var userData: map<string, string>
    const restrictedUsers: seq<int>
    const restrictedAdmins: seq<int>

    /** Line 17: the bot starts activated. */
    constructor (users: seq<int>, admins: seq<int>)
      ensures botActivated && userData == map[]
      ensures restrictedUsers == users && restrictedAdmins == admins
    {
      botActivated := true;
      userData := map[];
      restrictedUsers := users;
      restrictedAdmins := admins;
    }

    function UserGate(userId: int): GateDecision
      reads this
    {
      Gate(userId, restrictedUsers, botActivated)
    }

    function AdminGate(userId: int): GateDecision
      reads this
    {
      Gate(userId, restrictedAdmins, botActivated)
    }

    /**
     * logdumpbot / logdumpres behind `@admin` and `@activated`: an admin of an activated bot
     * gets the log selection, anyone else is stopped by the gate and nothing is read.
     */
    function LogDumpCommand(userId: int, log: Option<seq<string>>, args: seq<string>, parseInt: IntParser)
      : (r: AdminReply)
      reads this
      ensures r.AdminBlocked? <==> userId !in restrictedAdmins || !botActivated
      ensures r.AdminBlocked? ==> r.gate == (if userId !in restrictedAdmins then Unauthorized else NotActivated)
      ensures r.Dumped? ==> r.reply == LogDump(log, args, parseInt)
    {
      var gate := AdminGate(userId);
      if gate != Run then AdminBlocked(gate) else Dumped(LogDump(log, args, parseInt))
    }

    /** start (behind `@restricted` only): an allowed user activates the bot. */
    method Start(userId: int)
      modifies this
      ensures botActivated == (old(botActivated) || userId in restrictedUsers)
      ensures userData == old(userData)
    {
      if userId !in restrictedUsers {
        return;
      }
      if !botActivated {
        botActivated := true;
      }
    }

    /** addsession, the conversation's entry point: DATETIME when the gate lets the caller in. */
    function AddSession(userId: int): (r: HandlerResult)
      reads this
      ensures r == Return(DATETIME) <==> userId in restrictedUsers && botActivated
      ensures r != Return(DATETIME) ==> r == ReturnNone
    {
      if UserGate(userId) == Run then Return(DATETIME) else ReturnNone
    }

    /** addsession_datetime: keep the datetime in `user_data` once the check accepts it. */
    method AddSessionDatetime(text: string, store: SessionFile, now: int, parse: Parser) returns (r: HandlerResult)
      modifies this
      ensures botActivated == old(botActivated)
      ensures r == DatetimeReply(CheckNewSession.CheckNewDatetime(text, now, store.Sessions(), parse))
      ensures r == Return(URL_LINK) ==> userData == old(userData)[DATETIME_KEY := text]
      ensures r != Return(URL_LINK) ==> userData == old(userData)
    {
      var check := CheckNewSession.CheckNewDatetime(text, now, store.Sessions(), parse);
      r := DatetimeReply(check);
      if r == Return(URL_LINK) {
        userData := userData[DATETIME_KEY := text];
      }
    }

    /**
     * addsession_url_link: re-ask on an invalid URL; otherwise keep it and ask for
     * confirmation, which reads the stored datetime (a KeyError if there is none).
     */
    method AddSessionUrlLink(text: string, urlValid: bool) returns (r: HandlerResult)
      modifies this
      ensures botActivated == old(botActivated)
      ensures !urlValid ==> r == Return(URL_LINK) && userData == old(userData)
      ensures urlValid ==> userData == old(userData)[URL_KEY := text]
      ensures urlValid ==> r == (if DATETIME_KEY in old(userData) then Return(PROCESS_NEW_SESSION) else Escaped)
    {
      if !urlValid {
        return Return(URL_LINK);
      }
      userData := userData[URL_KEY := text];
      if DATETIME_KEY !in userData {
        return Escaped;
      }
      r := Return(PROCESS_NEW_SESSION);
    }

    /**
     * addsession_process: "No" clears `user_data`; "Yes" adds the stored session (and
     * leaves `user_data` as it is); anything else does nothing. Each returns END unless an
     * exception escapes: a missing key, a datetime the sort cannot parse, or a positive
     * error code, whose reply is sent through the button press's absent message.
     */
    method AddSessionProcess(decision: string, store: SessionFile, parse: Parser, serializable: bool, errText: string)
      returns (r: HandlerResult)
      modifies this, store
      ensures botActivated == old(botActivated)
      ensures decision == "No" ==> r == Return(END) && userData == map[] && store.content == old(store.content)
      ensures decision != "No" ==> userData == old(userData)
      ensures decision != "No" && decision != "Yes" ==> r == Return(END) && store.content == old(store.content)
      ensures decision == "Yes" && (DATETIME_KEY !in userData || URL_KEY !in userData) ==>
        r == Escaped && store.content == old(store.content)
      ensures decision == "Yes" && DATETIME_KEY in userData && URL_KEY in userData ==>
        var dt, url := userData[DATETIME_KEY], userData[URL_KEY];
        var parsesAll := AllParse(parse, old(store.Sessions()) + [Session(dt, url, false)]);
        && (!parsesAll ==> r == Escaped && store.content == old(store.content))
        && (parsesAll && serializable ==>
              r == Return(END) && store.content == Json(AddedList(old(store.Sessions()), dt, url, parse)))
        && (parsesAll && !serializable ==> r == Escaped && store.content == NotJson)
    {
      if decision == "No" {
        userData := map[];
        return Return(END);
      } else if decision == "Yes" {
        if DATETIME_KEY !in userData || URL_KEY !in userData {
          return Escaped;
        }
        var added := store.AddNewSession(userData[DATETIME_KEY], userData[URL_KEY], parse, serializable, errText);
        if added.Raised? || added.value.code > 0 {
          return Escaped;
        }
      }
      r := Return(END);
    }

    /** addsession_cancel: forget the half-entered session and end the conversation. */
    method AddSessionCancel() returns (r: HandlerResult)
      modifies this
      ensures r == Return(END) && userData == map[] && botActivated == old(botActivated)
    {
      userData := map[];
      r := Return(END);
    }

    /** addsession_unkown: any other command during the conversation also ends it. */
    method AddSessionUnknown() returns (r: HandlerResult)
      modifies this
      ensures r == Return(END) && userData == map[] && botActivated == old(botActivated)
    {
      userData := map[];
      r := Return(END);
    }

    /** deletesession: gate, argument handling, then delete_session with the parsed index. */
    method DeleteSession(userId: int, args: seq<string>, parseInt: IntParser, store: SessionFile,
                         serializable: bool, errText: string)
      returns (reply: DeleteReply)
      modifies store
      ensures UserGate(userId) != Run ==> reply == Blocked(UserGate(userId)) && store.content == old(store.content)
      ensures UserGate(userId) == Run && DeleteArgument(args, parseInt) == MissingArgument ==>
        reply == NeedsArgument && store.content == old(store.content)
      ensures UserGate(userId) == Run && DeleteArgument(args, parseInt) == NotAnInteger ==>
        reply == ArgumentNotInteger && store.content == old(store.content)
      ensures UserGate(userId) == Run && DeleteArgument(args, parseInt).Index? ==>
        var n := DeleteArgument(args, parseInt).n;
        && (DeleteAt(old(store.Sessions()), n).None? ==> reply == NoSuchSession && store.content == old(store.content))
        && (DeleteAt(old(store.Sessions()), n).Some? && serializable ==>
              reply == SessionRemoved(n) && store.content == Json(DeleteAt(old(store.Sessions()), n).value))
        && (DeleteAt(old(store.Sessions()), n).Some? && !serializable ==>
              reply == NoSuchSession && store.content == NotJson)
    {
      var gate := UserGate(userId);
      if gate != Run {
        return Blocked(gate);
      }
      match DeleteArgument(args, parseInt)
      case MissingArgument =>
        reply := NeedsArgument;
      case NotAnInteger =>
        reply := ArgumentNotInteger;
      case Index(n) =>
        var st := store.DeleteSession(n, serializable, errText);
        reply := if st.code > 0 then NoSuchSession else SessionRemoved(n);
    }

    /** deleteall: truncate the sessions file; the reply is the same whatever delete_all_sessions returned. */
    method DeleteAll(userId: int, store: SessionFile, ioOk: bool, errText: string) returns (reply: DeleteAllReply)
      modifies store
      ensures UserGate(userId) != Run ==> reply == DeleteAllBlocked(UserGate(userId)) && store.content == old(store.content)
      ensures UserGate(userId) == Run ==> reply == AllDeleted
      ensures UserGate(userId) == Run && ioOk ==> store.Sessions() == []
      ensures UserGate(userId) == Run && !ioOk ==> store.content == old(store.content)
    {
      var gate := UserGate(userId);
      if gate != Run {
        return DeleteAllBlocked(gate);
      }
      var _ := store.DeleteAllSessions(ioOk, errText);
      reply := AllDeleted;
    }
  }
}
