/**
 * reservation_service.py: one cycle of the service loop. The cycle retires the
 * overdue head of the pending list into the passed archive, trims the archive,
 * writes both files back, and reconciles the single worker handle against the
 * head of the pending list, killing the old worker before spawning a new one.
 */
module ReservationService {
  import opened Records
  import opened SessionsUtils

  /** The configuration keys the cycle reads: `update_delay_t` (seconds) and `max_passed_n`. */
  datatype Config = Config(updateDelay: int, maxPassedN: int)

  // ---------------------------------------------------------------------------
  // Retirement (lines 113-126).
  // ---------------------------------------------------------------------------

  /** A session is overdue when its datetime parses and lies more than `delay` seconds before `now`. */
  predicate Retirable(parse: Parser, now: int, delay: int, s: Session)
  {
    parse(s.dtStr).Some? && now - parse(s.dtStr).value > delay
  }

  /**
   * How many sessions the `for ... break` scan retires: it counts overdue sessions from
   * the front and stops at the first one that is not; `None` is the ValueError of a
   * datetime it reaches that does not parse.
   */
  function RetireCount(s: seq<Session>, now: int, delay: int, parse: Parser): (r: Option<nat>)
    ensures r.Some? ==> r.value <= |s|
  {
    if |s| == 0 then Some(0)
    else match parse(s[0].dtStr)
      case None => None
      case Some(t) =>
        if now - t > delay then
          match RetireCount(s[1..], now, delay, parse)
          case None => None
          case Some(k) => Some(k + 1)
        else Some(0)
  }

  /** The retired sessions, each with `passed` set. */
  function MarkPassed(s: seq<Session>): (r: seq<Session>)
    ensures |r| == |s|
    ensures forall i :: 0 <= i < |s| ==> r[i] == s[i].(passed := true)
  {
    seq(|s|, i requires 0 <= i < |s| => s[i].(passed := true))
  }

  /**
   * The scan retires exactly the longest prefix of overdue sessions: everything before
   * position `k` is overdue, and the session at `k` (if any) parses and is not overdue.
   */
  lemma {:induction false} RetireCountIsLongestPrefix(s: seq<Session>, now: int, delay: int, parse: Parser, k: nat)
    ensures RetireCount(s, now, delay, parse) == Some(k) <==>
      && k <= |s|
      && (forall i :: 0 <= i < k ==> Retirable(parse, now, delay, s[i]))
      && (k < |s| ==> parse(s[k].dtStr).Some? && !Retirable(parse, now, delay, s[k]))
  {
    if |s| > 0 {
      if 0 < k <= |s| {
        RetireCountIsLongestPrefix(s[1..], now, delay, parse, k - 1);
        assert forall i :: 1 <= i < |s| ==> s[1..][i - 1] == s[i];
        if (forall i :: 0 <= i < k ==> Retirable(parse, now, delay, s[i])) {
          assert Retirable(parse, now, delay, s[0]);
        }
      }
    }
  }

  /** The scan raises exactly when it reaches, through overdue sessions only, a datetime that does not parse. */
  lemma {:induction false} RetireCountFaultIff(s: seq<Session>, now: int, delay: int, parse: Parser)
    ensures RetireCount(s, now, delay, parse).None? <==>
      exists k :: 0 <= k < |s| && parse(s[k].dtStr).None? &&
        forall i :: 0 <= i < k ==> Retirable(parse, now, delay, s[i])
  {
    if |s| > 0 {
      RetireCountFaultIff(s[1..], now, delay, parse);
      var tl := s[1..];
      if RetireCount(s, now, delay, parse).None? && parse(s[0].dtStr).Some? {
        var k :| 0 <= k < |tl| && parse(tl[k].dtStr).None? && forall i :: 0 <= i < k ==> Retirable(parse, now, delay, tl[i]);
        assert s[k + 1] == tl[k];
        assert forall i :: 0 <= i < k + 1 ==> Retirable(parse, now, delay, s[i]) by {
          forall i | 0 <= i < k + 1 ensures Retirable(parse, now, delay, s[i]) {
            if i > 0 { assert s[i] == tl[i - 1]; }
          }
        }
      }
      if RetireCount(s, now, delay, parse).Some? {
        forall k | 0 <= k < |s| && parse(s[k].dtStr).None?
          ensures exists i :: 0 <= i < k && !Retirable(parse, now, delay, s[i])
        {
          assert k != 0;
          if Retirable(parse, now, delay, s[0]) {
            assert tl[k - 1] == s[k];
            if forall i :: 0 <= i < k - 1 ==> Retirable(parse, now, delay, tl[i]) {
              assert false;
            }
            var i :| 0 <= i < k - 1 && !Retirable(parse, now, delay, tl[i]);
            assert s[i + 1] == tl[i];
          }
        }
      }
    }
  }

  /**
   * Retirement stops at the first session that is not overdue: the retired count `k` never
   * passes it, so it stays in `s[k..]`, the list `Step` writes back as pending, and every
   * later session, overdue or not, stays there with it.
   */
  lemma KeptAfterFirstNonRetirable(s: seq<Session>, now: int, delay: int, parse: Parser, i: nat)
    requires RetireCount(s, now, delay, parse).Some?
    requires i < |s| && !Retirable(parse, now, delay, s[i])
    ensures var k := RetireCount(s, now, delay, parse).value;
      k <= i && s[i] in s[k..]
  {
    var k := RetireCount(s, now, delay, parse).value;
    RetireCountIsLongestPrefix(s, now, delay, parse, k);
  }

  /**
   * The retirement loop of lines 115-123: walk the pending list, mark each overdue session
   * passed and append it to the archive, break at the first one that is not overdue.
   * `ok` is false when `strptime` raised on a datetime the walk reached.
   */
  method RetireOverdue(sessions: seq<Session>, archive: seq<Session>, now: int, delay: int, parse: Parser)
    returns (ok: bool, sessionsPassed: nat, passedList: seq<Session>)
    ensures ok <==> RetireCount(sessions, now, delay, parse).Some?
    ensures ok ==> sessionsPassed == RetireCount(sessions, now, delay, parse).value
    ensures ok ==> sessionsPassed <= |sessions|
    ensures ok ==> passedList == archive + MarkPassed(sessions[..sessionsPassed])
  {
    sessionsPassed := 0;
    passedList := archive;
    var i := 0;
    while i < |sessions|
      invariant 0 <= i <= |sessions|
      invariant sessionsPassed == i
      invariant forall j :: 0 <= j < i ==> Retirable(parse, now, delay, sessions[j])
      invariant passedList == archive + MarkPassed(sessions[..i])
    {
      var session := sessions[i];
      var parsed := parse(session.dtStr);
      if parsed.None? {
        RetireCountFaultIff(sessions, now, delay, parse);
        return false, sessionsPassed, passedList;
      }
      if now - parsed.value > delay {
        assert MarkPassed(sessions[..i + 1]) == MarkPassed(sessions[..i]) + [session.(passed := true)];
        passedList := passedList + [session.(passed := true)];
        sessionsPassed := sessionsPassed + 1;
        i := i + 1;
      } else {
        break;
      }
    }
    RetireCountIsLongestPrefix(sessions, now, delay, parse, i);
    ok := true;
  }

  // ---------------------------------------------------------------------------
  // Archive trimming (lines 128-129).
  // ---------------------------------------------------------------------------

  /** The index Python's `l[:stop]` resolves `stop` to, for a list of length `n`. */
  function SliceStop(n: nat, stop: int): (r: nat)
    ensures r <= n
  {
    if stop < 0 then (if n + stop < 0 then 0 else n + stop)
    else if stop > n then n else stop
  }

  /**
   * `if len(l) > max_passed_n: l = l[:-max_passed_n]` as written: the result is always a
   * prefix (the oldest entries); a list within the cap is kept; a cap of 0 empties it; a
   * positive cap keeps `len - cap` entries, a negative one the first `-cap`.
   */
  function TrimArchive(a: seq<Session>, maxN: int): (r: seq<Session>)
    ensures r <= a
    ensures |a| <= maxN ==> r == a
    ensures maxN == 0 ==> r == []
    ensures 0 < maxN < |a| ==> |r| == |a| - maxN
    ensures maxN < 0 ==> |r| == (if |a| < -maxN then |a| else -maxN)
  {
    if |a| > maxN then a[..SliceStop(|a|, -maxN)] else a
  }

  /**
   * The archive cap as evidently intended (`l[-max_passed_n:]` for a positive cap): keep
   * the newest `max_passed_n` entries, none for a cap that is not positive.
   */
  function TrimArchiveNewest(a: seq<Session>, maxN: int): (r: seq<Session>)
    ensures |r| == (if maxN <= 0 then 0 else if |a| < maxN then |a| else maxN)
    ensures r == a[|a| - |r|..]
  {
    if |a| > maxN then (if maxN <= 0 then [] else a[|a| - maxN..]) else a
  }

  /**
   * As written, retiring `cap + extra` sessions into an empty archive keeps the `extra`
   * OLDEST ones; with a cap of 3 and five retired sessions, the first two survive and the
   * three most recent are dropped.
   */
  lemma TrimKeepsOldest(retired: seq<Session>, cap: nat, extra: nat)
    requires 0 < cap && 0 < extra && |retired| == cap + extra
    ensures TrimArchive(retired, cap) == retired[..extra]
  {
  }

  /** A concrete archive on which the written trim drops the newest entries. */
  lemma TrimDropsNewestExample(s1: Session, s2: Session, s3: Session, s4: Session, s5: Session)
    ensures TrimArchive([s1, s2, s3, s4, s5], 3) == [s1, s2]
    ensures TrimArchiveNewest([s1, s2, s3, s4, s5], 3) == [s3, s4, s5]
  {
    assert [s1, s2, s3, s4, s5][..2] == [s1, s2];
    assert [s1, s2, s3, s4, s5][2..] == [s3, s4, s5];
  }

  /** As intended, after `cap + extra` retirements the archive holds exactly the `cap` most recent. */
  lemma TrimNewestKeepsMostRecent(old_: seq<Session>, retired: seq<Session>, cap: nat)
    requires 0 < cap <= |retired|
    ensures TrimArchiveNewest(old_ + retired, cap) == retired[|retired| - cap..]
  {
    var a := old_ + retired;
    assert a[|a| - cap..] == retired[|retired| - cap..];
  }

  // ---------------------------------------------------------------------------
  // reservation_kill (lines 200-240) as a decision over observed liveness.
  // ---------------------------------------------------------------------------

  /** The signals and spawns the service issues, in order. */
  datatype Event =
    | Terminate(pid: int)                          // `proc.terminate()`: SIGTERM
    | Probe(pid: int)                              // `os.kill(pid, 0)`: is it still there?
    | SigKill(pid: int)                            // `os.kill(pid, signal.SIGKILL)`
    | Spawn(dtStr: string, url: string, pid: int)  // `reservation_call(...)`

  /**
   * What the operating system answers during one kill: whether the probe after
   * `terminate()` still finds the process, and whether SIGKILL raises OSError.
   */
  datatype KillObservation = KillObservation(aliveAfterTerminate: bool, sigKillRaises: bool)

  datatype KillOutcome =
    | NothingToKill     // proc is None
    | Terminated        // gone after terminate(), no SIGKILL
    | ForceKilled       // SIGKILL sent without error
    | FatalExit         // SIGKILL raised: sys.exit ends the service

  datatype KillResult = KillResult(events: seq<Event>, outcome: KillOutcome)

  /**
   * reservation_kill: nothing for no process; otherwise terminate, probe once and, if the
   * process is still there, SIGKILL at once (there is no grace wait); a failing SIGKILL is fatal.
   */
  function ReservationKill(proc: Option<int>, obs: KillObservation): (r: KillResult)
    ensures proc.None? <==> r.outcome == NothingToKill
    ensures proc.None? ==> r.events == []
    ensures proc.Some? ==> |r.events| >= 2 && r.events[..2] == [Terminate(proc.value), Probe(proc.value)]
    ensures proc.Some? && !obs.aliveAfterTerminate ==> r == KillResult([Terminate(proc.value), Probe(proc.value)], Terminated)
    ensures proc.Some? && obs.aliveAfterTerminate ==>
      r.events == [Terminate(proc.value), Probe(proc.value), SigKill(proc.value)] &&
      r.outcome == (if obs.sigKillRaises then FatalExit else ForceKilled)
    ensures forall e :: e in r.events ==> !e.Spawn? && e.pid == proc.value
  {
    match proc
    case None => KillResult([], NothingToKill)
    case Some(pid) =>
      if !obs.aliveAfterTerminate then KillResult([Terminate(pid), Probe(pid)], Terminated)
      else if obs.sigKillRaises then KillResult([Terminate(pid), Probe(pid), SigKill(pid)], FatalExit)
      else KillResult([Terminate(pid), Probe(pid), SigKill(pid)], ForceKilled)
  }

  /** Killing a process that is already gone ends the same way every time, without SIGKILL. */
  lemma KillOfDeadProcessIdempotent(pid: int, obs1: KillObservation, obs2: KillObservation)
    requires !obs1.aliveAfterTerminate && !obs2.aliveAfterTerminate
    ensures ReservationKill(Some(pid), obs1) == ReservationKill(Some(pid), obs2)
    ensures ReservationKill(Some(pid), obs1).outcome == Terminated
    ensures SigKill(pid) !in ReservationKill(Some(pid), obs1).events
  {
  }

  // ---------------------------------------------------------------------------
  // Reconciliation of the worker handle (lines 134-175).
  // ---------------------------------------------------------------------------

  /** The loop's record of its worker: `cur_datetime_str`, `cur_url_str`, `proc`. */
  datatype Handle = Handle(dtStr: string, url: string, proc: Option<int>)

  const NoHandle := Handle("", "", None)

  /** The handle's single-slot invariant: a worker is recorded exactly when a datetime is. */
  predicate HandleValid(h: Handle)
  {
    h.proc.None? <==> h.dtStr == ""
  }

  /** The handle already targets the session: both strings equal, compared raw. */
  predicate SameTarget(h: Handle, s: Session)
  {
    h.dtStr == s.dtStr && h.url == s.url
  }

  datatype Reconciled = Reconciled(handle: Handle, events: seq<Event>, exited: bool)

  /** The reconciliation step on the new pending list; `newPid` is what the spawn returns. */
  function Reconcile(h: Handle, pending: seq<Session>, obs: KillObservation, newPid: int): (r: Reconciled)
    ensures r.exited ==> r.handle == h && h.proc.Some? && ReservationKill(h.proc, obs).outcome == FatalExit
    ensures !r.exited && |pending| == 0 ==> r.handle.proc.None?
    ensures !r.exited && |pending| > 0 ==> SameTarget(r.handle, pending[0])
  {
    if |pending| == 0 then
      if h.proc.None? then Reconciled(h, [], false)
      else
        var k := ReservationKill(h.proc, obs);
        if k.outcome == FatalExit then Reconciled(h, k.events, true)
        else Reconciled(NoHandle, k.events, false)
    else if SameTarget(h, pending[0]) then Reconciled(h, [], false)
    else
      var k := ReservationKill(h.proc, obs);
      if k.outcome == FatalExit then Reconciled(h, k.events, true)
      else Reconciled(Handle(pending[0].dtStr, pending[0].url, Some(newPid)),
                      k.events + [Spawn(pending[0].dtStr, pending[0].url, newPid)], false)
  }

  /** The number of spawns in a trace. */
  function Spawns(events: seq<Event>): nat
  {
    if |events| == 0 then 0 else (if events[0].Spawn? then 1 else 0) + Spawns(events[1..])
  }

  lemma {:induction false} SpawnsAppend(a: seq<Event>, b: seq<Event>)
    ensures Spawns(a + b) == Spawns(a) + Spawns(b)
  {
    if |a| == 0 {
      assert a + b == b;
    } else {
      assert (a + b)[1..] == a[1..] + b;
      SpawnsAppend(a[1..], b);
    }
  }

  lemma {:induction false} NoSpawns(events: seq<Event>)
    requires forall e :: e in events ==> !e.Spawn?
    ensures Spawns(events) == 0
  {
    if |events| > 0 {
      assert events[0] in events;
      assert forall e :: e in events[1..] ==> e in events;
      NoSpawns(events[1..]);
    }
  }

  /**
   * An empty pending list with a live worker issues one kill and clears the handle (unless
   * the kill is fatal); with no worker nothing happens. Nothing is ever spawned.
   */
  lemma ReconcileEmpty(h: Handle, obs: KillObservation, newPid: int)
    ensures var r := Reconcile(h, [], obs, newPid);
      && (h.proc.None? ==> r == Reconciled(h, [], false))
      && (h.proc.Some? ==> r.events == ReservationKill(h.proc, obs).events && r.events[0] == Terminate(h.proc.value))
      && (h.proc.Some? && !r.exited ==> r.handle == NoHandle)
      && Spawns(r.events) == 0
  {
    NoSpawns(ReservationKill(h.proc, obs).events);
  }

  /** When the handle already targets the head on both fields, no kill and no spawn happen. */
  lemma ReconcileSameTarget(h: Handle, pending: seq<Session>, obs: KillObservation, newPid: int)
    requires |pending| > 0 && SameTarget(h, pending[0])
    ensures Reconcile(h, pending, obs, newPid) == Reconciled(h, [], false)
  {
  }

  /**
   * When either field differs, the existing worker (if any) is killed first and then exactly
   * one worker is spawned for the head, the last event of the cycle; the handle records it.
   * A fatal kill ends the service before any spawn.
   */
  lemma ReconcileReplace(h: Handle, pending: seq<Session>, obs: KillObservation, newPid: int)
    requires |pending| > 0 && !SameTarget(h, pending[0])
    ensures var r := Reconcile(h, pending, obs, newPid);
      && (r.exited <==> ReservationKill(h.proc, obs).outcome == FatalExit)
      && (r.exited ==> Spawns(r.events) == 0 && r.handle == h)
      && (!r.exited ==>
            && Spawns(r.events) == 1
            && r.events[|r.events| - 1] == Spawn(pending[0].dtStr, pending[0].url, newPid)
            && r.handle == Handle(pending[0].dtStr, pending[0].url, Some(newPid)))
      && (h.proc.Some? ==> r.events[0] == Terminate(h.proc.value))
      && (h.proc.None? ==> r.events == [Spawn(pending[0].dtStr, pending[0].url, newPid)])
      && (forall i :: 0 <= i < |r.events| - 1 ==> !r.events[i].Spawn? && r.events[i].pid == h.proc.value)
  {
    var k := ReservationKill(h.proc, obs);
    NoSpawns(k.events);
    var sp := Spawn(pending[0].dtStr, pending[0].url, newPid);
    SpawnsAppend(k.events, [sp]);
    assert Spawns([sp]) == 1 by { assert [sp][1..] == []; }
    var r := Reconcile(h, pending, obs, newPid);
    forall i | 0 <= i < |r.events| - 1
      ensures !r.events[i].Spawn? && r.events[i].pid == h.proc.value
    {
      assert r.events[i] in k.events;
    }
  }

  /**
   * Reconciliation keeps the single-slot invariant, given that the head's datetime is not
   * the empty string (it parsed in the retirement scan, and `strptime` rejects "").
   */
  lemma ReconcileKeepsHandleValid(h: Handle, pending: seq<Session>, obs: KillObservation, newPid: int)
    requires HandleValid(h)
    requires |pending| > 0 ==> pending[0].dtStr != ""
    ensures HandleValid(Reconcile(h, pending, obs, newPid).handle)
  {
  }

  // ---------------------------------------------------------------------------
  // The service.
  // ---------------------------------------------------------------------------

  datatype StepEnd =
    | Continue      // the loop goes on to its sleep
    | ParseFault    // strptime raised in the retirement scan: the service dies
    | ServiceExit   // a SIGKILL failed: sys.exit ends the service

  /** The state reservation_service keeps across cycles, and the trace of what it did. */
  class Service {
    var curDatetimeStr: string
    var curUrlStr: string
    var proc: Option<int>
    var trace: seq<Event>

    ghost predicate Valid()
      reads this
    {
      HandleValid(CurrentHandle())
    }

    function CurrentHandle(): Handle
      reads this
    {
      Handle(curDatetimeStr, curUrlStr, proc)
    }

    /** Lines 92-94: no worker yet. */
    constructor ()
      ensures Valid()
      ensures CurrentHandle() == NoHandle && trace == []
    {
      curDatetimeStr := "";
      curUrlStr := "";
      proc := None;
      trace := [];
    }

    /**
     * One pass of the `while True` loop (lines 109-175, the sleep aside). `now` is the
     * clock, `obs` what a kill would observe, `newPid` the identity a spawn would return.
     */
    method Step(pendingFile: SessionFile, passedFile: SessionFile, cfg: Config, now: int,
                parse: Parser, obs: KillObservation, newPid: int)
      returns (end: StepEnd)
      requires Valid()
      requires parse("") == None
      requires pendingFile != passedFile
      modifies this, pendingFile, passedFile
      ensures Valid()
      ensures RetireCount(old(pendingFile.Sessions()), now, cfg.updateDelay, parse).None? ==>
        && end == ParseFault
        && pendingFile.content == old(pendingFile.content)
        && passedFile.content == old(passedFile.content)
        && CurrentHandle() == old(CurrentHandle()) && trace == old(trace)
      ensures RetireCount(old(pendingFile.Sessions()), now, cfg.updateDelay, parse).Some? ==>
        var k := RetireCount(old(pendingFile.Sessions()), now, cfg.updateDelay, parse).value;
        var pending := old(pendingFile.Sessions())[k..];
        var r := Reconcile(old(CurrentHandle()), pending, obs, newPid);
        && pendingFile.content == Json(pending)
        && passedFile.content ==
             Json(TrimArchive(old(passedFile.Sessions()) + MarkPassed(old(pendingFile.Sessions())[..k]), cfg.maxPassedN))
        && CurrentHandle() == r.handle
        && trace == old(trace) + r.events
        && end == (if r.exited then ServiceExit else Continue)
    {
      // 1. read both lists and retire the overdue head of the pending one
      var sessionsList := pendingFile.GetSessionsList();
      var sessionsPassedList := passedFile.GetSessionsList();
      var ok, sessionsPassed, passedList := RetireOverdue(sessionsList, sessionsPassedList, now, cfg.updateDelay, parse);
      if !ok {
        return ParseFault;
      }
      RetireCountIsLongestPrefix(sessionsList, now, cfg.updateDelay, parse, sessionsPassed);
      sessionsList := sessionsList[sessionsPassed..];
      sessionsPassedList := TrimArchive(passedList, cfg.maxPassedN);
      var _ := pendingFile.PutSessionsList(sessionsList, true, "");
      var _ := passedFile.PutSessionsList(sessionsPassedList, true, "");
      ReconcileKeepsHandleValid(CurrentHandle(), sessionsList, obs, newPid);

      // 2. reconcile the worker with the head of the pending list
      var exited := ReconcileWorker(sessionsList, obs, newPid);
      end := if exited then ServiceExit else Continue;
    }

    /** Lines 135-175: bring the worker in line with the head of the (new) pending list. */
    method ReconcileWorker(sessionsList: seq<Session>, obs: KillObservation, newPid: int) returns (exited: bool)
      modifies this
      ensures var r := Reconcile(old(CurrentHandle()), sessionsList, obs, newPid);
        CurrentHandle() == r.handle && trace == old(trace) + r.events && exited == r.exited
    {
      exited := false;
      if |sessionsList| == 0 {
        if proc.Some? {
          var kill := ReservationKill(proc, obs);
          trace := trace + kill.events;
          if kill.outcome == FatalExit {
            return true;
          }
          curDatetimeStr, curUrlStr, proc := "", "", None;
        }
      } else {
        var nextDatetimeStr := sessionsList[0].dtStr;
        var nextUrlStr := sessionsList[0].url;
        if curDatetimeStr != nextDatetimeStr || curUrlStr != nextUrlStr {
          if proc.Some? {
            var kill := ReservationKill(proc, obs);
            trace := trace + kill.events;
            if kill.outcome == FatalExit {
              return true;
            }
            curDatetimeStr, curUrlStr, proc := "", "", None;
          }
          trace := trace + [Spawn(nextDatetimeStr, nextUrlStr, newPid)];
          proc := Some(newPid);
          curDatetimeStr := nextDatetimeStr;
          curUrlStr := nextUrlStr;
        }
      }
    }
  }
}
