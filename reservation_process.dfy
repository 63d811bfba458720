/**
 * reservation_process.py: the worker. It sleeps until shortly before the
 * registration opens, polls the clock until the opening moment, then reloads
 * the page and tries the reserve button up to `page_reload_n` times, stopping
 * at the first successful click.
 */
module ReservationProcess {

  /** The configuration keys the worker reads: `page_reload_n`, `browser_delay_t`, `reload_delay_t`. */
  datatype WorkerConfig = WorkerConfig(pageReload: int, browserDelay: int, reloadDelay: int)

  /** What one attempt (page load, find the button, click) ends with. */
  datatype ClickOutcome =
    | Clicked        // the button was found and clicked
    | NoSuchElement  // the button is not on the page yet: the only exception caught
    | OtherError     // any other exception: it escapes and ends the worker

  /** What the worker does, in order. */
  datatype WorkerEvent =
    | Sleep(seconds: int)              // `time.sleep(waiting_time)` or `time.sleep(reload_delay)`
    | ShortSleep                       // `time.sleep(0.01)` while polling the clock
    | Attempt(outcome: ClickOutcome)   // one pass of the attempt loop's body

  datatype WorkerEnd =
    | StillWaiting             // every clock reading seen so far was before the opening
    | Finished(registered: bool) // the attempt loop ran to its end
    | Crashed                  // an exception other than NoSuchElement escaped an attempt

  /**
   * The first sleep (lines 43-47): the time left until `browser_delay` before the opening,
   * never negative; zero once the opening is within `browser_delay` of now, otherwise
   * exactly long enough to wake `browser_delay` before it.
   */
  function InitialWait(registration: int, now: int, browserDelay: int): (w: int)
    ensures w >= 0
    ensures w == 0 <==> registration - now <= browserDelay
    ensures w > 0 ==> now + w + browserDelay == registration
  {
    var waiting := registration - now - browserDelay;
    if waiting < 0 then 0 else waiting
  }

  function ShortSleeps(n: nat): (r: seq<WorkerEvent>)
    ensures |r| == n && forall i :: 0 <= i < n ==> r[i] == ShortSleep
  {
    seq(n, _ => ShortSleep)
  }

  /** The events of `n` attempts that each completed: an attempt, then the reload sleep. */
  function AttemptEvents(clicks: nat -> ClickOutcome, n: nat, reloadDelay: int): (r: seq<WorkerEvent>)
    ensures |r| == 2 * n
  {
    if n == 0 then [] else AttemptEvents(clicks, n - 1, reloadDelay) + [Attempt(clicks(n - 1)), Sleep(reloadDelay)]
  }

  /** Every completed attempt, the successful one included, is followed by the reload sleep. */
  lemma {:induction false} AttemptEventsShape(clicks: nat -> ClickOutcome, n: nat, reloadDelay: int)
    ensures |AttemptEvents(clicks, n, reloadDelay)| == 2 * n
    ensures forall i :: 0 <= i < n ==>
      AttemptEvents(clicks, n, reloadDelay)[2 * i] == Attempt(clicks(i)) &&
      AttemptEvents(clicks, n, reloadDelay)[2 * i + 1] == Sleep(reloadDelay)
  {
    if n > 0 {
      AttemptEventsShape(clicks, n - 1, reloadDelay);
    }
  }

  /** The most attempts the loop can make: `page_reload_n`, or none when it is not positive. */
  function AttemptBudget(pageReload: int): nat
  {
    if pageReload < 0 then 0 else pageReload
  }

  /** The first `k` attempts all found no button. */
  predicate FailsBefore(clicks: nat -> ClickOutcome, k: nat)
  {
    forall i :: 0 <= i < k ==> clicks(i) == NoSuchElement
  }

  /**
   * reservation_process with the browser abstracted (lines 24-95). `now` is the clock at
   * the start, `readings` the successive values of `datetime.now()` the polling loop sees,
   * `clicks(i)` the outcome of attempt `i`. `pageLoads` counts the attempts made.
   */
  method ReservationProcess(cfg: WorkerConfig, registration: int, now: int,
                            readings: seq<int>, clicks: nat -> ClickOutcome)
    returns (waitingTime: int, polls: nat, ntries: int, registrationDone: bool, pageLoads: nat,
             end: WorkerEnd, trace: seq<WorkerEvent>)
    ensures waitingTime == InitialWait(registration, now, cfg.browserDelay)
    // no attempt before the opening: until then the loop only reads the clock and sleeps
    ensures polls <= |readings|
    ensures forall i :: 0 <= i < polls ==> readings[i] < registration
    ensures end == StillWaiting <==> polls == |readings|
    ensures end == StillWaiting ==>
      pageLoads == 0 && !registrationDone && trace == [Sleep(waitingTime)] + ShortSleeps(polls)
    ensures end != StillWaiting ==> readings[polls] >= registration
    // the attempt loop: bounded by page_reload_n, cut short only by a success or a crash
    ensures pageLoads <= AttemptBudget(cfg.pageReload)
    ensures FailsBefore(clicks, if pageLoads == 0 then 0 else pageLoads - 1)
    ensures end != StillWaiting && pageLoads < cfg.pageReload ==>
      pageLoads > 0 && clicks(pageLoads - 1) != NoSuchElement
    ensures registrationDone <==> pageLoads > 0 && clicks(pageLoads - 1) == Clicked
    ensures end == Crashed <==> pageLoads > 0 && clicks(pageLoads - 1) == OtherError
    ensures end.Finished? ==> end.registered == registrationDone
    ensures ntries == pageLoads - (if pageLoads > 0 && clicks(pageLoads - 1) != NoSuchElement then 1 else 0)
    ensures end.Finished? ==>
      trace == [Sleep(waitingTime)] + ShortSleeps(polls) + AttemptEvents(clicks, pageLoads, cfg.reloadDelay)
    ensures end == Crashed ==>
      trace == [Sleep(waitingTime)] + ShortSleeps(polls) + AttemptEvents(clicks, pageLoads - 1, cfg.reloadDelay) + [Attempt(OtherError)]
    // the two outcomes the policy promises
    ensures end != StillWaiting && FailsBefore(clicks, AttemptBudget(cfg.pageReload)) ==>
      pageLoads == AttemptBudget(cfg.pageReload) && !registrationDone && end == Finished(false)
    ensures forall j: nat :: end != StillWaiting && j < cfg.pageReload && FailsBefore(clicks, j) && clicks(j) == Clicked ==>
      pageLoads == j + 1 && registrationDone
  {
    // sleep before the registration opening
    waitingTime := registration - now - cfg.browserDelay;
    if waitingTime < 0 {
      waitingTime := 0;
    }
    trace := [Sleep(waitingTime)];

    polls, ntries, registrationDone, pageLoads, end := 0, 0, false, 0, StillWaiting;
    while polls < |readings|
      invariant polls <= |readings|
      invariant forall i :: 0 <= i < polls ==> readings[i] < registration
      invariant trace == [Sleep(waitingTime)] + ShortSleeps(polls)
      invariant ntries == 0 && !registrationDone && pageLoads == 0 && end == StillWaiting
    {
      var dateNow := readings[polls];
      if dateNow >= registration {
        ghost var base := trace;
        ntries := 0;
        while ntries < cfg.pageReload && !registrationDone
          invariant 0 <= ntries
          invariant ntries <= cfg.pageReload || ntries == 0
          invariant pageLoads == ntries + (if registrationDone then 1 else 0)
          invariant pageLoads <= AttemptBudget(cfg.pageReload)
          invariant FailsBefore(clicks, ntries)
          invariant registrationDone ==> clicks(ntries) == Clicked
          invariant trace == base + AttemptEvents(clicks, pageLoads, cfg.reloadDelay)
          invariant end == StillWaiting
          decreases cfg.pageReload - ntries, if registrationDone then 0 else 1
        {
          pageLoads := pageLoads + 1;
          var outcome := clicks(pageLoads - 1);
          if outcome == Clicked {
            registrationDone := true;
          } else if outcome == NoSuchElement {
            ntries := ntries + 1;
          } else {
            trace := trace + [Attempt(outcome)];
            end := Crashed;
            return;
          }
          trace := trace + [Attempt(outcome), Sleep(cfg.reloadDelay)];
        }
        end := Finished(registrationDone);
        break;
      } else {
        trace := trace + [ShortSleep];
        polls := polls + 1;
      }
    }
  }
}
