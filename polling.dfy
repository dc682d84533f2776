/**
  The scan-status polling session of lib/utils/pollingScan.ts.

  `startScanPolling` keeps two closure variables, an attempt counter and an `isActive`
  flag, and a `poll` routine that (1) gives up with a timeout error once the counter has
  reached `maxAttempts`, (2) otherwise counts the attempt and queries the backend, and
  (3) when the reply arrives, reports it, classifies its status and either stops or
  re-arms a timer. Here a session is a class. Its callbacks and timer are made visible as
  an event log; the backend's answer to a query is an explicit `Reply` value, and a timer
  firing is an explicit `Fire` step. `poll` is split at its `await`: `Poll` is the part
  that runs before the query returns and `Deliver` is the part that runs after it, so a
  cancellation between the two behaves as the source does.
*/
module ScanPolling {
  import opened Wrappers
  import Text
  import opened Web

  /** A value thrown by the status query: an `Error` instance or any other value. */
  datatype Thrown = ThrownError(error: Error) | ThrownValue

  /**
    The parts of a status response the poller reads: `data?.status` of the nested
    envelope, the legacy top-level `status`, and the legacy `error` text.
  */
  datatype StatusResponse = StatusResponse(dataStatus: Option<string>, status: Option<string>, error: Option<string>)

  /** What one status query produced. */
  datatype Reply = Status(response: StatusResponse) | Throw(thrown: Thrown)

  /** The observable effects of a session, in the order they happen. */
  datatype Event =
    | Queried(attempt: nat)              // getScanStatus called; `attempt` is the counter after the increment
    | StatusUpdated(response: StatusResponse)  // onStatusUpdate(response)
    | Succeeded(response: StatusResponse)      // onSuccess(response)
    | Failed(error: Error)                     // onError(error)
    | Scheduled(delayMs: nat)                  // setTimeout(poll, delayMs)

  const DefaultIntervalMs: nat := 30000
  const DefaultMaxAttempts: nat := 120

  const TimeoutMessage := "Scan polling timeout after 60 minutes"
  const ApkFailedMessage := "Đã có lỗi xảy ra. File apk của bạn sai cấu trúc hoặc chưa có chữ kí."
  const PollingErrorMessage := "Polling error"
  const ScanFailedMessage := "Scan failed"

  /**
    `(response.data?.status || response.status)?.toLowerCase()`: the nested status when it
    is truthy, otherwise the legacy one, lower-cased; `None` stands for `undefined`.
  */
  function CurrentStatus(r: StatusResponse): (s: Option<string>)
    ensures Text.Truthy(r.dataStatus) ==> s == Some(Text.Lower(r.dataStatus.value))
    ensures !Text.Truthy(r.dataStatus) && r.status.Some? ==> s == Some(Text.Lower(r.status.value))
    ensures !Text.Truthy(r.dataStatus) && r.status.None? ==> s == None
  {
    var chosen := if Text.Truthy(r.dataStatus) then r.dataStatus else r.status;
    match chosen
    case Some(v) => Some(Text.Lower(v))
    case None => None
  }

  /** How `poll` reacts to a status response. */
  datatype Verdict = KeepPolling | Success | Failure(error: Error)

  /**
    The classification of lib/utils/pollingScan.ts:46-58 as written, including the
    final `else`, which would report the backend's `error` text.
  */
  function ReactTo(r: StatusResponse): Verdict {
    var s := CurrentStatus(r);
    if s == Some("completed") || s == Some("success") || s == Some("failed") then
      if s == Some("completed") || s == Some("success") then Success
      else if s == Some("failed") then Failure(Error(ApkFailedMessage))
      else Failure(Error(Text.OrElse(r.error, ScanFailedMessage)))
    else KeepPolling
  }

  /**
    The classification is exactly: success for "completed"/"success" in any ASCII case,
    the fixed APK message for "failed" in any case, and another poll for everything else,
    a missing status included. The backend's `error` text is never reported: the last
    `else` of the classification cannot be reached.
  */
  lemma ReactToCases(r: StatusResponse)
    ensures ReactTo(r) == Success <==> CurrentStatus(r) in {Some("completed"), Some("success")}
    ensures ReactTo(r) == Failure(Error(ApkFailedMessage)) <==> CurrentStatus(r) == Some("failed")
    ensures ReactTo(r) == KeepPolling <==> CurrentStatus(r) !in {Some("completed"), Some("success"), Some("failed")}
    ensures ReactTo(r).Failure? ==> ReactTo(r).error == Error(ApkFailedMessage)
  {
    assert ApkFailedMessage != TimeoutMessage;
  }

  /** The backend's `error` field never influences the reaction. */
  lemma ReactToIgnoresBackendError(r: StatusResponse, e: Option<string>)
    ensures ReactTo(r.(error := e)) == ReactTo(r)
  {
  }

  /** `error instanceof Error ? error : new Error("Polling error")`. */
  function AsError(t: Thrown): (e: Error)
    ensures t.ThrownError? ==> e == t.error
    ensures t.ThrownValue? ==> e.message == PollingErrorMessage
  {
    match t
    case ThrownError(err) => err
    case ThrownValue => Error(PollingErrorMessage)
  }

  /** Whether a reply leaves the session polling (it re-arms the timer). */
  predicate KeepsPolling(reply: Reply) {
    reply.Status? && ReactTo(reply.response) == KeepPolling
  }

  /** The events `poll` emits after its query returned with `reply`. */
  function Handle(reply: Reply, intervalMs: nat): (events: seq<Event>)
    ensures reply.Throw? ==> events == [Failed(AsError(reply.thrown))]
    ensures reply.Status? ==> |events| == 2 && events[0] == StatusUpdated(reply.response)
    ensures reply.Status? && CurrentStatus(reply.response) in {Some("completed"), Some("success")}
      ==> events[1] == Succeeded(reply.response)
    ensures reply.Status? && CurrentStatus(reply.response) == Some("failed")
      ==> events[1] == Failed(Error(ApkFailedMessage))
    ensures KeepsPolling(reply) <==> events[|events| - 1] == Scheduled(intervalMs)
  {
    match reply
    case Throw(t) => [Failed(AsError(t))]
    case Status(r) =>
      ReactToCases(r);
      [StatusUpdated(r)] +
      match ReactTo(r)
      case Success => [Succeeded(r)]
      case Failure(e) => [Failed(e)]
      case KeepPolling => [Scheduled(intervalMs)]
  }

  /** Number of status queries in a log. */
  function QueryCount(log: seq<Event>): nat {
    if log == [] then 0
    else QueryCount(log[..|log| - 1]) + (if log[|log| - 1].Queried? then 1 else 0)
  }

  /** Number of terminal callbacks (onSuccess or onError) in a log. */
  function TerminalCount(log: seq<Event>): nat {
    if log == [] then 0
    else TerminalCount(log[..|log| - 1]) + (if log[|log| - 1].Succeeded? || log[|log| - 1].Failed? then 1 else 0)
  }

  lemma {:induction false} QueryCountAppend(a: seq<Event>, b: seq<Event>)
    ensures QueryCount(a + b) == QueryCount(a) + QueryCount(b)
    decreases |b|
  {
    if b != [] {
      assert (a + b)[..|a + b| - 1] == a + b[..|b| - 1];
      QueryCountAppend(a, b[..|b| - 1]);
    } else {
      assert a + b == a;
    }
  }

  lemma {:induction false} TerminalCountAppend(a: seq<Event>, b: seq<Event>)
    ensures TerminalCount(a + b) == TerminalCount(a) + TerminalCount(b)
    decreases |b|
  {
    if b != [] {
      assert (a + b)[..|a + b| - 1] == a + b[..|b| - 1];
      TerminalCountAppend(a, b[..|b| - 1]);
    } else {
      assert a + b == a;
    }
  }

  /** The effects `Handle` has on the two counts: no query, and one terminal callback unless polling goes on. */
  lemma HandleCounts(reply: Reply, intervalMs: nat)
    ensures QueryCount(Handle(reply, intervalMs)) == 0
    ensures TerminalCount(Handle(reply, intervalMs)) == if KeepsPolling(reply) then 0 else 1
  {
    var h := Handle(reply, intervalMs);
    if reply.Status? {
      var r := reply.response;
      var last := match ReactTo(r)
        case Success => Succeeded(r)
        case Failure(e) => Failed(e)
        case KeepPolling => Scheduled(intervalMs);
      assert h == [StatusUpdated(r), last];
      assert h[..1] == [StatusUpdated(r)] && h[..1][..0] == [];
      assert QueryCount(h[..1]) == 0 && TerminalCount(h[..1]) == 0;
      assert QueryCount(h) == QueryCount(h[..1]);
      assert TerminalCount(h) == TerminalCount(h[..1]) + (if KeepsPolling(reply) then 0 else 1);
    } else {
      assert h[..0] == [];
    }
  }

  /**
    Reference definition of a session that is never cancelled: the events from a `poll`
    made with the counter at `attempts`, when successive queries are answered with
    `replies`. A query still waiting for its reply ends the trace.
  */
  function Run(maxAttempts: nat, intervalMs: nat, attempts: nat, replies: seq<Reply>): seq<Event>
    decreases |replies|, 1
  {
    if attempts >= maxAttempts then [Failed(Error(TimeoutMessage))]
    else [Queried(attempts + 1)] + AfterQuery(maxAttempts, intervalMs, attempts + 1, replies)
  }

  /** The events once the query that set the counter to `attempts` is in flight. */
  function AfterQuery(maxAttempts: nat, intervalMs: nat, attempts: nat, replies: seq<Reply>): seq<Event>
    decreases |replies|, 0
  {
    if replies == [] then []
    else
      Handle(replies[0], intervalMs)
      + (if KeepsPolling(replies[0]) then Run(maxAttempts, intervalMs, attempts, replies[1..]) else [])
  }

  /** A session never makes more than `maxAttempts` status queries. */
  lemma {:induction false} RunQueryBound(maxAttempts: nat, intervalMs: nat, attempts: nat, replies: seq<Reply>)
    requires attempts <= maxAttempts
    ensures QueryCount(Run(maxAttempts, intervalMs, attempts, replies)) <= maxAttempts - attempts
    decreases |replies|, 1
  {
    if attempts >= maxAttempts {
      var t := [Failed(Error(TimeoutMessage))];
      assert t[..0] == [];
    } else {
      var rest := AfterQuery(maxAttempts, intervalMs, attempts + 1, replies);
      AfterQueryBound(maxAttempts, intervalMs, attempts + 1, replies);
      QueryCountAppend([Queried(attempts + 1)], rest);
      assert [Queried(attempts + 1)][..0] == [];
    }
  }

  lemma {:induction false} AfterQueryBound(maxAttempts: nat, intervalMs: nat, attempts: nat, replies: seq<Reply>)
    requires attempts <= maxAttempts
    ensures QueryCount(AfterQuery(maxAttempts, intervalMs, attempts, replies)) <= maxAttempts - attempts
    decreases |replies|, 0
  {
    if replies != [] {
      HandleCounts(replies[0], intervalMs);
      var tail := if KeepsPolling(replies[0]) then Run(maxAttempts, intervalMs, attempts, replies[1..]) else [];
      if KeepsPolling(replies[0]) {
        RunQueryBound(maxAttempts, intervalMs, attempts, replies[1..]);
      }
      QueryCountAppend(Handle(replies[0], intervalMs), tail);
    }
  }

  /**
    At most one terminal callback (onSuccess or onError) is made, and when one is made it
    is the last thing the session does.
  */
  lemma {:induction false} RunTerminatesOnce(maxAttempts: nat, intervalMs: nat, attempts: nat, replies: seq<Reply>)
    ensures TerminalCount(Run(maxAttempts, intervalMs, attempts, replies)) <= 1
    ensures TerminalCount(Run(maxAttempts, intervalMs, attempts, replies)) == 1 ==>
      var t := Run(maxAttempts, intervalMs, attempts, replies);
      t[|t| - 1].Succeeded? || t[|t| - 1].Failed?
    decreases |replies|, 1
  {
    var t := Run(maxAttempts, intervalMs, attempts, replies);
    if attempts >= maxAttempts {
      assert t[..0] == [];
    } else {
      var rest := AfterQuery(maxAttempts, intervalMs, attempts + 1, replies);
      AfterQueryTerminatesOnce(maxAttempts, intervalMs, attempts + 1, replies);
      TerminalCountAppend([Queried(attempts + 1)], rest);
      assert [Queried(attempts + 1)][..0] == [];
      if rest != [] {
        assert t[|t| - 1] == rest[|rest| - 1];
      }
    }
  }

  lemma {:induction false} AfterQueryTerminatesOnce(maxAttempts: nat, intervalMs: nat, attempts: nat, replies: seq<Reply>)
    ensures TerminalCount(AfterQuery(maxAttempts, intervalMs, attempts, replies)) <= 1
    ensures TerminalCount(AfterQuery(maxAttempts, intervalMs, attempts, replies)) == 1 ==>
      var t := AfterQuery(maxAttempts, intervalMs, attempts, replies);
      t[|t| - 1].Succeeded? || t[|t| - 1].Failed?
    decreases |replies|, 0
  {
    if replies != [] {
      var h := Handle(replies[0], intervalMs);
      HandleCounts(replies[0], intervalMs);
      if KeepsPolling(replies[0]) {
        var tail := Run(maxAttempts, intervalMs, attempts, replies[1..]);
        RunTerminatesOnce(maxAttempts, intervalMs, attempts, replies[1..]);
        TerminalCountAppend(h, tail);
        var t := h + tail;
        if tail != [] {
          assert t[|t| - 1] == tail[|tail| - 1];
        }
      } else {
        assert h + [] == h;
        var last := h[|h| - 1];
        assert last.Succeeded? || last.Failed?;
      }
    }
  }

  /** Replies that are all "still running". */
  predicate AllKeepPolling(replies: seq<Reply>) {
    forall i :: 0 <= i < |replies| ==> KeepsPolling(replies[i])
  }

  /**
    A session whose queries never reach a terminal status makes exactly `maxAttempts`
    queries and then reports the timeout, once, as its last event.
  */
  lemma {:induction false} RunTimesOut(maxAttempts: nat, intervalMs: nat, attempts: nat, replies: seq<Reply>)
    requires attempts <= maxAttempts
    requires AllKeepPolling(replies) && |replies| >= maxAttempts - attempts
    ensures var t := Run(maxAttempts, intervalMs, attempts, replies);
      && QueryCount(t) == maxAttempts - attempts
      && t[|t| - 1] == Failed(Error(TimeoutMessage))
    decreases |replies|
  {
    var t := Run(maxAttempts, intervalMs, attempts, replies);
    if attempts >= maxAttempts {
      assert t[..0] == [];
    } else {
      var tail := Run(maxAttempts, intervalMs, attempts + 1, replies[1..]);
      var h := Handle(replies[0], intervalMs);
      assert KeepsPolling(replies[0]);
      RunTimesOut(maxAttempts, intervalMs, attempts + 1, replies[1..]);
      HandleCounts(replies[0], intervalMs);
      assert AfterQuery(maxAttempts, intervalMs, attempts + 1, replies) == h + tail;
      assert t == [Queried(attempts + 1)] + h + tail;
      QueryCountAppend([Queried(attempts + 1)] + h, tail);
      QueryCountAppend([Queried(attempts + 1)], h);
      assert [Queried(attempts + 1)][..0] == [];
    }
  }

  /**
    A session as `startScanPolling` creates it: the closure variables `attempts` and
    `isActive`, the two limits, whether a query is awaiting its reply, whether a
    re-armed `poll` timer is pending, and the log of everything observable so far.
  */
  class PollingSession {
    const maxAttempts: nat
    const intervalMs: nat
    var attempts: nat
    var isActive: bool
    var inFlight: bool
    var timerArmed: bool
    var log: seq<Event>

    /**
      The session invariant: the counter is the number of queries made and never
      exceeds `maxAttempts`; a query in flight and a pending timer exclude each other
      (queries are strictly sequential).
    */
    ghost predicate Valid()
      reads this
    {
      && attempts <= maxAttempts
      && attempts == QueryCount(log)
      && !(inFlight && timerArmed)
    }

    /** `startScanPolling`: set up the closure state and run the first `poll` at once. */
    constructor Start(maxAttempts: nat, intervalMs: nat)
      ensures Valid() && isActive && !timerArmed
      ensures this.maxAttempts == maxAttempts && this.intervalMs == intervalMs
      ensures maxAttempts > 0 ==> attempts == 1 && inFlight && log == [Queried(1)]
      ensures maxAttempts == 0 ==> attempts == 0 && !inFlight && log == [Failed(Error(TimeoutMessage))]
    {
      this.maxAttempts := maxAttempts;
      this.intervalMs := intervalMs;
      attempts := 0;
      isActive := true;
      inFlight := false;
      timerArmed := false;
      log := [];
      new;
      Poll();
    }

    /**
      The part of `poll` before its `await`: with the session cancelled or the counter at
      the cap it makes no query, and reports the timeout whenever the cap is reached;
      otherwise it counts the attempt and issues the query.
    */
    method Poll()
      requires Valid() && !inFlight && !timerArmed
      modifies this
      ensures Valid()
      ensures isActive == old(isActive) && !timerArmed
      ensures old(isActive) && old(attempts) < maxAttempts ==>
        && attempts == old(attempts) + 1
        && inFlight
        && log == old(log) + [Queried(attempts)]
      ensures !(old(isActive) && old(attempts) < maxAttempts) ==>
        && attempts == old(attempts)
        && !inFlight
        && log == old(log) + (if old(attempts) >= maxAttempts then [Failed(Error(TimeoutMessage))] else [])
    {
      if !isActive || attempts >= maxAttempts {
        if attempts >= maxAttempts {
          log := log + [Failed(Error(TimeoutMessage))];
          assert QueryCount(log) == QueryCount(old(log));
        }
        return;
      }
      attempts := attempts + 1;
      log := log + [Queried(attempts)];
      inFlight := true;
    }

    /** The re-armed timer fires and runs `poll` again. */
    method Fire()
      requires Valid() && timerArmed
      modifies this
      ensures Valid()
      ensures !timerArmed && isActive == old(isActive)
      ensures old(isActive) && old(attempts) < maxAttempts ==>
        attempts == old(attempts) + 1 && inFlight && log == old(log) + [Queried(attempts)]
      ensures !(old(isActive) && old(attempts) < maxAttempts) ==>
        && attempts == old(attempts)
        && !inFlight
        && log == old(log) + (if old(attempts) >= maxAttempts then [Failed(Error(TimeoutMessage))] else [])
    {
      timerArmed := false;
      Poll();
    }

    /**
      The part of `poll` after its `await`. The reply is reported with onStatusUpdate
      without looking at `isActive` again; a terminal status or a thrown query clears
      `isActive`; any other status re-arms the timer.
    */
    method Deliver(reply: Reply)
      requires Valid() && inFlight
      modifies this
      ensures Valid()
      ensures !inFlight && attempts == old(attempts)
      ensures log == old(log) + Handle(reply, intervalMs)
      ensures timerArmed == KeepsPolling(reply)
      ensures isActive == (old(isActive) && KeepsPolling(reply))
    {
      inFlight := false;
      match reply {
        case Throw(t) =>
          isActive := false;
          log := log + [Failed(AsError(t))];
        case Status(r) =>
          log := log + [StatusUpdated(r)];
          var verdict := ReactTo(r);
          match verdict {
            case Success =>
              isActive := false;
              log := log + [Succeeded(r)];
            case Failure(e) =>
              isActive := false;
              log := log + [Failed(e)];
            case KeepPolling =>
              timerArmed := true;
              log := log + [Scheduled(intervalMs)];
          }
      }
      assert log == old(log) + Handle(reply, intervalMs);
      HandleCounts(reply, intervalMs);
      QueryCountAppend(old(log), Handle(reply, intervalMs));
    }

    /** The cleanup handle returned by `startScanPolling`; running it again changes nothing. */
    method Cancel()
      requires Valid()
      modifies this
      ensures Valid() && !isActive
      ensures attempts == old(attempts) && log == old(log)
      ensures inFlight == old(inFlight) && timerArmed == old(timerArmed)
    {
      isActive := false;
    }
  }

  /** One reply of the trace, with the rest of the replies after it. */
  lemma AfterQueryUnfold(maxAttempts: nat, intervalMs: nat, attempts: nat, replies: seq<Reply>, i: nat)
    requires i < |replies|
    ensures AfterQuery(maxAttempts, intervalMs, attempts, replies[i..])
         == Handle(replies[i], intervalMs)
            + (if KeepsPolling(replies[i]) then Run(maxAttempts, intervalMs, attempts, replies[i + 1..]) else [])
  {
    assert replies[i..][0] == replies[i] && replies[i..][1..] == replies[i + 1..];
  }

  /**
    Reply `i` answers the query in flight and, when it re-arms the timer, the timer
    fires: a session whose log, followed by the reference trace from reply `i` on, is
    `trace` still has that property from reply `i + 1` on.
  */
  method AnswerAndResume(session: PollingSession, replies: seq<Reply>, i: nat, ghost trace: seq<Event>)
    requires i < |replies|
    requires session.Valid() && session.inFlight && session.isActive && !session.timerArmed
    requires session.log + AfterQuery(session.maxAttempts, session.intervalMs, session.attempts, replies[i..]) == trace
    modifies session
    ensures session.Valid() && !session.timerArmed
    ensures session.inFlight ==> session.isActive
    ensures session.log + (if session.inFlight then AfterQuery(session.maxAttempts, session.intervalMs, session.attempts, replies[i + 1..]) else [])
         == trace
  {
    ghost var before := session.log;
    ghost var a := session.attempts;
    ghost var rest := replies[i + 1..];
    ghost var handled := Handle(replies[i], session.intervalMs);
    AfterQueryUnfold(session.maxAttempts, session.intervalMs, a, replies, i);
    session.Deliver(replies[i]);
    if session.timerArmed {
      session.Fire();
      if a < session.maxAttempts {
        ghost var next := AfterQuery(session.maxAttempts, session.intervalMs, a + 1, rest);
        assert Run(session.maxAttempts, session.intervalMs, a, rest) == [Queried(a + 1)] + next;
        assert session.log + next == before + (handled + ([Queried(a + 1)] + next));
      } else {
        assert Run(session.maxAttempts, session.intervalMs, a, rest) == [Failed(Error(TimeoutMessage))];
        assert session.log == before + (handled + [Failed(Error(TimeoutMessage))]);
      }
    } else {
      assert session.log == before + (handled + []);
    }
  }

  /**
    Drives a fresh session that is never cancelled: each reply answers the query in
    flight and every re-armed timer fires. What the session does is the reference trace.
  */
  method PollUncancelled(maxAttempts: nat, intervalMs: nat, replies: seq<Reply>) returns (log: seq<Event>)
    ensures log == Run(maxAttempts, intervalMs, 0, replies)
  {
    var session := new PollingSession.Start(maxAttempts, intervalMs);
    ghost var trace := Run(maxAttempts, intervalMs, 0, replies);
    var i := 0;
    while i < |replies| && session.inFlight
      invariant 0 <= i <= |replies|
      invariant session.Valid() && !session.timerArmed
      invariant session.maxAttempts == maxAttempts && session.intervalMs == intervalMs
      invariant session.inFlight ==> session.isActive
      invariant session.log + (if session.inFlight then AfterQuery(maxAttempts, intervalMs, session.attempts, replies[i..]) else [])
                == trace
      decreases |replies| - i
    {
      AnswerAndResume(session, replies, i, trace);
      i := i + 1;
    }
    assert session.inFlight ==> replies[i..] == [];
    log := session.log;
  }

  /**
    A session cancelled as soon as `startScanPolling` returns, twice over: the query the
    start issued may still be answered, but no further query is ever made, whatever the
    replies are.
  */
  method CancelRightAway(maxAttempts: nat, intervalMs: nat, replies: seq<Reply>) returns (log: seq<Event>)
    ensures QueryCount(log) == if maxAttempts > 0 then 1 else 0
  {
    var session := new PollingSession.Start(maxAttempts, intervalMs);
    session.Cancel();
    session.Cancel();
    var i := 0;
    while i < |replies| && (session.inFlight || session.timerArmed)
      invariant 0 <= i <= |replies|
      invariant session.Valid() && !session.isActive
      invariant session.maxAttempts == maxAttempts
      invariant session.attempts == if maxAttempts > 0 then 1 else 0
      decreases |replies| - i, if session.timerArmed then 1 else 0
    {
      if session.inFlight {
        session.Deliver(replies[i]);
        i := i + 1;
      } else {
        session.Fire();
      }
    }
    log := session.log;
  }

  /** A reply in the legacy flat shape `{ status }`. */
  function Legacy(status: string): Reply {
    Status(StatusResponse(None, Some(status), None))
  }

  /**
    Replies "pending", "processing", "completed": three status updates, two re-armed
    timers, one success with the final response, and no fourth query.
  */
  lemma PendingProcessingCompleted()
    ensures Run(DefaultMaxAttempts, DefaultIntervalMs, 0, [Legacy("pending"), Legacy("processing"), Legacy("completed")])
         == [ Queried(1), StatusUpdated(Legacy("pending").response), Scheduled(30000),
              Queried(2), StatusUpdated(Legacy("processing").response), Scheduled(30000),
              Queried(3), StatusUpdated(Legacy("completed").response), Succeeded(Legacy("completed").response) ]
  {
    assert Text.Lower("pending") == "pending";
    assert Text.Lower("processing") == "processing";
    assert Text.Lower("completed") == "completed";
  }

  /** A first reply "failed" reports the fixed APK message and ends the session. */
  lemma FirstReplyFailed(maxAttempts: nat, intervalMs: nat, rest: seq<Reply>)
    requires maxAttempts > 0
    ensures Run(maxAttempts, intervalMs, 0, [Legacy("failed")] + rest)
         == [Queried(1), StatusUpdated(Legacy("failed").response), Failed(Error(ApkFailedMessage))]
  {
    assert Text.Lower("failed") == "failed";
  }

  /** A first query that throws reports that error and ends the session: no retry. */
  lemma FirstQueryThrew(maxAttempts: nat, intervalMs: nat, t: Thrown, rest: seq<Reply>)
    requires maxAttempts > 0
    ensures Run(maxAttempts, intervalMs, 0, [Throw(t)] + rest) == [Queried(1), Failed(AsError(t))]
  {
  }

  /**
    The status is chosen with `||`: an empty nested status falls back to the legacy one,
    and the comparison ignores ASCII case ("Success" and "COMPLETED" succeed).
  */
  lemma StatusChoiceAsWritten()
    ensures ReactTo(StatusResponse(Some(""), Some("completed"), None)) == Success
    ensures ReactTo(StatusResponse(Some("Success"), Some("failed"), None)) == Success
    ensures ReactTo(StatusResponse(None, Some("COMPLETED"), None)) == Success
    ensures ReactTo(StatusResponse(None, None, Some("boom"))) == KeepPolling
  {
    assert Text.Lower("completed") == "completed";
    assert Text.Lower("Success") == "success";
    assert Text.Lower("COMPLETED") == "completed";
  }

  /**
    Cancelling while a query is in flight does not stop its reply from being handled:
    `onStatusUpdate` and `onSuccess` still run, because neither re-checks `isActive`.
  */
  method CancelDuringQuery(maxAttempts: nat, intervalMs: nat, r: StatusResponse) returns (log: seq<Event>)
    requires maxAttempts > 0
    requires ReactTo(r) == Success
    ensures log == [Queried(1), StatusUpdated(r), Succeeded(r)]
  {
    var session := new PollingSession.Start(maxAttempts, intervalMs);
    session.Cancel();
    session.Deliver(Status(r));
    log := session.log;
  }

  /**
    A "still running" reply that arrives after a cancel re-arms the timer; when it fires
    no query is made, but a counter already at the cap still reports the timeout.
  */
  method CancelThenTimerAtCap(intervalMs: nat, r: StatusResponse) returns (log: seq<Event>)
    requires ReactTo(r) == KeepPolling
    ensures log == [Queried(1), StatusUpdated(r), Scheduled(intervalMs), Failed(Error(TimeoutMessage))]
  {
    var session := new PollingSession.Start(1, intervalMs);
    session.Cancel();
    session.Deliver(Status(r));
    session.Fire();
    log := session.log;
  }

  // ---------------------------------------------------------------------------
  // calculateScanProgress and formatStatusText

  /** The five status tokens the two display tables know, compared case-sensitively. */
  predicate KnownStatus(status: string) {
    status in {"pending", "processing", "completed", "failed", "Failed"}
  }

  /** `calculateScanProgress`: a case-sensitive lookup of the progress percentage. */
  function ScanProgress(status: string): (p: nat)
    ensures p in {0, 20, 60, 100}
    ensures p == 20 <==> status == "pending"
    ensures p == 60 <==> status == "processing"
    ensures p == 100 <==> status in {"completed", "failed", "Failed"}
    ensures p == 0 <==> !KnownStatus(status)
  {
    match status
    case "pending" => 20
    case "processing" => 60
    case "completed" => 100
    case "failed" => 100
    case "Failed" => 100
    case _ => 0
  }

  /** Progress never goes backwards along pending, processing, completed. */
  lemma ProgressFollowsLifecycle()
    ensures ScanProgress("pending") < ScanProgress("processing") < ScanProgress("completed")
    ensures ScanProgress("Pending") == 0 && ScanProgress("Success") == 0 && ScanProgress("InProgress") == 0
  {
  }

  /** The display text of the five known tokens. */
  function KnownStatusText(status: string): (text: string)
    requires KnownStatus(status)
  {
    match status
    case "pending" => "Waiting to start..."
    case "processing" => "Scanning app..."
    case "completed" => "Scan completed"
    case _ => "Scan failed"
  }

  /**
    `formatStatusText` as intended: the fixed text of a known token, and any other token
    unchanged. This is the own-key lookup of the object literal `statusMap`.
  */
  function FormatStatusText(status: string): (text: string)
    ensures KnownStatus(status) ==> text == KnownStatusText(status)
    ensures !KnownStatus(status) ==> text == status
  {
    if KnownStatus(status) then KnownStatusText(status) else status
  }

  /**
    The two tables agree on which tokens they know: a token gets a non-zero progress
    exactly when it gets a display text different from itself.
  */
  lemma ProgressAndTextAgree(status: string)
    ensures ScanProgress(status) != 0 <==> FormatStatusText(status) != status
  {
  }

  /**
    The names an object literal inherits from `Object.prototype`; reading one of them with
    `statusMap[status]` yields an inherited member instead of `undefined`.
  */
  predicate InheritedKey(key: string) {
    key in {"constructor", "hasOwnProperty", "isPrototypeOf", "propertyIsEnumerable",
            "toLocaleString", "toString", "valueOf", "__proto__",
            "__defineGetter__", "__defineSetter__", "__lookupGetter__", "__lookupSetter__"}
  }

  /** A JavaScript value as `formatStatusText` may return it. */
  datatype JsValue = Str(s: string) | FunctionValue(name: string) | PrototypeObject

  /**
    `statusMap[status] || status` as written: a lookup on a plain object literal, which
    also finds the inherited members of `Object.prototype` (all of them truthy).
  */
  function FormatStatusTextAsWritten(status: string): JsValue {
    if KnownStatus(status) then Str(KnownStatusText(status))
    else if status == "__proto__" then PrototypeObject
    else if InheritedKey(status) then FunctionValue(status)
    else Str(status)
  }

  /**
    The as-written lookup agrees with the intended one except on the inherited names,
    where it returns a non-string.
  */
  lemma FormatStatusTextAsWrittenDiffers(status: string)
    ensures !InheritedKey(status) ==> FormatStatusTextAsWritten(status) == Str(FormatStatusText(status))
    ensures InheritedKey(status) ==> !FormatStatusTextAsWritten(status).Str?
    ensures FormatStatusTextAsWritten("toString") == FunctionValue("toString")
  {
  }
}
