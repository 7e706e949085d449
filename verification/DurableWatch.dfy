/** watchDurableRun of apps/desktop/src/target-routing.ts: a read-only watch that is
    re-established after transport failures within a recovery budget, and that stops as
    soon as its route is no longer current. Its protocol is a state machine that takes one
    step for each question it asks and each call it makes; the n-th step happens at tick n.
    The answers - the route check, the clock, the error classifier, the summaries - are
    functions of the tick; the watches are a finite script. */
module DurableWatch {
  import opened Wrappers

  const MAX_WATCH_RECOVERY_ATTEMPTS: nat := 16
  const WATCH_RECOVERY_DEADLINE_MS: nat := 45_000
  const ROUTE_CHECK_MS := 250.0
  const STABILITY_MS := 5000.0
  const DELAYS_MS: seq<real> := [250.0, 500.0, 1000.0, 2000.0, 4000.0, 5000.0]

  datatype Update<V> = Update(runId: string, sequence: nat, value: V)

  datatype Failure =
    | Protocol(violation: Violation)
    | Remote(code: string)

  datatype Violation = CompletedOtherRun | UpdatedOtherRun | NotContiguous | SummaryOfOtherRun | SummaryBehind

  datatype Event<V> =
    | Updated(update: Update<V>)
    | Completed(runId: string)
    | Errored(failure: Failure)

  /** The events of one watch, and the normalised error it is rejected with, if any. */
  datatype Watch<V> = Watch(events: seq<Event<V>>, thrown: Option<Failure>)

  datatype Details = Details(runId: string, lastSequence: nat, terminal: bool)

  datatype Environment = Environment(
    current: nat -> bool,
    clock: nat -> Option<real>,  // None where the reading is not finite
    recoverable: (nat, Failure) -> bool,
    run: nat -> Result<Details, Failure>)

  // ----- options -----

  datatype Number = Finite(value: real) | NotFinite

  datatype Options = Options(runId: string, start: nat, maxAttempts: nat, deadlineMs: nat)

  /** The number without its fraction, or zero for a negative one. */
  predicate IsTruncationOf(n: nat, value: real) {
    if value < 0.0 then n == 0 else n as real <= value < n as real + 1.0
  }

  /** Math.max(0, Math.trunc(value)) */
  function Truncated(value: real): (n: nat)
    ensures IsTruncationOf(n, value)
  {
    if value <= 0.0 then 0 else value.Floor
  }

  /** nonNegativeInteger, of an option that may be missing. */
  function NonNegativeInteger(value: Option<Number>, fallback: nat): nat {
    match value
    case Some(Finite(v)) => Truncated(v)
    case _ => fallback
  }

  function Configure(runId: string, after: real, attempts: Option<Number>, deadline: Option<Number>): (o: Options)
    ensures o.runId == runId && IsTruncationOf(o.start, after)
    ensures match attempts
            case Some(Finite(v)) => IsTruncationOf(o.maxAttempts, v)
            case _ => o.maxAttempts == MAX_WATCH_RECOVERY_ATTEMPTS
    ensures match deadline
            case Some(Finite(v)) => IsTruncationOf(o.deadlineMs, v)
            case _ => o.deadlineMs == WATCH_RECOVERY_DEADLINE_MS
  {
    Options(runId, Truncated(after), NonNegativeInteger(attempts, MAX_WATCH_RECOVERY_ATTEMPTS),
            NonNegativeInteger(deadline, WATCH_RECOVERY_DEADLINE_MS))
  }

  // ----- time -----

  datatype Window = Window(startedAt: Option<real>, scheduledDelayMs: real, attempts: nat)

  function MaxReal(x: real, y: real): real { if x <= y then y else x }
  function MinReal(x: real, y: real): real { if x <= y then x else y }

  function ElapsedSince(startedAt: Option<real>, now: Option<real>): (ms: real)
    ensures ms >= 0.0
  {
    if startedAt.Some? && now.Some? then MaxReal(0.0, now.value - startedAt.value) else 0.0
  }

  function RecoveryElapsed(window: Window, now: Option<real>): (ms: real)
    ensures ms >= window.scheduledDelayMs
  {
    MaxReal(window.scheduledDelayMs, ElapsedSince(window.startedAt, now))
  }

  function RecoveryDelay(attempt: nat): (ms: real)
    ensures 250.0 <= ms <= 5000.0
  {
    if attempt == 0 then DELAYS_MS[|DELAYS_MS| - 1] else DELAYS_MS[Min(attempt, |DELAYS_MS|) - 1]
  }

  // ----- the protocol -----

  datatype WatchResult =
    | Complete(cursor: nat)
    | Stale(cursor: nat)
    | Error(cursor: nat, failure: Failure)
    | Watching(cursor: nat)  // the script of watches ends here

  /** What the loop asks of the world and does to it, in the order of the source. */
  datatype Action<V> =
    | Check                          // isCurrent(route), outside the event callback
    | Clock                          // now()
    | Open(after: nat)               // watch(..)
    | Event(event: Event<V>)         // the callback is given an event and asks isCurrent(route)
    | OnUpdate(update: Update<V>)
    | Settled(thrown: Option<Failure>)
    | CanRecover(failure: Failure)
    | Delay(ms: real)
    | GetRun
    | OnHydrate(details: Details)

  /** Where the loop is: what it asks or does next. */
  datatype Pc<V> =
    | Top
    | Starting
    | Opening
    | Listening
    | Calling(update: Update<V>)
    | Closing
    | Judging
    | Classifying
    | NewWindow
    | Asking
    | Elapsing
    | Delaying
    | Waiting(remaining: real)
    | SliceOver(remaining: real)
    | Late
    | LateCheck
    | Fetching
    | Summary(details: Details)
    | Hydrating(details: Details)
    | Hydrated(details: Details)
    | Done(result: WatchResult)

  /** opens counts the watches opened, handled the events of the last one. */
  datatype State<V> = State(pc: Pc<V>, cursor: nat, failure: Option<Failure>, activity: bool,
                            startedAt: Option<real>, window: Option<Window>, opens: nat, handled: nat)

  datatype World<V> = World(o: Options, env: Environment, watches: seq<Watch<V>>)

  /** What one event means at a cursor while the route is current and nothing has failed. */
  datatype Reaction = Ignore | Active | Accept | Fail(failure: Failure)

  function React<V>(o: Options, cursor: nat, e: Event<V>): Reaction {
    match e
    case Errored(error) => Fail(error)
    case Completed(runId) => if runId == o.runId then Active else Fail(Protocol(CompletedOtherRun))
    case Updated(u) =>
      if u.runId != o.runId then Fail(Protocol(UpdatedOtherRun))
      else if u.sequence <= cursor then Ignore
      else if u.sequence == cursor + 1 then Accept
      else Fail(Protocol(NotContiguous))
  }

  function WatchOf<V>(w: World<V>, s: State<V>): Watch<V> {
    if 1 <= s.opens <= |w.watches| then w.watches[s.opens - 1] else Watch([], None)
  }

  function WindowOf<V>(s: State<V>): Window {
    if s.window.Some? then s.window.value else Window(None, 0.0, 0)
  }

  function FailureOf<V>(s: State<V>): Failure {
    if s.failure.Some? then s.failure.value else Remote("")
  }

  function FirstState<V>(w: World<V>): State<V> {
    State(Top, w.o.start, None, false, None, None, 0, 0)
  }

  /** The next question or call. */
  function Next<V>(w: World<V>, s: State<V>): Action<V>
    requires !s.pc.Done?
  {
    match s.pc
    case Opening => Open(s.cursor)
    case Listening =>
      var watch := WatchOf(w, s);
      if s.handled < |watch.events| then Event(watch.events[s.handled]) else Settled(watch.thrown)
    case Calling(update) => OnUpdate(update)
    case Classifying => CanRecover(FailureOf(s))
    case Asking => CanRecover(FailureOf(s))
    case Waiting(remaining) => Delay(MinReal(remaining, ROUTE_CHECK_MS))
    case Fetching => GetRun
    case Hydrating(details) => OnHydrate(details)
    case Starting => Clock
    case Judging => Clock
    case NewWindow => Clock
    case Elapsing => Clock
    case Delaying => Clock
    case Late => Clock
    case _ => Check
  }

  function Stopped<V>(s: State<V>, result: WatchResult): State<V> {
    s.(pc := Done(result))
  }

  function Handled<V>(w: World<V>, current: bool, s: State<V>, e: Event<V>): State<V> {
    var s := s.(handled := s.handled + 1);
    if !current || s.failure.Some? then s
    else
      match React(w.o, s.cursor, e)
      case Fail(failure) => s.(failure := Some(failure))
      case Active => s.(activity := true)
      case Ignore => s
      case Accept => s.(cursor := e.update.sequence, activity := true, pc := Calling(e.update))
  }

  function Listened<V>(w: World<V>, current: bool, s: State<V>): State<V> {
    var watch := WatchOf(w, s);
    if s.handled < |watch.events| then Handled(w, current, s, watch.events[s.handled])
    else s.(failure := if s.failure.Some? then s.failure else watch.thrown, pc := Closing)
  }

  /** A watch has ended on a current route. */
  function Ended<V>(s: State<V>, close: bool): State<V> {
    var s := if close then s.(window := None) else s;
    if s.failure.None? then Stopped(s, Complete(s.cursor)) else s.(pc := Classifying)
  }

  function Await<V>(s: State<V>, remaining: real): State<V> {
    s.(pc := if remaining > 0.0 then Waiting(remaining) else Late)
  }

  function Judged<V>(o: Options, current: bool, s: State<V>, details: Details): State<V> {
    if !current then Stopped(s, Stale(s.cursor))
    else if details.runId != o.runId then Stopped(s, Error(s.cursor, Protocol(SummaryOfOtherRun)))
    else if details.lastSequence < s.cursor then Stopped(s, Error(s.cursor, Protocol(SummaryBehind)))
    else s.(pc := Hydrating(details))
  }

  /** The state after the step at a tick. */
  function After<V>(w: World<V>, tick: nat, s: State<V>): State<V> {
    var o, current, now := w.o, w.env.current(tick), w.env.clock(tick);
    match s.pc
    case Top =>
      if !current then Stopped(s, Stale(s.cursor))
      else if s.opens >= |w.watches| then Stopped(s, WatchResult.Watching(s.cursor))
      else s.(pc := Starting)
    case Starting => s.(pc := Opening, startedAt := now, failure := None, activity := false)
    case Opening => s.(pc := Listening, opens := s.opens + 1, handled := 0)
    case Listening => Listened(w, current, s)
    case Calling(_) => s.(pc := Listening)
    case Closing =>
      if !current then Stopped(s, Stale(s.cursor))
      else if s.window.Some? && !s.activity then s.(pc := Judging)
      else Ended(s, s.activity)
    case Judging => Ended(s, ElapsedSince(s.startedAt, now) >= STABILITY_MS)
    case Classifying =>
      s.(pc := if w.env.recoverable(tick, FailureOf(s)) && s.window.None? then NewWindow else Asking)
    case NewWindow => s.(pc := Asking, window := Some(Window(now, 0.0, 0)))
    case Asking =>
      if !w.env.recoverable(tick, FailureOf(s)) || s.window.None? || s.window.value.attempts >= o.maxAttempts
      then Stopped(s, Error(s.cursor, FailureOf(s)))
      else s.(pc := Elapsing)
    case Elapsing =>
      var window := WindowOf(s);
      if RecoveryElapsed(window, now) >= o.deadlineMs as real then Stopped(s, Error(s.cursor, FailureOf(s)))
      else s.(pc := Delaying, window := Some(window.(attempts := window.attempts + 1)))
    case Delaying => Await(s, AttemptDelay(o, WindowOf(s), now))
    case Waiting(remaining) =>
      var window, slice := WindowOf(s), MinReal(remaining, ROUTE_CHECK_MS);
      s.(pc := SliceOver(remaining - slice),
          window := Some(window.(scheduledDelayMs := window.scheduledDelayMs + slice)))
    case SliceOver(remaining) => if !current then Stopped(s, Stale(s.cursor)) else Await(s, remaining)
    case Late =>
      if RecoveryElapsed(WindowOf(s), now) > o.deadlineMs as real then Stopped(s, Error(s.cursor, FailureOf(s)))
      else s.(pc := LateCheck)
    case LateCheck => if !current then Stopped(s, Error(s.cursor, FailureOf(s))) else s.(pc := Fetching)
    case Fetching =>
      (match w.env.run(tick)
       case Err(failure) => s.(failure := Some(failure), pc := Asking)
       case Ok(details) => s.(pc := Summary(details)))
    case Summary(details) => Judged(o, current, s, details)
    case Hydrating(details) => s.(pc := Hydrated(details))
    case Hydrated(details) =>
      if !current then Stopped(s, Stale(s.cursor))
      else if details.terminal && details.lastSequence == s.cursor then Stopped(s, Complete(s.cursor))
      else s.(pc := Top)
    case Done(_) => s
  }

  /** The delay of an attempt: the next of the list, or what is left of the deadline. */
  function AttemptDelay(o: Options, window: Window, now: Option<real>): real {
    MinReal(RecoveryDelay(window.attempts), o.deadlineMs as real - RecoveryElapsed(window, now))
  }

  /** The state at a tick. */
  function At<V>(w: World<V>, n: nat): State<V> {
    if n == 0 then FirstState(w) else After(w, n - 1, At(w, n - 1))
  }

  /** A trace of the protocol: at each tick the next question or call, and no other. */
  ghost predicate Follows<V>(w: World<V>, t: seq<Action<V>>) {
    t == [] ||
    var n := |t| - 1;
    Follows(w, t[..n]) && !At(w, n).pc.Done? && t[n] == Next(w, At(w, n))
  }

  lemma Begin<V>(w: World<V>)
    ensures Follows(w, []) && At(w, 0) == FirstState(w)
  {
  }

  lemma Extend<V>(w: World<V>, t: seq<Action<V>>, a: Action<V>)
    requires Follows(w, t) && !At(w, |t|).pc.Done? && a == Next(w, At(w, |t|))
    ensures Follows(w, t + [a]) && At(w, |t| + 1) == After(w, |t|, At(w, |t|))
  {
    assert (t + [a])[..|t|] == t;
  }

  lemma {:induction false} FollowsAt<V>(w: World<V>, t: seq<Action<V>>, i: nat)
    requires Follows(w, t) && i < |t|
    ensures !At(w, i).pc.Done? && t[i] == Next(w, At(w, i))
    decreases |t|
  {
    if i < |t| - 1 {
      FollowsAt(w, t[..|t| - 1], i);
    }
  }

  // ----- the loops of the source -----

  /** The event callback of one watch. */
  method OnEvent<V>(w: World<V>, e: Event<V>, cursor: nat, failure: Option<Failure>, activity: bool, t: seq<Action<V>>)
    returns (cursor': nat, failure': Option<Failure>, activity': bool, trace: seq<Action<V>>)
    requires Follows(w, t)
    requires var s := At(w, |t|);
             && s.pc == Listening && s.cursor == cursor && s.failure == failure && s.activity == activity
             && s.handled < |WatchOf(w, s).events| && WatchOf(w, s).events[s.handled] == e
    ensures Follows(w, trace)
    ensures var s := At(w, |t|);
            At(w, |trace|) == s.(cursor := cursor', failure := failure', activity := activity',
                handled := s.handled + 1)
  {
    hide At, Follows;
    cursor', failure', activity' := cursor, failure, activity;
    Extend(w, t, Event(e));
    trace := t + [Event(e)];
    if !w.env.current(|t|) || failure.Some? {
      return;
    }
    match React(w.o, cursor, e) {
      case Fail(error) =>
        failure' := Some(error);
      case Active =>
        activity' := true;
      case Ignore =>
      case Accept =>
        cursor' := e.update.sequence;
        activity' := true;
        Extend(w, trace, OnUpdate(e.update));
        trace := trace + [OnUpdate(e.update)];
    }
  }

  /** The watch: the callback over its events, and how it settles. */
  method Listen<V>(w: World<V>, watch: Watch<V>, start: nat, t: seq<Action<V>>)
    returns (cursor: nat, failure: Option<Failure>, activity: bool, trace: seq<Action<V>>)
    requires Follows(w, t)
    requires var s := At(w, |t|);
             && s.pc == Listening && s.cursor == start && s.failure == None && !s.activity && s.handled == 0
             && WatchOf(w, s) == watch
    ensures Follows(w, trace)
    ensures At(w, |trace|) == At(w, |t|).(pc := Closing, cursor := cursor, failure := failure, activity := activity,
                                          handled := |watch.events|)
  {
    hide At, Follows;
    cursor, failure, activity, trace := start, None, false, t;
    for i := 0 to |watch.events|
      invariant Follows(w, trace)
      invariant At(w, |trace|)
             == At(w, |t|).(cursor := cursor, failure := failure, activity := activity, handled := i)
    {
      cursor, failure, activity, trace := OnEvent(w, watch.events[i], cursor, failure, activity, trace);
    }
    Extend(w, trace, Settled(watch.thrown));
    trace := trace + [Settled(watch.thrown)];
    if failure.None? {
      failure := watch.thrown;
    }
  }

  /** One delay of a recovery attempt, cut into slices that re-check the route. */
  method Wait<V>(w: World<V>, given: Window, wait: real, t: seq<Action<V>>)
    returns (stale: bool, window: Window, trace: seq<Action<V>>)
    requires Follows(w, t) && At(w, |t|) == Await(At(w, |t|), wait) && At(w, |t|).window == Some(given)
    ensures Follows(w, trace)
    ensures var s := At(w, |t|).(window := Some(window));
            At(w, |trace|) == if stale then Stopped(s, Stale(s.cursor)) else s.(pc := Late)
    ensures window.startedAt == given.startedAt && window.attempts == given.attempts
    ensures !stale ==> window.scheduledDelayMs == given.scheduledDelayMs + MaxReal(0.0, wait)
  {
    hide At, Follows;
    stale, window, trace := false, given, t;
    var remaining := wait;
    while remaining > 0.0
      invariant Follows(w, trace)
      invariant At(w, |trace|) == Await(At(w, |t|).(window := Some(window)), remaining)
      invariant remaining >= 0.0 || remaining == wait
      invariant window == given.(scheduledDelayMs :=
                                   given.scheduledDelayMs + MaxReal(0.0, wait) - MaxReal(0.0, remaining))
      decreases if remaining <= 0.0 then 0 else remaining.Floor + 1
    {
      var slice := MinReal(remaining, ROUTE_CHECK_MS);
      Extend(w, trace, Delay(slice));
      trace := trace + [Delay(slice)];
      window := window.(scheduledDelayMs := window.scheduledDelayMs + slice);
      remaining := remaining - slice;
      Extend(w, trace, Check);
      trace := trace + [Check];
      if !w.env.current(|trace| - 1) {
        stale := true;
        return;
      }
    }
  }

  /** How an attempt ends: with a result, with the run reconciled, or with a failure to
      retry after. */
  datatype Verdict = Stop(result: WatchResult) | Reconciled | TryAgain(failure: Failure)

  /** The state a verdict leaves. */
  function Decided<V>(s: State<V>, verdict: Verdict): State<V> {
    match verdict
    case Stop(result) => Stopped(s, result)
    case Reconciled => s.(pc := Top)
    case TryAgain(failure) => s.(pc := Asking, failure := Some(failure))
  }

  /** Ask for the summary of the run and see what it settles. */
  method Reconcile<V>(w: World<V>, cursor: nat, t: seq<Action<V>>) returns (verdict: Verdict, trace: seq<Action<V>>)
    requires Follows(w, t) && At(w, |t|).pc == Fetching && At(w, |t|).cursor == cursor
    ensures Follows(w, trace) && At(w, |trace|) == Decided(At(w, |t|), verdict)
  {
    hide At, Follows, AttemptDelay, RecoveryElapsed, ElapsedSince, WatchOf, Listened, Ended, FailureOf, WindowOf;
    Extend(w, t, GetRun);
    trace := t + [GetRun];
    match w.env.run(|t|) {
      case Err(error) =>
        return TryAgain(error), trace;
      case Ok(details) =>
        Extend(w, trace, Check);
        trace := trace + [Check];
        if !w.env.current(|trace| - 1) {
          return Stop(Stale(cursor)), trace;
        }
        if details.runId != w.o.runId {
          return Stop(Error(cursor, Protocol(SummaryOfOtherRun))), trace;
        }
        if details.lastSequence < cursor {
          return Stop(Error(cursor, Protocol(SummaryBehind))), trace;
        }
        Extend(w, trace, OnHydrate(details));
        trace := trace + [OnHydrate(details)];
        Extend(w, trace, Check);
        trace := trace + [Check];
        if !w.env.current(|trace| - 1) {
          return Stop(Stale(cursor)), trace;
        }
        if details.terminal && details.lastSequence == cursor {
          return Stop(Complete(cursor)), trace;
        }
        return Reconciled, trace;
    }
  }

  /** One attempt, once it has been counted: wait, and reconcile. */
  method Retry<V>(w: World<V>, given: Window, cursor: nat, failure: Failure, t: seq<Action<V>>)
    returns (verdict: Verdict, window: Window, trace: seq<Action<V>>)
    requires Follows(w, t)
    requires var s := At(w, |t|);
             s.pc == Delaying && s.window == Some(given) && s.cursor == cursor && s.failure == Some(failure)
    ensures Follows(w, trace) && window.attempts == given.attempts
    ensures At(w, |trace|) == Decided(At(w, |t|).(window := Some(window)), verdict)
  {
    hide At, Follows, RecoveryDelay, RecoveryElapsed, ElapsedSince, WatchOf, Listened, Judged, Ended;
    Extend(w, t, Clock);
    trace := t + [Clock];
    var wait := MinReal(RecoveryDelay(given.attempts),
        w.o.deadlineMs as real - RecoveryElapsed(given, w.env.clock(|t|)));
    var stale;
    stale, window, trace := Wait(w, given, wait, trace);
    if stale {
      return Stop(Stale(cursor)), window, trace;
    }
    Extend(w, trace, Clock);
    trace := trace + [Clock];
    if RecoveryElapsed(window, w.env.clock(|trace| - 1)) > w.o.deadlineMs as real {
      return Stop(Error(cursor, failure)), window, trace;
    }
    Extend(w, trace, Check);
    trace := trace + [Check];
    if !w.env.current(|trace| - 1) {
      return Stop(Error(cursor, failure)), window, trace;
    }
    verdict, trace := Reconcile(w, cursor, trace);
  }

  /** The retry loop: attempts within the window until a summary is accepted. None means
      that the run was reconciled and is to be watched again. */
  method Recover<V>(w: World<V>, given: Option<Window>, cursor: nat, first: Failure, t: seq<Action<V>>)
    returns (stop: Option<WatchResult>, window: Option<Window>, trace: seq<Action<V>>)
    requires Follows(w, t)
    requires var s := At(w, |t|);
             s.pc == Asking && s.window == given && s.cursor == cursor && s.failure == Some(first)
    ensures Follows(w, trace)
    ensures stop.Some? ==> At(w, |trace|).pc == Done(stop.value)
    ensures stop.None? ==> var s := At(w, |trace|);
                           s.pc == Top && s.cursor == cursor && s.window == window && s.opens == At(w, |t|).opens
  {
    hide At, Follows;
    window, trace := given, t;
    var failure := first;
    while true
      invariant Follows(w, trace)
      invariant var s := At(w, |trace|);
                && s.pc == Asking && s.window == window && s.cursor == cursor && s.failure == Some(failure)
                && s.opens == At(w, |t|).opens
      decreases if window.Some? && window.value.attempts <= w.o.maxAttempts then w.o.maxAttempts - window.value.attempts
                else 0
    {
      Extend(w, trace, CanRecover(failure));
      trace := trace + [CanRecover(failure)];
      if !w.env.recoverable(|trace| - 1, failure) || window.None? || window.value.attempts >= w.o.maxAttempts {
        return Some(Error(cursor, failure)), window, trace;
      }
      Extend(w, trace, Clock);
      trace := trace + [Clock];
      if RecoveryElapsed(window.value, w.env.clock(|trace| - 1)) >= w.o.deadlineMs as real {
        return Some(Error(cursor, failure)), window, trace;
      }
      var verdict, next;
      verdict, next, trace := Retry(w, window.value.(attempts := window.value.attempts + 1), cursor, failure, trace);
      window := Some(next);
      match verdict {
        case Stop(result) =>
          return Some(result), window, trace;
        case Reconciled =>
          return None, window, trace;
        case TryAgain(error) =>
          failure := error;
      }
    }
    return Some(Error(cursor, failure)), window, trace;
  }

  /** One watch, and what its end means: a result, or a failure to recover from. */
  method WatchOnce<V>(w: World<V>, watch: Watch<V>, given: Option<Window>, start: nat, t: seq<Action<V>>)
    returns (stop: Option<WatchResult>, cursor: nat, failure: Failure, window: Option<Window>, trace: seq<Action<V>>)
    requires Follows(w, t)
    requires var s := At(w, |t|);
             && s.pc == Starting && s.cursor == start && s.window == given
             && s.opens < |w.watches| && w.watches[s.opens] == watch
    ensures Follows(w, trace)
    ensures stop.Some? ==> At(w, |trace|).pc == Done(stop.value)
    ensures stop.None? ==> var s := At(w, |trace|);
                           && s.pc == Classifying && s.cursor == cursor && s.failure == Some(failure)
                           && s.window == window && s.opens == At(w, |t|).opens + 1
  {
    hide At, Follows;
    window := given;
    Extend(w, t, Clock);
    var startedAt := w.env.clock(|t|);
    trace := t + [Clock];
    Extend(w, trace, Open(start));
    trace := trace + [Open(start)];
    var seen, activity;
    cursor, seen, activity, trace := Listen(w, watch, start, trace);
    failure := if seen.Some? then seen.value else Remote("");
    Extend(w, trace, Check);
    trace := trace + [Check];
    if !w.env.current(|trace| - 1) {
      return Some(Stale(cursor)), cursor, failure, window, trace;
    }
    if window.Some? {
      var lively := activity;
      if !lively {
        Extend(w, trace, Clock);
        trace := trace + [Clock];
        lively := ElapsedSince(startedAt, w.env.clock(|trace| - 1)) >= STABILITY_MS;
      }
      if lively {
        window := None;
      }
    }
    if seen.None? {
      return Some(Complete(cursor)), cursor, failure, window, trace;
    }
    return None, cursor, failure, window, trace;
  }

  method WatchDurableRun<V>(w: World<V>) returns (result: WatchResult, trace: seq<Action<V>>)
    ensures Follows(w, trace) && At(w, |trace|).pc == Done(result)
  {
    hide At, Follows;
    var cursor, window, k := w.o.start, None, 0;
    trace := [];
    Begin(w);
    while w.env.current(|trace|)
      invariant k <= |w.watches| && Follows(w, trace)
      invariant var s := At(w, |trace|); s.pc == Top && s.cursor == cursor && s.window == window && s.opens == k
      decreases |w.watches| - k
    {
      Extend(w, trace, Check);
      trace := trace + [Check];
      if k == |w.watches| {
        return WatchResult.Watching(cursor), trace;
      }
      var stop, failure;
      stop, cursor, failure, window, trace := WatchOnce(w, w.watches[k], window, cursor, trace);
      if stop.Some? {
        return stop.value, trace;
      }
      Extend(w, trace, CanRecover(failure));
      trace := trace + [CanRecover(failure)];
      if w.env.recoverable(|trace| - 1, failure) && window.None? {
        Extend(w, trace, Clock);
        window := Some(Window(w.env.clock(|trace|), 0.0, 0));
        trace := trace + [Clock];
      }
      stop, window, trace := Recover(w, window, cursor, failure, trace);
      if stop.Some? {
        return stop.value, trace;
      }
      k := k + 1;
    }
    Extend(w, trace, Check);
    trace := trace + [Check];
    return Stale(cursor), trace;
  }
}
