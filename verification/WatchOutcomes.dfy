/** What watchDurableRun comes to (apps/desktop/src/target-routing.ts): every call and every
    result is given exactly when it is due, a clean watch completes, a failed one recovers
    or ends with its failure, and a reconciled run is watched again. */
module WatchOutcomes {
  import opened Wrappers
  import opened DurableWatch
  import opened WatchGuarantees

  // ----- what went wrong -----

  /** What is wrong with an event at a cursor. */
  function Complaint<V>(o: Options, cursor: nat, e: Event<V>): Option<Failure> {
    match e
    case Errored(failure) => Some(failure)
    case Completed(runId) => if runId == o.runId then None else Some(Protocol(CompletedOtherRun))
    case Updated(u) =>
      if u.runId != o.runId then Some(Protocol(UpdatedOtherRun))
      else if u.sequence > cursor + 1 then Some(Protocol(NotContiguous))
      else None
  }

  /** The failure on record at a tick: the first complaint of the last watch while the route
      was current, else what the watch was rejected with, else - or later - the error of the
      last summary asked for. */
  function Fault<V>(w: World<V>, n: nat): Option<Failure> {
    if n == 0 then None
    else
      match Does(w, n - 1)
      case Some(Open(_)) => None
      case Some(Event(e)) =>
        if Fault(w, n - 1).Some? || !w.env.current(n - 1) then Fault(w, n - 1)
        else Complaint(w.o, At(w, n - 1).cursor, e)
      case Some(Settled(thrown)) => if Fault(w, n - 1).Some? then Fault(w, n - 1) else thrown
      case Some(GetRun) =>
        (match w.env.run(n - 1)
         case Err(failure) => Some(failure)
         case Ok(_) => Fault(w, n - 1))
      case _ => Fault(w, n - 1)
  }

  lemma {:induction false} FaultIsRecorded<V>(w: World<V>, n: nat)
    ensures At(w, n).pc.Opening? || At(w, n).failure == Fault(w, n)
  {
    hide At, After, Next;
    Begin(w);
    if n > 0 {
      FaultIsRecorded(w, n - 1);
      AtNext(w, n - 1);
      AlwaysWatched(w, n - 1);
      FaultStep(w, n - 1, At(w, n - 1), Fault(w, n - 1));
    }
  }

  lemma FaultStep<V>(w: World<V>, tick: nat, s: State<V>, seen: Option<Failure>)
    requires s.failure == if s.pc.Opening? then None else seen
    ensures var r := After(w, tick, s);
            var next := if s.pc.Done? then seen
                        else match Next(w, s)
                             case Open(_) => None
                             case Event(e) =>
                               if seen.Some? || !w.env.current(tick) then seen else Complaint(w.o, s.cursor, e)
                             case Settled(thrown) => if seen.Some? then seen else thrown
                             case GetRun => (match w.env.run(tick) case Err(f) => Some(f) case Ok(_) => seen)
                             case _ => seen;
            r.pc.Opening? || r.failure == next
  {
    hide AttemptDelay, RecoveryElapsed, ElapsedSince, WindowOf, FailureOf;
  }

  // ----- calls -----

  /** An update is passed on exactly when the event before it brings the next one of the
      run, on a current route and before anything has gone wrong. */
  lemma UpdatesExactlyWhen<V>(w: World<V>, n: nat, u: Update<V>)
    ensures Does(w, n + 1) == Some(OnUpdate(u))
       <==> && Does(w, n) == Some(Event(Updated(u))) && w.env.current(n) && Fault(w, n) == None
            && u.runId == w.o.runId && u.sequence == At(w, n).cursor + 1
  {
    hide At, After, Next, Fault;
    AtNext(w, n);
    FaultIsRecorded(w, n);
    UpdateDue(w, n, At(w, n), u);
  }

  lemma UpdateDue<V>(w: World<V>, tick: nat, s: State<V>, u: Update<V>)
    ensures var r := After(w, tick, s);
            (!r.pc.Done? && Next(w, r) == OnUpdate(u))
            <==> (&& s.pc.Listening? && Next(w, s) == Event(Updated(u)) && w.env.current(tick) && s.failure == None
                  && u.runId == w.o.runId && u.sequence == s.cursor + 1)
    ensures !s.pc.Done? && Next(w, s).Event? ==> s.pc.Listening?
  {
    hide AttemptDelay, RecoveryElapsed, ElapsedSince, WindowOf, FailureOf;
  }

  /** A summary is passed on exactly when it has just been read, is of the run and not
      behind the cursor, and the route is current. */
  lemma SummariesExactlyWhen<V>(w: World<V>, n: nat, d: Details)
    ensures Does(w, n + 1) == Some(OnHydrate(d))
       <==> && n > 0 && Does(w, n) == Some(Check) && Does(w, n - 1) == Some(GetRun) && w.env.run(n - 1) == Ok(d)
            && w.env.current(n) && d.runId == w.o.runId && d.lastSequence >= At(w, n).cursor
  {
    hide At, After, Next;
    Begin(w);
    AtNext(w, n);
    SummaryDue(w, n, At(w, n), d);
    if n > 0 {
      AtNext(w, n - 1);
      SummaryRead(w, n - 1, At(w, n - 1));
    }
  }

  lemma SummaryDue<V>(w: World<V>, tick: nat, s: State<V>, d: Details)
    ensures var r := After(w, tick, s);
            (!r.pc.Done? && Next(w, r) == OnHydrate(d))
            <==> s.pc == Summary(d) && w.env.current(tick) && d.runId == w.o.runId && d.lastSequence >= s.cursor
    ensures s.pc.Summary? ==> Next(w, s) == Check
  {
    hide AttemptDelay, RecoveryElapsed, ElapsedSince, WindowOf, FailureOf, React;
  }

  lemma SummaryRead<V>(w: World<V>, tick: nat, s: State<V>)
    ensures After(w, tick, s).pc.Summary?
       <==> !s.pc.Done? && Next(w, s) == GetRun && w.env.run(tick).Ok?
    ensures After(w, tick, s).pc.Summary? ==> w.env.run(tick) == Ok(After(w, tick, s).pc.details)
  {
    hide AttemptDelay, RecoveryElapsed, ElapsedSince, WindowOf, FailureOf, React;
  }

  // ----- activity and stability -----

  lemma {:induction false} ActivityIsKept<V>(w: World<V>, n: nat)
    ensures At(w, n).pc.Calling? ==> At(w, n).activity
    ensures At(w, n).pc.Judging? ==> !At(w, n).activity
    ensures InWatch(At(w, n).pc) && ActiveIn(w, LastOpen(w, n), n) ==> At(w, n).activity
  {
    hide At, After, LastOpen, Next;
    Begin(w);
    if n > 0 {
      ActivityIsKept(w, n - 1);
      AtNext(w, n - 1);
      OpenStep(w, n - 1);
      ActivityStep(w, n - 1, At(w, n - 1));
      if InWatch(At(w, n).pc) {
        InWatchStep(w, n - 1, At(w, n - 1));
      }
    }
  }

  lemma ActivityStep<V>(w: World<V>, tick: nat, s: State<V>)
    requires s.pc.Calling? ==> s.activity
    ensures var r := After(w, tick, s);
            && (r.pc.Calling? ==> r.activity) && (r.pc.Judging? ==> !r.activity)
            && (InWatch(s.pc) && InWatch(r.pc) && s.activity ==> r.activity)
            && (InWatch(r.pc) && !s.pc.Done? && Next(w, s).OnUpdate? ==> r.activity)
            && (InWatch(r.pc) && s.pc.Listening? && Next(w, s) == Event(Completed(w.o.runId)) ==>
                  w.env.current(tick) && s.failure == None ==> r.activity)
            && (!s.pc.Done? && Next(w, s).Event? ==> s.pc.Listening?)
            && (s.pc.Opening? ==> !s.pc.Done? && Next(w, s).Open?)
  {
    hide AttemptDelay, RecoveryElapsed, ElapsedSince, WindowOf, FailureOf;
  }

  /** A watch counts as active exactly when it has passed on an update or reported the run
      complete. */
  lemma ActivityExactlyWhen<V>(w: World<V>, n: nat)
    requires InWatch(At(w, n).pc) && !At(w, n).pc.Calling?
    ensures At(w, n).activity <==> ActiveIn(w, LastOpen(w, n), n)
  {
    hide At, LastOpen, ActiveIn;
    AlwaysWatched(w, n);
    ActivityIsKept(w, n);
  }

  /** The recovery window closes exactly when a watch that was active, or lasted five
      seconds by the clock, settles on a current route. */
  lemma WindowClosesExactlyWhen<V>(w: World<V>, n: nat)
    ensures Closes(w, n)
       <==> At(w, n).window.Some? && Lively(w, n) && (At(w, n).pc.Closing? ==> w.env.current(n))
  {
    hide At, After, LastOpen, ActiveIn, Next;
    AlwaysWatched(w, n);
    ActivityIsKept(w, n);
    AtNext(w, n);
    if At(w, n).window.Some? {
      ClosesDue(w, n, At(w, n));
    }
    if Closes(w, n) {
      WindowClosesOnEvidence(w, n);
    }
    if InWatch(At(w, n).pc) && !At(w, n).pc.Calling? {
      ActivityExactlyWhen(w, n);
    }
  }

  lemma ClosesDue<V>(w: World<V>, tick: nat, s: State<V>)
    requires s.window.Some?
    ensures After(w, tick, s).window.None?
       <==> || (s.pc.Closing? && w.env.current(tick) && s.activity)
            || (s.pc.Judging? && ElapsedSince(s.startedAt, w.env.clock(tick)) >= STABILITY_MS)
    ensures (s.pc.Closing? ==> Next(w, s) == Check) && (s.pc.Judging? ==> Next(w, s) == Clock)
  {
    hide AttemptDelay, RecoveryElapsed, FailureOf, React;
  }

  // ----- where the loop is, by what it has just done -----

  /** The watch has just settled; its route check comes next. */
  ghost predicate HasSettled<V>(w: World<V>, n: nat) {
    n > 0 && Does(w, n - 1).Some? && Does(w, n - 1).value.Settled?
  }

  /** The clock is read for the stability of a watch that has settled. */
  ghost predicate JudgesStability<V>(w: World<V>, n: nat) {
    n > 0 && Does(w, n) == Some(Clock) && HasSettled(w, n - 1)
  }

  ghost predicate HasClassified<V>(w: World<V>, n: nat) {
    n > 0 && Does(w, n - 1).Some? && Does(w, n - 1).value.CanRecover?
  }

  /** The loop asks whether to retry: after the first classification, after a new window
      has been opened for it, or after an attempt has failed. */
  ghost predicate AsksToRetry<V>(w: World<V>, n: nat) {
    && n > 0 && Does(w, n).Some? && Does(w, n).value.CanRecover?
    && (HasClassified(w, n) || Does(w, n - 1) == Some(GetRun)
        || (Does(w, n - 1) == Some(Clock) && HasClassified(w, n - 1)))
  }

  /** The clock is read before an attempt. */
  ghost predicate ReadsElapsed<V>(w: World<V>, n: nat) {
    Does(w, n) == Some(Clock) && HasClassified(w, n) && At(w, n).window.Some?
  }

  /** The clock is read after the delay of an attempt, or at once if there is none. */
  ghost predicate ReadsLate<V>(w: World<V>, n: nat) {
    && n > 1 && Does(w, n) == Some(Clock)
    && ((Does(w, n - 1) == Some(Check) && Does(w, n - 2).Some? && Does(w, n - 2).value.Delay?)
        || (Does(w, n - 1) == Some(Clock) && Does(w, n - 2) == Some(Clock)))
  }

  /** The route is checked between the delay of an attempt and its request. */
  ghost predicate ChecksLate<V>(w: World<V>, n: nat) {
    n > 0 && Does(w, n) == Some(Check) && Does(w, n - 1) == Some(Clock)
  }

  /** The route is checked before a watch. */
  ghost predicate ChecksFirst<V>(w: World<V>, n: nat) {
    Does(w, n) == Some(Check) && (n > 0 ==> Does(w, n - 1) == Some(Check))
  }

  /** What the step before a stage was, in a watch ... */
  lemma StageInWatch<V>(w: World<V>, tick: nat, s: State<V>)
    ensures var r := After(w, tick, s);
            && (r.pc.Closing? <==> !s.pc.Done? && Next(w, s).Settled?)
            && (r.pc.Judging? ==> s.pc.Closing?)
            && (r.pc.Classifying? ==> s.pc.Closing? || s.pc.Judging?)
            && (r.pc.Starting? ==> s.pc.Top?)
            && (r.pc.Top? ==> s.pc.Hydrated?)
  {
    hide AttemptDelay, RecoveryElapsed, ElapsedSince, WindowOf, FailureOf, React;
  }

  /** ... and between watches. */
  lemma StageBetween<V>(w: World<V>, tick: nat, s: State<V>)
    ensures var r := After(w, tick, s);
            && (r.pc.Elapsing? ==> s.pc.Asking? && s.window.Some? && r.window.Some?)
            && (r.pc.NewWindow? ==> s.pc.Classifying? && r.window.None?)
            && (r.pc.Asking? ==> s.pc.Classifying? || s.pc.NewWindow? || s.pc.Fetching?)
            && (r.pc.Delaying? ==> s.pc.Elapsing?)
            && (r.pc.Late? ==> s.pc.Delaying? || s.pc.SliceOver?)
            && (r.pc.SliceOver? ==> s.pc.Waiting?)
            && (r.pc.LateCheck? ==> s.pc.Late?)
            && (r.pc.Summary? ==> s.pc.Fetching?)
            && (r.pc.Hydrated? ==> s.pc == Hydrating(r.pc.details))
            && (s.pc.Hydrating? ==> r.pc == Hydrated(s.pc.details))
  {
    hide AttemptDelay, RecoveryElapsed, ElapsedSince, WindowOf, FailureOf, Listened, Next;
    if s.pc.Listening? {
      ListeningStep(w, w.env.current(tick), s);
    }
  }

  /** What is done in a stage. */
  lemma StageDoes<V>(w: World<V>, s: State<V>)
    requires !s.pc.Done?
    ensures match s.pc
            case Opening => Next(w, s).Open?
            case Listening => Next(w, s).Event? || Next(w, s).Settled?
            case Calling(u) => Next(w, s) == OnUpdate(u)
            case Waiting(_) => Next(w, s).Delay?
            case Fetching => Next(w, s) == GetRun
            case Hydrating(d) => Next(w, s) == OnHydrate(d)
            case Classifying => Next(w, s) == CanRecover(FailureOf(s))
            case Asking => Next(w, s) == CanRecover(FailureOf(s))
            case Top => Next(w, s) == Check
            case Closing => Next(w, s) == Check
            case SliceOver(_) => Next(w, s) == Check
            case LateCheck => Next(w, s) == Check
            case Summary(_) => Next(w, s) == Check
            case Hydrated(_) => Next(w, s) == Check
            case _ => Next(w, s) == Clock
  {
  }

  /** Each stage at which the loop may stop, by its trace. */
  lemma StagesExactlyWhen<V>(w: World<V>, n: nat)
    ensures At(w, n).pc.Closing? <==> HasSettled(w, n)
    ensures At(w, n).pc.Judging? <==> JudgesStability(w, n)
    ensures At(w, n).pc.Asking? <==> AsksToRetry(w, n)
    ensures At(w, n).pc.Elapsing? <==> ReadsElapsed(w, n)
    ensures At(w, n).pc.Late? <==> ReadsLate(w, n)
    ensures At(w, n).pc.LateCheck? <==> ChecksLate(w, n)
    ensures At(w, n).pc.Top? <==> ChecksFirst(w, n)
  {
    hide At, After, Next, FailureOf, InWatch, LastOpen;
    Begin(w);
    Recent(w, n);
    if n > 0 {
      Recent(w, n - 1);
      if n > 1 {
        Recent(w, n - 2);
      }
    }
  }

  /** What is done at a tick, and what led to it. */
  lemma Recent<V>(w: World<V>, n: nat)
    ensures var s := At(w, n);
            match s.pc
            case Opening => Does(w, n).Some? && Does(w, n).value.Open?
            case Listening => Does(w, n).Some? && (Does(w, n).value.Event? || Does(w, n).value.Settled?)
            case Calling(u) => Does(w, n) == Some(OnUpdate(u))
            case Waiting(_) => Does(w, n).Some? && Does(w, n).value.Delay?
            case Fetching => Does(w, n) == Some(GetRun)
            case Hydrating(d) => Does(w, n) == Some(OnHydrate(d))
            case Classifying => Does(w, n) == Some(CanRecover(FailureOf(s)))
            case Asking => Does(w, n) == Some(CanRecover(FailureOf(s)))
            case Top => Does(w, n) == Some(Check)
            case Closing => Does(w, n) == Some(Check)
            case SliceOver(_) => Does(w, n) == Some(Check)
            case LateCheck => Does(w, n) == Some(Check)
            case Summary(_) => Does(w, n) == Some(Check)
            case Hydrated(_) => Does(w, n) == Some(Check)
            case Done(_) => Does(w, n) == None
            case _ => Does(w, n) == Some(Clock)
    ensures var s, r := At(w, n), At(w, n + 1);
            && (r.pc.Closing? <==> Does(w, n).Some? && Does(w, n).value.Settled?)
            && (r.pc.Judging? ==> s.pc.Closing?)
            && (r.pc.Elapsing? ==> s.pc.Asking? && r.window.Some?)
            && (r.pc.NewWindow? ==> s.pc.Classifying? && r.window.None?)
            && (r.pc.Asking? ==> s.pc.Classifying? || s.pc.NewWindow? || s.pc.Fetching?)
            && (r.pc.Classifying? ==> s.pc.Closing? || s.pc.Judging?)
            && (r.pc.Delaying? ==> s.pc.Elapsing?)
            && (r.pc.Late? ==> s.pc.Delaying? || s.pc.SliceOver?)
            && (r.pc.SliceOver? ==> s.pc.Waiting?)
            && (r.pc.LateCheck? ==> s.pc.Late?)
            && (r.pc.Starting? ==> s.pc.Top?)
            && (r.pc.Top? ==> s.pc.Hydrated?)
            && (r.pc.Summary? ==> s.pc.Fetching?)
            && (r.pc.Hydrated? ==> s.pc == Hydrating(r.pc.details))
            && (s.pc.Hydrating? ==> r.pc == Hydrated(s.pc.details))
  {
    hide At, After, Next, FailureOf;
    AtNext(w, n);
    StageInWatch(w, n, At(w, n));
    StageBetween(w, n, At(w, n));
    if !At(w, n).pc.Done? {
      StageDoes(w, At(w, n));
    }
  }

  // ----- results -----

  /** Once something has gone wrong, it is on record until the run is watched again. */
  predicate Recovers<V>(pc: Pc<V>) {
    pc.Classifying? || pc.NewWindow? || pc.Asking? || pc.Elapsing? || Recovering(pc)
  }

  lemma {:induction false} FailuresAreKnown<V>(w: World<V>, n: nat)
    ensures Recovers(At(w, n).pc) ==> At(w, n).failure.Some?
  {
    hide At, After;
    Begin(w);
    if n > 0 {
      FailuresAreKnown(w, n - 1);
      AtNext(w, n - 1);
      KnownStep(w, n - 1, At(w, n - 1));
    }
  }

  lemma KnownStep<V>(w: World<V>, tick: nat, s: State<V>)
    requires Recovers(s.pc) ==> s.failure.Some?
    ensures Recovers(After(w, tick, s).pc) ==> After(w, tick, s).failure.Some?
  {
    hide AttemptDelay, RecoveryElapsed, ElapsedSince, WindowOf, FailureOf, Listened;
    if s.pc.Listening? {
      ListeningStep(w, w.env.current(tick), s);
    }
  }

  /** What has elapsed of the recovery window: the delays scheduled, or the clock. */
  function Elapsed<V>(w: World<V>, n: nat): real {
    var window := At(w, n).window;
    if window.None? then 0.0
    else MaxReal(window.value.scheduledDelayMs, ElapsedSince(window.value.startedAt, w.env.clock(n)))
  }

  /** The step at tick n gives this result. Stale: a route check fails, other than the one
      between a delay and its request. Complete: a watch settles on a current route with
      nothing wrong, and it was active, lasted, or no window is open to be closed by it; or
      the summary just passed on is terminal at the cursor. Error: what went wrong is not
      recoverable, the attempts or the deadline are spent, the route is gone before the
      request, or the summary just read is another run's or behind. Watching: the script of
      watches is over. */
  ghost predicate Due<V>(w: World<V>, n: nat, r: WatchResult) {
    var s, current := At(w, n), w.env.current(n);
    && r.cursor == s.cursor
    && match r
       case Stale(_) => Does(w, n) == Some(Check) && !current && !ChecksLate(w, n)
       case Complete(cursor) =>
         || (HasSettled(w, n) && current && Fault(w, n) == None
             && (s.window.None? || ActiveIn(w, LastOpen(w, n), n)))
         || (JudgesStability(w, n) && Fault(w, n) == None)
         || (n > 0 && current && Does(w, n - 1).Some? && Does(w, n - 1).value.OnHydrate?
             && Does(w, n - 1).value.details.terminal && Does(w, n - 1).value.details.lastSequence == cursor)
       case Error(cursor, failure) =>
         || (&& Fault(w, n) == Some(failure)
             && (|| (AsksToRetry(w, n) && (!w.env.recoverable(n, failure) || s.window.None?
                                           || s.window.value.attempts >= w.o.maxAttempts))
                 || (ReadsElapsed(w, n) && Elapsed(w, n) >= w.o.deadlineMs as real)
                 || (ReadsLate(w, n) && Elapsed(w, n) > w.o.deadlineMs as real)
                 || (ChecksLate(w, n) && !current)))
         || (&& n > 0 && current && Does(w, n - 1) == Some(GetRun) && w.env.run(n - 1).Ok?
             && var d := w.env.run(n - 1).value;
                if d.runId != w.o.runId then failure == Protocol(SummaryOfOtherRun)
                else d.lastSequence < cursor && failure == Protocol(SummaryBehind))
       case Watching(_) => ChecksFirst(w, n) && current && s.opens == |w.watches|
  }

  /** The same, read from the state. */
  ghost predicate Stops<V>(w: World<V>, tick: nat, s: State<V>, r: WatchResult) {
    var current := w.env.current(tick);
    && r.cursor == s.cursor
    && match r
       case Stale(_) =>
         !current && (s.pc.Top? || s.pc.Closing? || s.pc.SliceOver? || s.pc.Summary? || s.pc.Hydrated?)
       case Complete(cursor) =>
         || (s.pc.Closing? && current && s.failure == None && (s.window.None? || s.activity))
         || (s.pc.Judging? && s.failure == None)
         || (s.pc.Hydrated? && current && s.pc.details.terminal && s.pc.details.lastSequence == cursor)
       case Error(cursor, failure) =>
         || (&& failure == FailureOf(s)
             && (|| (s.pc.Asking? && (!w.env.recoverable(tick, failure) || s.window.None?
                                      || s.window.value.attempts >= w.o.maxAttempts))
                 || (s.pc.Elapsing? && RecoveryElapsed(WindowOf(s), w.env.clock(tick)) >= w.o.deadlineMs as real)
                 || (s.pc.Late? && RecoveryElapsed(WindowOf(s), w.env.clock(tick)) > w.o.deadlineMs as real)
                 || (s.pc.LateCheck? && !current)))
         || (&& s.pc.Summary? && current
             && if s.pc.details.runId != w.o.runId then failure == Protocol(SummaryOfOtherRun)
                else s.pc.details.lastSequence < cursor && failure == Protocol(SummaryBehind))
       case Watching(_) => s.pc.Top? && current && s.opens >= |w.watches|
  }

  lemma StopsExactlyWhen<V>(w: World<V>, tick: nat, s: State<V>, r: WatchResult)
    requires !s.pc.Done?
    ensures After(w, tick, s).pc == Done(r) <==> Stops(w, tick, s, r)
  {
    hide RecoveryElapsed, ElapsedSince, WindowOf, FailureOf, React, RecoveryDelay;
  }

  /** Every result is given exactly when it is due. */
  lemma ResultsExactlyWhen<V>(w: World<V>, n: nat, r: WatchResult)
    requires !At(w, n).pc.Done?
    ensures At(w, n + 1).pc == Done(r) <==> Due(w, n, r)
  {
    hide At, After, Next, Fault, LastOpen, ActiveIn, InWatch, ElapsedSince;
    AtNext(w, n);
    StopsExactlyWhen(w, n, At(w, n), r);
    ResultIsDue(w, n, r);
  }

  lemma ResultIsDue<V>(w: World<V>, n: nat, r: WatchResult)
    requires !At(w, n).pc.Done?
    ensures Stops(w, n, At(w, n), r) <==> Due(w, n, r)
  {
    hide At, After, Next, Fault, LastOpen, ActiveIn, ElapsedSince, HasSettled, JudgesStability, AsksToRetry,
         ReadsElapsed, ReadsLate, ChecksLate, ChecksFirst;
    StagesExactlyWhen(w, n);
    SummariesAreIn(w, n);
    FaultIsRecorded(w, n);
    FailuresAreKnown(w, n);
    BudgetHolds(w, n);
    OpensBounded(w, n);
    Recent(w, n);
    if At(w, n).pc.Closing? {
      ActivityExactlyWhen(w, n);
    }
  }

  /** The summary that is looked at, before and after it is passed on. */
  lemma SummariesAreIn<V>(w: World<V>, n: nat)
    ensures At(w, n).pc.Summary? <==> n > 0 && Does(w, n - 1) == Some(GetRun) && w.env.run(n - 1).Ok?
    ensures At(w, n).pc.Summary? ==> At(w, n).pc.details == w.env.run(n - 1).value
    ensures At(w, n).pc.Hydrated? <==> n > 0 && Does(w, n - 1).Some? && Does(w, n - 1).value.OnHydrate?
    ensures At(w, n).pc.Hydrated? ==> At(w, n).pc.details == Does(w, n - 1).value.details
  {
    hide At, After, Next;
    Begin(w);
    if n > 0 {
      AtNext(w, n - 1);
      SummaryRead(w, n - 1, At(w, n - 1));
      Recent(w, n - 1);
    }
  }

  // ----- where a watch leads -----

  ghost predicate CurrentFrom(env: Environment, n: nat) {
    forall t :: n <= t ==> env.current(t)
  }

  lemma ListensOn<V>(w: World<V>, tick: nat, s: State<V>)
    requires s.pc.Listening? || s.pc.Calling?
    ensures var r, events := After(w, tick, s), WatchOf(w, s).events;
            && r.opens == s.opens && r.startedAt == s.startedAt && r.window == s.window
            && (s.pc.Calling? ==> r.pc.Listening? && r.handled == s.handled)
            && (s.pc.Listening? && s.handled < |events| ==>
                  (r.pc.Listening? || r.pc.Calling?) && r.handled == s.handled + 1)
            && (s.pc.Listening? && s.handled >= |events| ==> r.pc.Closing? && r.handled == s.handled)
  {
    hide React;
  }

  /** A watch hears all of its events, each in one tick or two, and settles. */
  lemma {:induction false} WatchesSettle<V>(w: World<V>, n: nat) returns (k: nat)
    requires (At(w, n).pc.Listening? || At(w, n).pc.Calling?) && At(w, n).handled <= |WatchOf(w, At(w, n)).events|
    ensures n < k
    ensures k <= n + 2 * (|WatchOf(w, At(w, n)).events| - At(w, n).handled) + (if At(w, n).pc.Calling? then 2 else 1)
    ensures At(w, k).pc.Closing? && At(w, k).opens == At(w, n).opens && LastOpen(w, k) == LastOpen(w, n)
    decreases 2 * (|WatchOf(w, At(w, n)).events| - At(w, n).handled) + (if At(w, n).pc.Calling? then 1 else 0)
  {
    hide At, After, LastOpen;
    AtNext(w, n);
    OpenStep(w, n);
    ListensOn(w, n, At(w, n));
    k := n + 1;
    if !At(w, n + 1).pc.Closing? {
      k := WatchesSettle(w, n + 1);
    }
  }

  /** Where a watch leads on a route that stays current: nothing wrong in its events or at
      its end completes the run at the cursor its events lead to; else the first failure is
      classified there. */
  lemma WatchesLead<V>(w: World<V>, m: nat) returns (n: nat)
    requires At(w, m).pc.Opening? && At(w, m).opens < |w.watches| && CurrentFrom(w.env, m)
    ensures var watch := w.watches[At(w, m).opens];
            var (d, complaint) := Digest(w.o, At(w, m).cursor, watch.events);
            var failure := if complaint.Some? then complaint else watch.thrown;
            && m < n <= m + 2 * |watch.events| + 5
            && (failure.None? ==> At(w, n).pc == Done(Complete(d)))
            && (failure.Some? ==> At(w, n).pc.Classifying? && Does(w, n) == Some(CanRecover(failure.value))
                                  && At(w, n).cursor == d && At(w, n).opens == At(w, m).opens + 1)
  {
    hide At, After, LastOpen, Next, Digest;
    AtNext(w, m);
    OpenStep(w, m);
    OpensStep(w, m, At(w, m));
    var k := WatchesSettle(w, m + 1);
    AlwaysWatched(w, k);
    WatchesDigest(w, k);
    var events := w.watches[At(w, m).opens].events;
    assert events[..|events|] == events;
    n := SettledLeads(w, k);
  }

  lemma OpensStep<V>(w: World<V>, tick: nat, s: State<V>)
    requires s.pc.Opening?
    ensures var r := After(w, tick, s); r.pc.Listening? && r.handled == 0 && r.opens == s.opens + 1
  {
  }

  lemma SettledLeads<V>(w: World<V>, k: nat) returns (n: nat)
    requires At(w, k).pc.Closing? && CurrentFrom(w.env, k)
    ensures k < n <= k + 2
    ensures var s, r := At(w, k), At(w, n);
            && (s.failure.None? ==> r.pc == Done(Complete(s.cursor)))
            && (s.failure.Some? ==> && r.pc.Classifying? && Does(w, n) == Some(CanRecover(s.failure.value))
                                    && r.cursor == s.cursor && r.opens == s.opens)
  {
    hide At, After, Next;
    AtNext(w, k);
    SettledStep(w, k, At(w, k));
    n := k + 1;
    if At(w, k + 1).pc.Judging? {
      AtNext(w, k + 1);
      SettledStep(w, k + 1, At(w, k + 1));
      n := k + 2;
    }
    Recent(w, n);
  }

  lemma SettledStep<V>(w: World<V>, tick: nat, s: State<V>)
    requires (s.pc.Closing? && w.env.current(tick)) || s.pc.Judging?
    ensures var r := After(w, tick, s);
            && r.cursor == s.cursor && r.failure == s.failure && r.opens == s.opens
            && ((s.pc.Closing? && r.pc.Judging?)
                || (if s.failure.None? then r.pc == Done(Complete(s.cursor)) else r.pc.Classifying?))
  {
    hide ElapsedSince;
  }

  // ----- recovery -----

  /** A failure that is not recoverable ends the watch with that failure. */
  lemma UnrecoverableEnds<V>(w: World<V>, n: nat, failure: Failure)
    requires At(w, n).pc.Classifying? && Does(w, n) == Some(CanRecover(failure))
    requires !w.env.recoverable(n, failure) && !w.env.recoverable(n + 1, failure)
    ensures At(w, n + 2).pc == Done(Error(At(w, n).cursor, failure))
  {
    hide At, After;
    FailuresAreKnown(w, n);
    AtNext(w, n);
    AtNext(w, n + 1);
    ClassifiedStep(w, n, At(w, n));
    StopsExactlyWhen(w, n + 1, At(w, n + 1), Error(At(w, n).cursor, failure));
  }

  lemma ClassifiedStep<V>(w: World<V>, tick: nat, s: State<V>)
    requires s.pc.Classifying?
    ensures var r := After(w, tick, s);
            && r.cursor == s.cursor && r.failure == s.failure && r.window == s.window
            && (if w.env.recoverable(tick, FailureOf(s)) && s.window.None? then r.pc.NewWindow? else r.pc.Asking?)
  {
  }

  /** A recoverable failure opens a window at a reading of the clock, with no attempts and
      no delays yet, unless one is open; then the loop asks again. */
  lemma RecoverableOpensAWindow<V>(w: World<V>, n: nat, failure: Failure)
    requires At(w, n).pc.Classifying? && Does(w, n) == Some(CanRecover(failure)) && w.env.recoverable(n, failure)
    ensures var s, k := At(w, n), if At(w, n).window.None? then n + 2 else n + 1;
            && At(w, k).pc.Asking? && Does(w, k) == Some(CanRecover(failure)) && At(w, k).cursor == s.cursor
            && At(w, k).window == if s.window.None? then Some(Window(w.env.clock(n + 1), 0.0, 0)) else s.window
  {
    hide At, After;
    FailuresAreKnown(w, n);
    AtNext(w, n);
    ClassifiedStep(w, n, At(w, n));
    if At(w, n).window.None? {
      AtNext(w, n + 1);
      WindowOpens(w, n + 1, At(w, n + 1));
    }
  }

  lemma WindowOpens<V>(w: World<V>, tick: nat, s: State<V>)
    requires s.pc.NewWindow?
    ensures After(w, tick, s) == s.(pc := Asking, window := Some(Window(w.env.clock(tick), 0.0, 0)))
  {
  }

  /** A recoverable failure within the attempts and the deadline, on a route that stays
      current, is one more attempt: after its delay a summary is asked for, unless the delay
      has used up the deadline. */
  lemma AttemptsAreMade<V>(w: World<V>, n: nat, failure: Failure) returns (m: nat)
    requires At(w, n).pc.Asking? && Does(w, n) == Some(CanRecover(failure)) && w.env.recoverable(n, failure)
    requires CurrentFrom(w.env, n) && At(w, n).window.Some?
    requires At(w, n).window.value.attempts < w.o.maxAttempts && Elapsed(w, n + 1) < w.o.deadlineMs as real
    ensures m > n && At(w, m).window.Some? && At(w, m).cursor == At(w, n).cursor
    ensures At(w, m).window.value.attempts == At(w, n).window.value.attempts + 1
    ensures Does(w, m) == Some(GetRun) || (ReadsLate(w, m) && Elapsed(w, m) > w.o.deadlineMs as real)
  {
    hide At, After, RecoveryElapsed, ElapsedSince, RecoveryDelay, Next;
    FailuresAreKnown(w, n);
    AtNext(w, n);
    AtNext(w, n + 1);
    AskingIs(w, At(w, n));
    AttemptStep(w, n, At(w, n));
    ElapsedIs(w, n + 1);
    AttemptStep(w, n + 1, At(w, n + 1));
    m := DelaysEnd(w, n + 2);
    StagesExactlyWhen(w, m);
    ElapsedIs(w, m);
    if Elapsed(w, m) <= w.o.deadlineMs as real {
      AtNext(w, m);
      AtNext(w, m + 1);
      LateStep(w, m, At(w, m));
      LateStep(w, m + 1, At(w, m + 1));
      m := m + 2;
      Recent(w, m);
    }
  }

  lemma AskingIs<V>(w: World<V>, s: State<V>)
    requires s.pc.Asking?
    ensures Next(w, s) == CanRecover(FailureOf(s))
  {
  }

  lemma ElapsedIs<V>(w: World<V>, n: nat)
    requires At(w, n).window.Some?
    ensures Elapsed(w, n) == RecoveryElapsed(At(w, n).window.value, w.env.clock(n))
  {
    hide At, ElapsedSince;
  }

  lemma AttemptStep<V>(w: World<V>, tick: nat, s: State<V>)
    requires s.window.Some?
    requires || (s.pc.Asking? && w.env.recoverable(tick, FailureOf(s)) && s.window.value.attempts < w.o.maxAttempts)
             || (s.pc.Elapsing? && RecoveryElapsed(s.window.value, w.env.clock(tick)) < w.o.deadlineMs as real)
    ensures After(w, tick, s)
         == if s.pc.Asking? then s.(pc := Elapsing)
            else
              s.(pc := Delaying, window := Some(s.window.value.(attempts := s.window.value.attempts + 1)))
  {
    hide RecoveryElapsed;
  }

  lemma LateStep<V>(w: World<V>, tick: nat, s: State<V>)
    requires s.window.Some?
    requires || (s.pc.Late? && RecoveryElapsed(s.window.value, w.env.clock(tick)) <= w.o.deadlineMs as real)
             || (s.pc.LateCheck? && w.env.current(tick))
    ensures After(w, tick, s) == s.(pc := if s.pc.Late? then LateCheck else Fetching)
  {
    hide RecoveryElapsed;
  }

  /** A delay ends, with nothing changed but what has been scheduled. */
  lemma {:induction false} DelaysEnd<V>(w: World<V>, n: nat) returns (m: nat)
    requires At(w, n).pc.Delaying? || (At(w, n).pc.Waiting? && At(w, n).pc.remaining > 0.0)
    requires At(w, n).window.Some? && CurrentFrom(w.env, n)
    ensures m > n && At(w, m).pc.Late? && At(w, m).cursor == At(w, n).cursor
    ensures At(w, m).window.Some? && At(w, m).window.value.attempts == At(w, n).window.value.attempts
    decreases At(w, n).pc.Delaying?, if At(w, n).pc.Waiting? then At(w, n).pc.remaining.Floor else 0
  {
    hide At, After;
    AtNext(w, n);
    DelayStep(w, n, At(w, n));
    if At(w, n).pc.Delaying? {
      m := n + 1;
      if At(w, m).pc.Waiting? {
        m := DelaysEnd(w, m);
      }
    } else {
      AtNext(w, n + 1);
      DelayStep(w, n + 1, At(w, n + 1));
      m := n + 2;
      if At(w, m).pc.Waiting? {
        m := DelaysEnd(w, m);
      }
    }
  }

  lemma DelayStep<V>(w: World<V>, tick: nat, s: State<V>)
    requires s.window.Some? && w.env.current(tick)
    requires s.pc.Delaying? || s.pc.Waiting? || s.pc.SliceOver?
    ensures var r := After(w, tick, s);
            && r.cursor == s.cursor && r.window.Some? && r.window.value.attempts == s.window.value.attempts
            && (s.pc.Delaying? ==> r.pc.Late? || (r.pc.Waiting? && r.pc.remaining > 0.0))
            && (s.pc.Waiting? ==> r.pc == SliceOver(s.pc.remaining - MinReal(s.pc.remaining, ROUTE_CHECK_MS)))
            && (s.pc.SliceOver? ==> r.pc == if s.pc.remaining > 0.0 then Waiting(s.pc.remaining) else Late)
  {
    hide RecoveryElapsed, RecoveryDelay;
  }

  /** The delays double from a quarter of a second to four, and then are five. */
  lemma DelaysDouble(attempt: nat)
    requires attempt > 0
    ensures RecoveryDelay(attempt)
         == match attempt
            case 1 => 250.0
            case 2 => 500.0
            case 3 => 1000.0
            case 4 => 2000.0
            case 5 => 4000.0
            case _ => 5000.0
  {
  }

  /** A summary that cannot be read is one more failure to ask about. */
  lemma FailedReadsAskAgain<V>(w: World<V>, n: nat)
    requires Does(w, n) == Some(GetRun) && w.env.run(n).Err?
    ensures Does(w, n + 1) == Some(CanRecover(w.env.run(n).error)) && AsksToRetry(w, n + 1)
    ensures At(w, n + 1).cursor == At(w, n).cursor && At(w, n + 1).window == At(w, n).window
  {
    hide At, After, Next;
    AtNext(w, n);
    FailedRead(w, n, At(w, n));
    StagesExactlyWhen(w, n + 1);
    Recent(w, n + 1);
  }

  lemma FailedRead<V>(w: World<V>, tick: nat, s: State<V>)
    requires !s.pc.Done? && Next(w, s) == GetRun && w.env.run(tick).Err?
    ensures After(w, tick, s) == s.(pc := Asking, failure := Some(w.env.run(tick).error))
  {
  }

  /** A terminal summary at the cursor, passed on over a current route, completes the run. */
  lemma TerminalSummaryCompletes<V>(w: World<V>, n: nat, d: Details)
    requires Does(w, n) == Some(OnHydrate(d)) && w.env.current(n + 1)
    requires d.terminal && d.lastSequence == At(w, n).cursor
    ensures At(w, n + 2).pc == Done(Complete(At(w, n).cursor))
  {
    hide At, After, Next;
    AtNext(w, n);
    AtNext(w, n + 1);
    HydratingStep(w, n, At(w, n));
    StopsExactlyWhen(w, n + 1, At(w, n + 1), Complete(At(w, n).cursor));
  }

  lemma HydratingStep<V>(w: World<V>, tick: nat, s: State<V>)
    requires !s.pc.Done? && Next(w, s).OnHydrate?
    ensures s.pc == Hydrating(Next(w, s).details) && After(w, tick, s) == s.(pc := Hydrated(s.pc.details))
  {
  }

  /** After any other summary the run is watched again, from the same cursor and with the
      same window. */
  lemma ReconciledRunsAreWatched<V>(w: World<V>, n: nat, d: Details)
    requires Does(w, n) == Some(OnHydrate(d)) && !(d.terminal && d.lastSequence == At(w, n).cursor)
    requires w.env.current(n + 1) && w.env.current(n + 2) && At(w, n).opens < |w.watches|
    ensures Does(w, n + 3) == Some(Clock) && Does(w, n + 4) == Some(Open(At(w, n).cursor))
    ensures At(w, n + 4).window == At(w, n).window && At(w, n + 4).opens == At(w, n).opens
  {
    hide At, After, Next;
    AtNext(w, n);
    AtNext(w, n + 1);
    AtNext(w, n + 2);
    AtNext(w, n + 3);
    HydratingStep(w, n, At(w, n));
    AgainStep(w, n + 1, At(w, n + 1));
    AgainStep(w, n + 2, At(w, n + 2));
    AgainStep(w, n + 3, At(w, n + 3));
    Recent(w, n + 3);
    OpeningIs(w, At(w, n + 4));
  }

  lemma AgainStep<V>(w: World<V>, tick: nat, s: State<V>)
    requires s.pc.Starting? || w.env.current(tick)
    requires || (s.pc.Hydrated? && !(s.pc.details.terminal && s.pc.details.lastSequence == s.cursor))
             || (s.pc.Top? && s.opens < |w.watches|)
             || s.pc.Starting?
    ensures var r := After(w, tick, s);
            && r.cursor == s.cursor && r.window == s.window && r.opens == s.opens
            && r.pc == if s.pc.Hydrated? then Top else if s.pc.Top? then Starting else Opening
  {
  }

  lemma OpeningIs<V>(w: World<V>, s: State<V>)
    requires s.pc.Opening?
    ensures Next(w, s) == Open(s.cursor)
  {
  }

  /** The first watch, if the route is current, is opened after the first cursor. */
  lemma FirstWatchOpens<V>(w: World<V>)
    requires w.env.current(0) && w.watches != []
    ensures Does(w, 0) == Some(Check) && Does(w, 1) == Some(Clock) && Does(w, 2) == Some(Open(w.o.start))
  {
    hide At, After, Next;
    Begin(w);
    AtNext(w, 0);
    AtNext(w, 1);
    AgainStep(w, 0, At(w, 0));
    AgainStep(w, 1, At(w, 1));
    Recent(w, 0);
    Recent(w, 1);
    OpeningIs(w, At(w, 2));
  }
}
