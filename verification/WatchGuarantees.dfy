/** What the protocol of watchDurableRun guarantees on every run
    (apps/desktop/src/target-routing.ts): a contiguous feed, calls only on a current route,
    a recovery budget, results given for a reason, and a complete log at the end. */
module WatchGuarantees {
  import opened Wrappers
  import opened DurableWatch
  import Routes = TargetRoutes

  /** What is asked or called at a tick, before the loop is done. */
  function Does<V>(w: World<V>, n: nat): Option<Action<V>> {
    if At(w, n).pc.Done? then None else Some(Next(w, At(w, n)))
  }

  lemma AtNext<V>(w: World<V>, n: nat)
    ensures At(w, n + 1) == After(w, n, At(w, n))
  {
  }

  lemma {:induction false} StaysDone<V>(w: World<V>, n: nat, m: nat)
    requires At(w, n).pc.Done? && n <= m
    ensures At(w, m) == At(w, n)
  {
    hide At;
    if n < m {
      StaysDone(w, n, m - 1);
      AtNext(w, m - 1);
    }
  }

  // ----- the feed -----

  function Updates<V>(t: seq<Action<V>>): seq<Update<V>> {
    if t == [] then []
    else
      var n := |t| - 1;
      Updates(t[..n]) + (if t[n].OnUpdate? then [t[n].update] else [])
  }

  ghost predicate Offered<V>(watches: seq<Watch<V>>, update: Update<V>) {
    exists i, j :: 0 <= i < |watches| && 0 <= j < |watches[i].events| && watches[i].events[j] == Updated(update)
  }

  /** k updates have been passed on. */
  ghost predicate Passed<V>(w: World<V>, s: State<V>, k: nat) {
    match s.pc
    case Calling(u) =>
      s.cursor == w.o.start + k + 1 && u.runId == w.o.runId && u.sequence == s.cursor && Offered(w.watches, u)
    case Done(result) => s.cursor == w.o.start + k && result.cursor == s.cursor
    case _ => s.cursor == w.o.start + k
  }

  lemma PassesOn<V>(w: World<V>, tick: nat, s: State<V>, k: nat)
    requires Passed(w, s, k) && !s.pc.Done?
    ensures Passed(w, After(w, tick, s), if s.pc.Calling? then k + 1 else k)
  {
    if s.pc.Listening? && s.handled < |WatchOf(w, s).events| && WatchOf(w, s).events[s.handled].Updated? {
      var e := WatchOf(w, s).events[s.handled];
      assert w.watches[s.opens - 1].events[s.handled] == Updated(e.update);
    }
  }

  /** The updates passed on are those after the first cursor, each once and in order; the
      cursor, and any result, counts them. */
  lemma {:induction false} FeedIsContiguous<V>(w: World<V>, t: seq<Action<V>>)
    requires Follows(w, t)
    ensures Passed(w, At(w, |t|), |Updates(t)|)
    ensures forall i :: 0 <= i < |Updates(t)| ==>
              && Updates(t)[i].runId == w.o.runId && Updates(t)[i].sequence == w.o.start + 1 + i
              && Offered(w.watches, Updates(t)[i])
  {
    if t != [] {
      var n := |t| - 1;
      FeedIsContiguous(w, t[..n]);
      PassesOn(w, n, At(w, n), |Updates(t[..n])|);
    }
  }

  /** Every watch is opened after what has been passed on. */
  lemma WatchesResume<V>(w: World<V>, t: seq<Action<V>>, i: nat)
    requires Follows(w, t) && i < |t| && t[i].Open?
    ensures t[i].after == w.o.start + |Updates(t[..i])|
  {
    FollowsAt(w, t, i);
    FollowsPrefix(w, t, i);
    FeedIsContiguous(w, t[..i]);
  }

  lemma {:induction false} FollowsPrefix<V>(w: World<V>, t: seq<Action<V>>, i: nat)
    requires Follows(w, t) && i <= |t|
    ensures Follows(w, t[..i])
    decreases |t|
  {
    if i < |t| {
      FollowsPrefix(w, t[..|t| - 1], i);
      assert t[..|t| - 1][..i] == t[..i];
    } else {
      assert t[..i] == t;
    }
  }

  ghost predicate OfLog<V>(u: Update<V>, log: seq<V>) {
    1 <= u.sequence <= |log| && u.value == log[u.sequence - 1]
  }

  ghost predicate Honest<V(!new)>(w: World<V>, log: seq<V>) {
    forall u :: Offered(w.watches, u) && u.runId == w.o.runId && u.sequence > 0 ==> OfLog(u, log)
  }

  function Values<V>(updates: seq<Update<V>>): seq<V> {
    seq(|updates|, i requires 0 <= i < |updates| => updates[i].value)
  }

  /** If the watches only offer updates of a log, what is passed on is the log between the
      first cursor and the present one. */
  lemma FeedIsExactlyOnce<V(!new)>(w: World<V>, t: seq<Action<V>>, log: seq<V>)
    requires Follows(w, t) && Honest(w, log) && w.o.start <= |log|
    ensures w.o.start + |Updates(t)| <= |log|
    ensures Values(Updates(t)) == log[w.o.start..w.o.start + |Updates(t)|]
  {
    FeedIsContiguous(w, t);
    var ups := Updates(t);
    forall i | 0 <= i < |ups| ensures OfLog(ups[i], log) && ups[i].sequence == w.o.start + 1 + i {
      assert Offered(w.watches, ups[i]);
    }
    SliceOfLog(ups, log, w.o.start);
  }

  lemma SliceOfLog<V>(updates: seq<Update<V>>, log: seq<V>, start: nat)
    requires start <= |log|
    requires forall i :: 0 <= i < |updates| ==> OfLog(updates[i], log) && updates[i].sequence == start + 1 + i
    ensures start + |updates| <= |log| && Values(updates) == log[start..start + |updates|]
  {
    if updates != [] {
      assert OfLog(updates[|updates| - 1], log);
    }
  }

  // ----- the fence -----

  /** An update is passed on one tick after the event that brought it, whose route check
      held; a summary one tick after a route check that held, and two after it was read. */
  lemma CallsFollowChecks<V>(w: World<V>, n: nat)
    requires Does(w, n).Some?
    ensures Does(w, n).value.OnUpdate? ==>
              n > 0 && Does(w, n - 1) == Some(Event(Updated(Does(w, n).value.update))) && w.env.current(n - 1)
    ensures Does(w, n).value.OnHydrate? ==>
              && n > 1 && Does(w, n - 1) == Some(Check) && w.env.current(n - 1)
              && Does(w, n - 2) == Some(GetRun) && w.env.run(n - 2) == Ok(Does(w, n).value.details)
              && Does(w, n).value.details.runId == w.o.runId
              && Does(w, n).value.details.lastSequence >= At(w, n).cursor
  {
    hide At, After;
    Begin(w);
    if At(w, n).pc.Calling? {
      AtNext(w, n - 1);
      CalledBy(w, n - 1, At(w, n - 1));
    } else if At(w, n).pc.Hydrating? {
      AtNext(w, n - 1);
      HydratedBy(w, n - 1, At(w, n - 1));
      AtNext(w, n - 2);
      SummaryBy(w, n - 2, At(w, n - 2));
    }
  }

  lemma CalledBy<V>(w: World<V>, tick: nat, s: State<V>)
    requires After(w, tick, s).pc.Calling?
    ensures s.pc.Listening? && Next(w, s) == Event(Updated(After(w, tick, s).pc.update)) && w.env.current(tick)
  {
  }

  lemma HydratedBy<V>(w: World<V>, tick: nat, s: State<V>)
    requires After(w, tick, s).pc.Hydrating?
    ensures && s.pc == Summary(After(w, tick, s).pc.details) && w.env.current(tick)
            && s.pc.details.runId == w.o.runId && s.pc.details.lastSequence >= s.cursor
            && After(w, tick, s).cursor == s.cursor
  {
  }

  lemma SummaryBy<V>(w: World<V>, tick: nat, s: State<V>)
    requires After(w, tick, s).pc.Summary?
    ensures s.pc.Fetching? && w.env.run(tick) == Ok(After(w, tick, s).pc.details)
  {
  }

  /** The route check of a watch, asked of a registry that has seen more and more operations. */
  ghost predicate ChecksRegistry(env: Environment, route: Routes.TargetRoute, seen: nat -> seq<Routes.Op>) {
    && (forall t :: env.current(t) == Routes.ApplyAll(Routes.Initial, seen(t)).IsCurrent(route))
    && (forall s, t :: 0 <= s <= t ==> seen(s) <= seen(t))
  }

  /** Once false, the route check stays false. */
  ghost predicate Fenced(env: Environment) {
    forall s, t :: 0 <= s <= t && env.current(t) ==> env.current(s)
  }

  lemma RegistryFences(env: Environment, route: Routes.TargetRoute, seen: nat -> seq<Routes.Op>)
    requires ChecksRegistry(env, route, seen) && env.current(0)
    ensures Fenced(env)
  {
    forall s, t | 0 <= s <= t && env.current(t) ensures env.current(s) {
      var a, b, c := seen(0), seen(s), seen(t);
      if !env.current(s) {
        Routes.GenerationsRise(Routes.Initial, a);
        assert b == a + b[|a|..] && c == a + (b[|a|..] + c[|b|..]);
        Routes.ApplyAppend(Routes.Initial, a, b[|a|..]);
        Routes.ApplyAppend(Routes.Initial, a, b[|a|..] + c[|b|..]);
        Routes.NeverCurrentAgain(Routes.ApplyAll(Routes.Initial, a), route, b[|a|..], c[|b|..]);
      }
    }
  }

  /** From the tick at which the registry has moved on, no update and no summary is passed
      on at any later tick, whatever the registry is asked to do afterwards. */
  lemma StaleFence<V>(w: World<V>, t: seq<Action<V>>, route: Routes.TargetRoute, seen: nat -> seq<Routes.Op>, gone: nat)
    requires Follows(w, t) && ChecksRegistry(w.env, route, seen) && w.env.current(0) && !w.env.current(gone)
    ensures forall i :: gone < i < |t| ==> !t[i].OnUpdate? && !t[i].OnHydrate?
  {
    RegistryFences(w.env, route, seen);
    forall i | gone < i < |t| ensures !t[i].OnUpdate? && !t[i].OnHydrate? {
      FollowsAt(w, t, i);
      CallsFollowChecks(w, i);
    }
  }

  // ----- what a watch has shown -----

  /** The tick at which the last watch before tick n was opened. */
  function LastOpen<V>(w: World<V>, n: nat): nat {
    if n == 0 then 0 else if At(w, n - 1).pc.Opening? then n - 1 else LastOpen(w, n - 1)
  }

  /** An update is passed on, or the watched run is reported complete on a current route
      before anything has gone wrong. */
  ghost predicate ActiveAt<V>(w: World<V>, n: nat) {
    Does(w, n).Some?
    && (|| Does(w, n).value.OnUpdate?
        || (Does(w, n).value == Event(Completed(w.o.runId)) && w.env.current(n) && At(w, n).failure == None))
  }

  ghost predicate ActiveIn<V>(w: World<V>, from: nat, to: nat) {
    exists n :: from <= n < to && ActiveAt(w, n)
  }

  predicate InWatch<V>(pc: Pc<V>) {
    pc.Listening? || pc.Calling? || pc.Closing? || pc.Judging?
  }

  /** A watch is open since tick m. */
  ghost predicate OpenSince<V>(w: World<V>, m: nat, s: State<V>) {
    && m > 0 && At(w, m).pc.Opening? && Does(w, m - 1) == Some(Clock) && s.startedAt == w.env.clock(m - 1)
    && s.opens == At(w, m).opens + 1 && s.window == At(w, m).window
  }

  ghost predicate ReadyToOpen<V>(w: World<V>, n: nat, s: State<V>) {
    n > 0 && Does(w, n - 1) == Some(Clock) && s.startedAt == w.env.clock(n - 1) && !s.activity && s.failure == None
  }

  ghost predicate Watched<V>(w: World<V>, n: nat) {
    var s, m := At(w, n), LastOpen(w, n);
    && (s.pc.Opening? ==> ReadyToOpen(w, n, s))
    && (InWatch(s.pc) ==> m < n && OpenSince(w, m, s) && (s.activity && !s.pc.Calling? ==> ActiveIn(w, m, n)))
  }

  lemma OpeningStep<V>(w: World<V>, tick: nat, s: State<V>)
    requires After(w, tick, s).pc.Opening?
    ensures var r := After(w, tick, s);
            s.pc.Starting? && r.startedAt == w.env.clock(tick) && !r.activity && r.failure == None
  {
  }

  lemma InWatchStep<V>(w: World<V>, tick: nat, s: State<V>)
    requires InWatch(After(w, tick, s).pc)
    ensures var r := After(w, tick, s);
            && (InWatch(s.pc) || s.pc.Opening?)
            && r.startedAt == s.startedAt && r.window == s.window
            && r.opens == s.opens + (if s.pc.Opening? then 1 else 0)
  {
    hide AttemptDelay, RecoveryElapsed, ElapsedSince, React, WatchOf, WindowOf, FailureOf;
  }

  /** Activity is seen at a step only if it was seen before or is shown by the step. */
  lemma ActiveStep<V>(w: World<V>, tick: nat, s: State<V>)
    requires InWatch(After(w, tick, s).pc) && After(w, tick, s).activity && !After(w, tick, s).pc.Calling?
    ensures (s.activity && (s.pc.Calling? || s.pc.Listening? || s.pc.Closing? || s.pc.Opening?))
            || (s.pc.Listening? && Next(w, s) == Event(Completed(w.o.runId)) && w.env.current(tick)
                && s.failure == None)
  {
  }

  lemma {:induction false} AlwaysWatched<V>(w: World<V>, n: nat)
    ensures Watched(w, n)
  {
    hide After, LastOpen, OpenSince, ReadyToOpen, ActiveIn;
    if n > 0 {
      hide Watched;
      AlwaysWatched(w, n - 1);
      WatchedStep(w, n - 1);
    }
  }

  lemma ActiveGrows<V>(w: World<V>, from: nat, n: nat)
    ensures ActiveIn(w, from, n) || (from <= n && ActiveAt(w, n)) ==> ActiveIn(w, from, n + 1)
  {
  }

  lemma OpenStep<V>(w: World<V>, n: nat)
    ensures LastOpen(w, n + 1) == if At(w, n).pc.Opening? then n else LastOpen(w, n)
    ensures At(w, n + 1) == After(w, n, At(w, n))
  {
  }

  lemma WatchedStep<V>(w: World<V>, n: nat)
    requires Watched(w, n)
    ensures Watched(w, n + 1)
  {
    hide At, After, LastOpen, ActiveIn, Next;
    OpenStep(w, n);
    if At(w, n + 1).pc.Opening? {
      OpeningStep(w, n, At(w, n));
    }
    if InWatch(At(w, n + 1).pc) {
      InWatchStep(w, n, At(w, n));
      if At(w, n + 1).activity && !At(w, n + 1).pc.Calling? {
        ActiveStep(w, n, At(w, n));
      }
    }
    ActiveGrows(w, LastOpen(w, n), n);
    if At(w, n).pc.Calling? {
      assert Next(w, At(w, n)) == OnUpdate(At(w, n).pc.update) by { CallingIsOnUpdate(w, At(w, n)); }
    }
    if At(w, n).pc.Starting? {
      StartingIsClock(w, At(w, n));
    }
  }

  lemma CallingIsOnUpdate<V>(w: World<V>, s: State<V>)
    requires s.pc.Calling?
    ensures Next(w, s) == OnUpdate(s.pc.update)
  {
  }

  lemma StartingIsClock<V>(w: World<V>, s: State<V>)
    requires s.pc.Starting?
    ensures Next(w, s) == Clock
  {
  }

  // ----- the recovery window -----

  /** The step at tick n closes the recovery window. */
  ghost predicate Closes<V>(w: World<V>, n: nat) {
    At(w, n).window.Some? && At(w, n + 1).window.None?
  }

  /** The watch settling at tick n was active, or the clock shows that it was stable. */
  ghost predicate Lively<V>(w: World<V>, n: nat) {
    var m := LastOpen(w, n);
    && 0 < m < n && (At(w, n).pc.Closing? || At(w, n).pc.Judging?) && Does(w, m) == Some(Open(At(w, m).cursor))
    && (ActiveIn(w, m, n)
        || (&& Does(w, m - 1) == Some(Clock) && Does(w, n) == Some(Clock)
            && w.env.clock(m - 1).Some? && w.env.clock(n).Some?
            && w.env.clock(n).value - w.env.clock(m - 1).value >= STABILITY_MS))
  }

  /** Only activity or stability closes the recovery window. */
  lemma WindowClosesOnEvidence<V>(w: World<V>, n: nat)
    requires Closes(w, n)
    ensures Lively(w, n)
  {
    hide At;
    AlwaysWatched(w, n);
    AtNext(w, n);
    ClosingStep(w, n, At(w, n));
  }

  lemma ClosingStep<V>(w: World<V>, tick: nat, s: State<V>)
    requires s.window.Some? && After(w, tick, s).window.None?
    ensures || (s.pc.Closing? && s.activity)
            || (&& s.pc.Judging? && Next(w, s) == Clock && w.env.clock(tick).Some? && s.startedAt.Some?
                && w.env.clock(tick).value - s.startedAt.value >= STABILITY_MS)
  {
  }

  /** Conversely, a lively watch that ends on a current route leaves no window open. */
  lemma LivelyWatchesClose<V>(w: World<V>, n: nat)
    requires (At(w, n).pc.Closing? && w.env.current(n) && At(w, n).activity)
             || (At(w, n).pc.Judging? && ElapsedSince(At(w, n).startedAt, w.env.clock(n)) >= STABILITY_MS)
    ensures At(w, n + 1).window.None?
  {
  }

  function AttemptsOf<V>(s: State<V>): nat {
    if s.window.Some? then s.window.value.attempts else 0
  }

  function DelayOf<V>(s: State<V>): real {
    if s.window.Some? then s.window.value.scheduledDelayMs else 0.0
  }

  /** The window is within its budget, and so is the delay that is still to be waited. */
  ghost predicate WithinBudget(o: Options, window: Option<Window>, due: real) {
    window.Some? ==>
      && window.value.attempts <= o.maxAttempts && window.value.scheduledDelayMs >= 0.0
      && due >= 0.0 && window.value.scheduledDelayMs + due <= o.deadlineMs as real
  }

  function Due<V>(pc: Pc<V>): real {
    match pc
    case Waiting(remaining) => remaining
    case SliceOver(remaining) => remaining
    case _ => 0.0
  }

  /** An attempt has been counted, and its summary is not read yet. */
  predicate Recovering<V>(pc: Pc<V>) {
    pc.Delaying? || pc.Waiting? || pc.SliceOver? || pc.Late? || pc.LateCheck? || pc.Fetching?
  }

  ghost predicate Budgeted<V>(o: Options, s: State<V>) {
    && WithinBudget(o, s.window, Due(s.pc))
    && (s.pc.Elapsing? ==> s.window.Some? && s.window.value.attempts < o.maxAttempts)
    && (Recovering(s.pc) ==> s.window.Some?)
    && (s.pc.Waiting? ==> s.pc.remaining > 0.0)
    && (s.pc.NewWindow? ==> s.window.None?)
  }

  lemma FirstBudget<V>(w: World<V>)
    ensures Budgeted(w.o, FirstState(w))
  {
  }

  lemma BudgetStep<V>(w: World<V>, tick: nat, s: State<V>)
    requires Budgeted(w.o, s)
    ensures Budgeted(w.o, After(w, tick, s))
  {
    if s.pc.Delaying? || s.pc.Waiting? || s.pc.SliceOver? {
      WaitingStep(w, tick, s);
    } else if s.pc.NewWindow? || s.pc.Asking? || s.pc.Elapsing? {
      CountingStep(w, tick, s);
    } else {
      OtherStep(w, tick, s);
    }
  }

  lemma WaitingStep<V>(w: World<V>, tick: nat, s: State<V>)
    requires Budgeted(w.o, s) && (s.pc.Delaying? || s.pc.Waiting? || s.pc.SliceOver?)
    ensures Budgeted(w.o, After(w, tick, s))
  {
    hide RecoveryDelay, RecoveryElapsed, ElapsedSince, FailureOf;
  }

  lemma CountingStep<V>(w: World<V>, tick: nat, s: State<V>)
    requires Budgeted(w.o, s) && (s.pc.NewWindow? || s.pc.Asking? || s.pc.Elapsing?)
    ensures Budgeted(w.o, After(w, tick, s))
  {
    hide RecoveryElapsed, ElapsedSince, FailureOf;
  }

  lemma OtherStep<V>(w: World<V>, tick: nat, s: State<V>)
    requires Budgeted(w.o, s) && !(s.pc.Delaying? || s.pc.Waiting? || s.pc.SliceOver?)
    requires !(s.pc.NewWindow? || s.pc.Asking? || s.pc.Elapsing?)
    ensures Budgeted(w.o, After(w, tick, s))
  {
    hide AttemptDelay, RecoveryElapsed, ElapsedSince, Listened, WindowOf, FailureOf;
    if s.pc.Listening? {
      ListeningStep(w, w.env.current(tick), s);
    }
  }

  lemma ListeningStep<V>(w: World<V>, current: bool, s: State<V>)
    requires s.pc.Listening?
    ensures var r := Listened(w, current, s);
            r.window == s.window && (r.pc.Listening? || r.pc.Calling? || r.pc.Closing?)
  {
  }

  /** In every window, at every moment: no more attempts than allowed, and no more delay
      scheduled, or still to be waited, than the deadline. */
  lemma {:induction false} BudgetHolds<V>(w: World<V>, n: nat)
    ensures Budgeted(w.o, At(w, n))
  {
    hide After, Budgeted;
    if n == 0 {
      FirstBudget(w);
    } else {
      BudgetHolds(w, n - 1);
      BudgetStep(w, n - 1, At(w, n - 1));
    }
  }

  /** A watch has been opened since the last attempt was counted. */
  predicate Owes<V>(pc: Pc<V>) {
    InWatch(pc) || pc.Classifying? || pc.NewWindow? || pc.Asking? || pc.Elapsing? || pc.Done?
  }

  function Owed<V>(s: State<V>): nat {
    if Owes(s.pc) then 1 else 0
  }

  lemma OwesStep<V>(w: World<V>, tick: nat, s: State<V>)
    requires Budgeted(w.o, s) && !(s.window.Some? && After(w, tick, s).window.None?)
    ensures var r := After(w, tick, s);
            r.opens - s.opens <= AttemptsOf(r) - AttemptsOf(s) + Owed(r) - Owed(s)
  {
  }

  /** No watch that settles between two ticks is lively. */
  ghost predicate Quiet<V>(w: World<V>, i: nat, j: nat) {
    forall n :: i <= n < j ==> !Lively(w, n)
  }

  lemma {:induction false} QuietOpens<V>(w: World<V>, i: nat, j: nat)
    requires i <= j && Quiet(w, i, j)
    ensures var s, r := At(w, i), At(w, j);
            r.opens - s.opens <= AttemptsOf(r) - AttemptsOf(s) + Owed(r) - Owed(s)
    decreases j - i
  {
    hide At, After, Lively, Budgeted;
    if i < j {
      QuietOpens(w, i, j - 1);
      BudgetHolds(w, j - 1);
      AtNext(w, j - 1);
      StaysOpen(w, j - 1);
      OwesStep(w, j - 1, At(w, j - 1));
    }
  }

  lemma StaysOpen<V>(w: World<V>, n: nat)
    ensures !Lively(w, n) ==> !(At(w, n).window.Some? && After(w, n, At(w, n)).window.None?)
  {
    hide At, Lively, After;
    AtNext(w, n);
    if Closes(w, n) {
      WindowClosesOnEvidence(w, n);
    }
  }

  /** Milliseconds scheduled between two ticks. */
  function DelayedIn<V>(w: World<V>, i: nat, j: nat): real {
    if j <= i then 0.0
    else DelayedIn(w, i, j - 1) + (match Does(w, j - 1) case Some(Delay(ms)) => ms case _ => 0.0)
  }

  lemma DelayStep<V>(w: World<V>, n: nat)
    requires Budgeted(w.o, At(w, n)) && !(At(w, n).window.Some? && After(w, n, At(w, n)).window.None?)
    ensures DelayOf(After(w, n, At(w, n)))
         == DelayOf(At(w, n)) + (match Does(w, n) case Some(Delay(ms)) => ms case _ => 0.0)
  {
    hide At;
  }

  lemma {:induction false} QuietDelays<V>(w: World<V>, i: nat, j: nat)
    requires i <= j && Quiet(w, i, j)
    ensures DelayOf(At(w, j)) == DelayOf(At(w, i)) + DelayedIn(w, i, j)
    decreases j - i
  {
    hide At, After, Lively, Budgeted, Does;
    if i < j {
      QuietDelays(w, i, j - 1);
      BudgetHolds(w, j - 1);
      AtNext(w, j - 1);
      StaysOpen(w, j - 1);
      DelayStep(w, j - 1);
    }
  }

  /** Between two ticks at which no watch shows activity or stability, the loop opens at
      most one watch more than it may attempt recoveries, and delays no longer than the
      deadline. */
  lemma ReconnectionsAreBounded<V>(w: World<V>, i: nat, j: nat)
    requires i <= j && Quiet(w, i, j)
    ensures At(w, j).opens - At(w, i).opens <= w.o.maxAttempts + 1
    ensures DelayedIn(w, i, j) <= w.o.deadlineMs as real
  {
    hide At, Lively;
    QuietOpens(w, i, j);
    QuietDelays(w, i, j);
    BudgetHolds(w, i);
    BudgetHolds(w, j);
  }

  /** A delay is waited to its end, or a route check fails on the way. */
  lemma {:induction false} WaitsToTheEnd<V>(w: World<V>, n: nat) returns (m: nat)
    requires At(w, n).pc.Waiting? && At(w, n).pc.remaining > 0.0
    ensures m > n
    ensures (At(w, m).pc == Late && DelayedIn(w, n, m) == At(w, n).pc.remaining)
            || (At(w, m).pc == Done(Stale(At(w, n).cursor)) && !w.env.current(m - 1))
    decreases At(w, n).pc.remaining.Floor
  {
    hide At;
    var remaining := At(w, n).pc.remaining;
    AtNext(w, n);
    AtNext(w, n + 1);
    m := n + 2;
    assert DelayedIn(w, n, n) == 0.0;
    assert DelayedIn(w, n, n + 1) == MinReal(remaining, ROUTE_CHECK_MS);
    assert DelayedIn(w, n, n + 2) == MinReal(remaining, ROUTE_CHECK_MS);
    if At(w, n + 2).pc.Waiting? {
      m := WaitsToTheEnd(w, n + 2);
      DelaysAdd(w, n, n + 2, m);
    }
  }

  lemma {:induction false} DelaysAdd<V>(w: World<V>, a: nat, b: nat, c: nat)
    requires a <= b <= c
    ensures DelayedIn(w, a, c) == DelayedIn(w, a, b) + DelayedIn(w, b, c)
  {
    hide At, Does;
    if b < c {
      DelaysAdd(w, a, b, c - 1);
    }
  }

  /** An attempt waits the next delay of the list, or what is left of the deadline. */
  lemma AttemptsWait<V>(w: World<V>, n: nat) returns (m: nat)
    requires At(w, n).pc.Delaying?
    ensures m > n
    ensures var window := WindowOf(At(w, n));
            var left := w.o.deadlineMs as real - RecoveryElapsed(window, w.env.clock(n));
            var wait := MinReal(RecoveryDelay(window.attempts), left);
            (At(w, m).pc == Late && DelayedIn(w, n, m) == MaxReal(0.0, wait))
            || (At(w, m).pc == Done(Stale(At(w, n).cursor)) && !w.env.current(m - 1))
  {
    hide At;
    AtNext(w, n);
    m := n + 1;
    assert DelayedIn(w, n, n) == 0.0 && DelayedIn(w, n, n + 1) == 0.0;
    if At(w, n + 1).pc.Waiting? {
      m := WaitsToTheEnd(w, n + 1);
      DelaysAdd(w, n, n + 1, m);
    }
  }

  // ----- why a result is given -----

  /** The window was opened at tick q, at a reading of the clock, and is open since. */
  ghost predicate WindowSince<V>(w: World<V>, q: nat, n: nat) {
    && q < n && Does(w, q) == Some(Clock) && At(w, q).pc.NewWindow?
    && At(w, n).window.Some? && At(w, n).window.value.startedAt == w.env.clock(q)
    && forall k :: q < k <= n ==> At(w, k).window.Some?
  }

  lemma WindowStep<V>(w: World<V>, tick: nat, s: State<V>)
    requires After(w, tick, s).window.Some?
    requires s.pc.Elapsing? || s.pc.Waiting? ==> s.window.Some?
    ensures if s.pc.NewWindow? then Next(w, s) == Clock && After(w, tick, s).window.value.startedAt == w.env.clock(tick)
            else s.window.Some? && After(w, tick, s).window.value.startedAt == s.window.value.startedAt
  {
  }

  lemma {:induction false} WindowsBegin<V>(w: World<V>, n: nat) returns (q: nat)
    requires At(w, n).window.Some?
    ensures WindowSince(w, q, n)
  {
    hide At, After, Next;
    Begin(w);
    BudgetHolds(w, n - 1);
    AtNext(w, n - 1);
    WindowStep(w, n - 1, At(w, n - 1));
    if At(w, n - 1).pc.NewWindow? {
      q := n - 1;
    } else {
      q := WindowsBegin(w, n - 1);
    }
  }

  /** The deadline counts the delays and the clock since the window was opened. */
  ghost predicate Spent<V>(w: World<V>, n: nat) {
    Does(w, n) == Some(Clock) &&
    exists q :: WindowSince(w, q, n)
      && MaxReal(DelayOf(At(w, n)), ElapsedSince(w.env.clock(q), w.env.clock(n))) >= w.o.deadlineMs as real
  }

  /** Why the step at tick n gives a result. Stale: the route check it makes fails. Complete:
      a watch settles without a failure, or the summary just read and passed on is terminal
      at the cursor. Error: the failure is not recoverable, the attempts or the deadline are
      spent, the route is gone after the delay, or the summary just read is another run's or
      behind the cursor. */
  ghost predicate Reason<V>(w: World<V>, n: nat, r: WatchResult) {
    var s := At(w, n);
    match r
    case Stale(cursor) => cursor == s.cursor && Does(w, n) == Some(Check) && !w.env.current(n)
    case Complete(cursor) =>
      && cursor == s.cursor
      && ((InWatch(s.pc) && s.failure == None)
          || (&& n > 2 && Does(w, n) == Some(Check) && w.env.current(n) && w.env.run(n - 3).Ok?
              && Does(w, n - 1) == Some(OnHydrate(w.env.run(n - 3).value)) && w.env.run(n - 3).value.terminal
              && w.env.run(n - 3).value.lastSequence == cursor))
    case Error(cursor, failure) =>
      && cursor == s.cursor
      && (|| (&& Does(w, n) == Some(CanRecover(failure))
              && (!w.env.recoverable(n, failure) || AttemptsOf(s) >= w.o.maxAttempts
                  || (n > 0 && Does(w, n - 1) == Some(CanRecover(failure)) && !w.env.recoverable(n - 1, failure))))
          || (failure == FailureOf(s) && Spent(w, n))
          || (failure == FailureOf(s) && Does(w, n) == Some(Check) && !w.env.current(n))
          || (&& n > 0 && Does(w, n) == Some(Check) && w.env.current(n)
              && Does(w, n - 1) == Some(GetRun) && w.env.run(n - 1).Ok?
              && var details := w.env.run(n - 1).value;
                 if details.runId != w.o.runId then failure == Protocol(SummaryOfOtherRun)
                 else details.lastSequence < cursor && failure == Protocol(SummaryBehind)))
    case Watching(cursor) =>
      cursor == s.cursor && s.opens == |w.watches| && Does(w, n) == Some(Check) && w.env.current(n)
  }

  lemma ReachedBy<V>(w: World<V>, tick: nat, s: State<V>)
    requires Budgeted(w.o, s)
    ensures var r := After(w, tick, s);
            && (r.pc.Hydrated? ==> s.pc == Hydrating(r.pc.details))
            && (r.pc.Asking? && r.window.None? ==>
                  s.pc.Classifying? && FailureOf(r) == FailureOf(s) && !w.env.recoverable(tick, FailureOf(s)))
  {
  }

  lemma OpensWithin<V>(w: World<V>, tick: nat, s: State<V>)
    requires s.opens + (if s.pc.Starting? || s.pc.Opening? then 1 else 0) <= |w.watches|
    ensures var r := After(w, tick, s); r.opens + (if r.pc.Starting? || r.pc.Opening? then 1 else 0) <= |w.watches|
  {
    hide AttemptDelay, RecoveryElapsed, ElapsedSince, React, WatchOf, WindowOf, FailureOf;
  }

  lemma {:induction false} OpensBounded<V>(w: World<V>, n: nat)
    ensures At(w, n).opens + (if At(w, n).pc.Starting? || At(w, n).pc.Opening? then 1 else 0) <= |w.watches|
  {
    hide After;
    if n > 0 {
      OpensBounded(w, n - 1);
      OpensWithin(w, n - 1, At(w, n - 1));
    }
  }

  /** The summary that has been passed on, and the one that is looked at. */
  lemma SummariesAreRead<V>(w: World<V>, n: nat)
    ensures At(w, n).pc.Hydrated? ==>
              && n > 2 && Does(w, n - 1) == Some(OnHydrate(At(w, n).pc.details))
              && w.env.run(n - 3) == Ok(At(w, n).pc.details)
    ensures At(w, n).pc.Summary? ==>
              n > 0 && Does(w, n - 1) == Some(GetRun) && w.env.run(n - 1) == Ok(At(w, n).pc.details)
  {
    hide At, After;
    Begin(w);
    if At(w, n).pc.Hydrated? {
      BudgetHolds(w, n - 1);
      AtNext(w, n - 1);
      ReachedBy(w, n - 1, At(w, n - 1));
      CallsFollowChecks(w, n - 1);
    } else if At(w, n).pc.Summary? {
      AtNext(w, n - 1);
      SummaryBy(w, n - 1, At(w, n - 1));
    }
  }

  /** How a step stops the loop, read from the state before it. */
  lemma StopStep<V>(w: World<V>, tick: nat, s: State<V>)
    requires Budgeted(w.o, s) && !s.pc.Done? && After(w, tick, s).pc.Done?
    ensures match After(w, tick, s).pc.result
            case Stale(cursor) => cursor == s.cursor && Next(w, s) == Check && !w.env.current(tick)
            case Complete(cursor) =>
              && cursor == s.cursor
              && (((s.pc.Closing? || s.pc.Judging?) && s.failure == None)
                  || (s.pc.Hydrated? && w.env.current(tick) && s.pc.details.terminal
                      && s.pc.details.lastSequence == cursor))
            case Error(cursor, failure) =>
              && cursor == s.cursor
              && (match s.pc
                 case Asking => failure == FailureOf(s)
                                && (!w.env.recoverable(tick, failure) || s.window.None?
                                    || AttemptsOf(s) >= w.o.maxAttempts)
                 case Elapsing => failure == FailureOf(s) && PastDeadline(w, tick, s)
                 case Late => failure == FailureOf(s) && PastDeadline(w, tick, s)
                 case LateCheck => failure == FailureOf(s) && !w.env.current(tick)
                 case Summary(details) =>
                   w.env.current(tick) && (if details.runId != w.o.runId then failure == Protocol(SummaryOfOtherRun)
                                           else details.lastSequence < cursor && failure == Protocol(SummaryBehind))
                 case _ => false)
            case Watching(cursor) =>
              cursor == s.cursor && s.pc.Top? && s.opens >= |w.watches| && w.env.current(tick)
  {
  }

  ghost predicate PastDeadline<V>(w: World<V>, tick: nat, s: State<V>) {
    s.window.Some? && RecoveryElapsed(s.window.value, w.env.clock(tick)) >= w.o.deadlineMs as real
  }

  /** A result is given only for its reason. */
  lemma ResultsHaveReasons<V>(w: World<V>, n: nat)
    requires !At(w, n).pc.Done? && At(w, n + 1).pc.Done?
    ensures Reason(w, n, At(w, n + 1).pc.result)
  {
    hide At, After, WindowSince;
    BudgetHolds(w, n);
    AtNext(w, n);
    StopStep(w, n, At(w, n));
    SummariesAreRead(w, n);
    OpensBounded(w, n);
    if At(w, n).window.Some? {
      var q := WindowsBegin(w, n);
      SpentBy(w, n, q);
    } else if At(w, n).pc.Asking? {
      Begin(w);
      BudgetHolds(w, n - 1);
      AtNext(w, n - 1);
      ReachedBy(w, n - 1, At(w, n - 1));
    }
  }

  lemma SpentBy<V>(w: World<V>, n: nat, q: nat)
    requires WindowSince(w, q, n)
    ensures (At(w, n).pc.Elapsing? || At(w, n).pc.Late?) && PastDeadline(w, n, At(w, n)) ==> Spent(w, n)
  {
    hide At;
  }

  // ----- where events lead -----

  /** Where the events of one watch lead from a cursor on a route that stays current: the
      new cursor and the first violation or error; what follows it is ignored. */
  function Digest<V>(o: Options, cursor: nat, events: seq<Event<V>>): (nat, Option<Failure>) {
    if events == [] then (cursor, None)
    else
      var n := |events| - 1;
      var (c, failure) := Digest(o, cursor, events[..n]);
      if failure.Some? then (c, failure)
      else
        match React(o, c, events[n])
        case Fail(f) => (c, Some(f))
        case Accept => (c + 1, None)
        case _ => (c, None)
  }

  ghost predicate CurrentIn(env: Environment, i: nat, j: nat) {
    forall t :: i <= t < j ==> env.current(t)
  }

  /** A watch opened at a cursor has come where its events lead. */
  ghost predicate Digested<V>(w: World<V>, c: nat, s: State<V>) {
    var watch := WatchOf(w, s);
    && s.handled <= |watch.events|
    && var (d, f) := Digest(w.o, c, watch.events[..s.handled]);
       && s.cursor == d
       && match s.pc
          case Listening => s.failure == f
          case Calling(_) => s.failure == f
          case _ => s.handled == |watch.events| && s.failure == if f.Some? then f else watch.thrown
  }

  lemma DigestedStep<V>(w: World<V>, tick: nat, c: nat, s: State<V>)
    requires Digested(w, c, s) && InWatch(s.pc) && InWatch(After(w, tick, s).pc) && w.env.current(tick)
    ensures Digested(w, c, After(w, tick, s))
  {
    var events := WatchOf(w, s).events;
    if s.pc.Listening? && s.handled < |events| {
      assert events[..s.handled + 1][..s.handled] == events[..s.handled];
    }
  }

  lemma {:induction false} WatchesDigest<V>(w: World<V>, n: nat)
    requires InWatch(At(w, n).pc) && CurrentIn(w.env, LastOpen(w, n), n)
    ensures Digested(w, At(w, LastOpen(w, n)).cursor, At(w, n))
  {
    hide At, After, Digested, LastOpen;
    Begin(w);
    OpenStep(w, n - 1);
    InWatchStep(w, n - 1, At(w, n - 1));
    if At(w, n - 1).pc.Opening? {
      AlwaysWatched(w, n - 1);
      DigestedFirst(w, n - 1, At(w, n - 1));
    } else {
      AlwaysWatched(w, n - 1);
      WatchesDigest(w, n - 1);
      DigestedStep(w, n - 1, At(w, LastOpen(w, n)).cursor, At(w, n - 1));
    }
  }

  lemma DigestedFirst<V>(w: World<V>, tick: nat, s: State<V>)
    requires s.pc.Opening? && s.failure == None
    ensures Digested(w, s.cursor, After(w, tick, s))
  {
  }

  /** A watch that ends without a failure on a fenced route was not rejected, and its
      events have led to the cursor without a violation. */
  lemma CleanEnds<V>(w: World<V>, n: nat)
    requires Fenced(w.env) && (At(w, n).pc.Closing? || At(w, n).pc.Judging?) && At(w, n).failure == None
    requires w.env.current(n) || (At(w, n).pc.Judging? && n > 0 && w.env.current(n - 1))
    ensures var m, s := LastOpen(w, n), At(w, n);
            && m < n && At(w, m).pc.Opening? && 1 <= s.opens <= |w.watches| && s.opens == At(w, m).opens + 1
            && w.watches[s.opens - 1].thrown == None
            && Digest(w.o, At(w, m).cursor, w.watches[s.opens - 1].events) == (s.cursor, None)
  {
    hide At, After, LastOpen;
    AlwaysWatched(w, n);
    OpensBounded(w, n);
    WatchesDigest(w, n);
    var events := WatchOf(w, At(w, n)).events;
    assert events[..|events|] == events;
  }

  // ----- replays -----

  /** The updates that events pass on from a cursor on a route that stays current. */
  function PassedOn<V>(o: Options, cursor: nat, events: seq<Event<V>>): seq<Update<V>> {
    if events == [] then []
    else
      var n := |events| - 1;
      var (c, failure) := Digest(o, cursor, events[..n]);
      PassedOn(o, cursor, events[..n])
      + (if failure.None? && React(o, c, events[n]) == Accept then [events[n].update] else [])
  }

  /** The events without those that repeat what has been delivered. */
  function WithoutReplays<V>(o: Options, cursor: nat, events: seq<Event<V>>): seq<Event<V>> {
    if events == [] then []
    else
      var n := |events| - 1;
      var (c, failure) := Digest(o, cursor, events[..n]);
      WithoutReplays(o, cursor, events[..n])
      + (if failure.None? && React(o, c, events[n]) == Ignore then [] else [events[n]])
  }

  /** Replays put into a watch, or taken out of it, change neither where its events lead
      nor the updates passed on. */
  lemma {:induction false} ReplaysAreInvisible<V>(o: Options, cursor: nat, events: seq<Event<V>>)
    ensures Digest(o, cursor, WithoutReplays(o, cursor, events)) == Digest(o, cursor, events)
    ensures PassedOn(o, cursor, WithoutReplays(o, cursor, events)) == PassedOn(o, cursor, events)
  {
    hide React;
    if events != [] {
      var n := |events| - 1;
      ReplaysAreInvisible(o, cursor, events[..n]);
      SameDigest(o, cursor, events[..n], WithoutReplays(o, cursor, events[..n]), events[n]);
      assert events == events[..n] + [events[n]];
    }
  }

  lemma SameDigest<V>(o: Options, cursor: nat, events: seq<Event<V>>, kept: seq<Event<V>>, e: Event<V>)
    requires Digest(o, cursor, events) == Digest(o, cursor, kept)
             && PassedOn(o, cursor, events) == PassedOn(o, cursor, kept)
    ensures Digest(o, cursor, events + [e]) == Digest(o, cursor, kept + [e])
    ensures PassedOn(o, cursor, events + [e]) == PassedOn(o, cursor, kept + [e])
    ensures var (c, failure) := Digest(o, cursor, events);
            failure.None? && React(o, c, e) == Ignore ==>
              && Digest(o, cursor, events + [e]) == Digest(o, cursor, kept + [])
              && PassedOn(o, cursor, events + [e]) == PassedOn(o, cursor, kept + [])
  {
    hide React;
    assert (events + [e])[..|events|] == events && (kept + [e])[..|kept|] == kept && kept + [] == kept;
    assert forall ups: seq<Update<V>> :: ups + [] == ups;
  }

  /** The last sequence the events offer of the watched run, or the cursor. */
  function Highest<V>(o: Options, cursor: nat, events: seq<Event<V>>): nat {
    if events == [] then cursor
    else
      var n := |events| - 1;
      var highest := Highest(o, cursor, events[..n]);
      if events[n].Updated? && events[n].update.runId == o.runId then Max(highest, events[n].update.sequence)
      else highest
  }

  /** The log is offered from the cursor on, with any replays of what has been offered. */
  ghost predicate OffersInOrder<V>(o: Options, cursor: nat, events: seq<Event<V>>) {
    events == [] ||
    var n := |events| - 1;
    && OffersInOrder(o, cursor, events[..n])
    && (match events[n]
        case Updated(u) => u.runId == o.runId && u.sequence <= Highest(o, cursor, events[..n]) + 1
        case Completed(runId) => runId == o.runId
        case Errored(_) => false)
  }

  /** Such a watch gives no failure and leads to the last update offered, having passed on
      each update after the cursor. */
  lemma {:induction false} ReplaysAreTolerated<V>(o: Options, cursor: nat, events: seq<Event<V>>)
    requires OffersInOrder(o, cursor, events)
    ensures Digest(o, cursor, events) == (Highest(o, cursor, events), None)
    ensures |PassedOn(o, cursor, events)| == Highest(o, cursor, events) - cursor
    ensures forall i :: 0 <= i < |PassedOn(o, cursor, events)| ==>
              PassedOn(o, cursor, events)[i].runId == o.runId
                  && PassedOn(o, cursor, events)[i].sequence == cursor + 1 + i
  {
    if events != [] {
      ReplaysAreTolerated(o, cursor, events[..|events| - 1]);
    }
  }

  /** On a current route the protocol passes on exactly the updates of the digest. */
  lemma {:induction false} WatchesPassOn<V>(w: World<V>, t: seq<Action<V>>)
    requires Follows(w, t) && InWatch(At(w, |t|).pc) && CurrentIn(w.env, LastOpen(w, |t|), |t|)
    ensures var m, s := LastOpen(w, |t|), At(w, |t|);
            && m < |t| && s.handled <= |WatchOf(w, s).events|
            && Updates(t) + (if s.pc.Calling? then [s.pc.update] else [])
               == Updates(t[..m]) + PassedOn(w.o, At(w, m).cursor, WatchOf(w, s).events[..s.handled])
  {
    hide At, After, LastOpen, Digested;
    var n := |t| - 1;
    Begin(w);
    AlwaysWatched(w, |t|);
    OpenStep(w, n);
    InWatchStep(w, n, At(w, n));
    FollowsAt(w, t, n);
    if At(w, n).pc.Opening? {
      PassesFirst(w, n, At(w, n));
    } else {
      WatchesDigest(w, n);
      WatchesPassOn(w, t[..n]);
      var m := LastOpen(w, n);
      assert t[..n][..m] == t[..m];
      PassStep(w, n, At(w, m).cursor, At(w, n), Updates(t[..n]), Updates(t[..m]));
    }
  }

  lemma PassesFirst<V>(w: World<V>, tick: nat, s: State<V>)
    requires s.pc.Opening?
    ensures After(w, tick, s).handled == 0 && After(w, tick, s).pc.Listening? && Next(w, s).Open?
  {
  }

  lemma PassStep<V>(w: World<V>, tick: nat, c: nat, s: State<V>, ups: seq<Update<V>>, before: seq<Update<V>>)
    requires Digested(w, c, s) && InWatch(s.pc) && InWatch(After(w, tick, s).pc) && w.env.current(tick)
    requires ups + (if s.pc.Calling? then [s.pc.update] else [])
             == before + PassedOn(w.o, c, WatchOf(w, s).events[..s.handled])
    ensures var r := After(w, tick, s);
            && r.handled <= |WatchOf(w, r).events|
            && ups + (if Next(w, s).OnUpdate? then [Next(w, s).update] else [])
                + (if r.pc.Calling? then [r.pc.update] else [])
               == before + PassedOn(w.o, c, WatchOf(w, r).events[..r.handled])
  {
    hide AttemptDelay, RecoveryElapsed, ElapsedSince, WindowOf, FailureOf, Judged, Handled, PassedOn;
    if s.pc.Listening? && s.handled < |WatchOf(w, s).events| {
      PassEvent(w, c, s, ups, before);
    }
  }

  lemma PassEvent<V>(w: World<V>, c: nat, s: State<V>, ups: seq<Update<V>>, before: seq<Update<V>>)
    requires Digested(w, c, s) && s.pc.Listening? && s.handled < |WatchOf(w, s).events|
    requires ups == before + PassedOn(w.o, c, WatchOf(w, s).events[..s.handled])
    ensures var r := Handled(w, true, s, WatchOf(w, s).events[s.handled]);
            && r.handled == s.handled + 1 && r.opens == s.opens
            && ups + (if r.pc.Calling? then [r.pc.update] else [])
               == before + PassedOn(w.o, c, WatchOf(w, s).events[..r.handled])
  {
    var events := WatchOf(w, s).events;
    var e, passed := events[s.handled], PassedOn(w.o, c, events[..s.handled]);
    assert events[..s.handled + 1][..s.handled] == events[..s.handled];
    if s.failure.None? && React(w.o, s.cursor, e) == Accept {
      assert before + (passed + [e.update]) == before + passed + [e.update];
    } else {
      assert passed + [] == passed;
    }
  }

  // ----- a complete watch has delivered the log -----

  lemma {:induction false} DigestReachesHighest<V>(o: Options, cursor: nat, events: seq<Event<V>>)
    requires Digest(o, cursor, events).1 == None
    ensures Digest(o, cursor, events).0 == Highest(o, cursor, events) && forall e <- events :: !e.Errored?
  {
    if events != [] {
      DigestReachesHighest(o, cursor, events[..|events| - 1]);
    }
  }

  /** A watch opened after a cursor that ends without an error has offered the log to its
      end: the native stream ends only after a terminal update, or once GetRun has proved
      the run terminal at the last sequence it has offered. */
  ghost predicate EndsProved<V>(o: Options, cursor: nat, watch: Watch<V>, length: nat) {
    watch.thrown == None && (forall e <- watch.events :: !e.Errored?) ==> Highest(o, cursor, watch.events) == length
  }

  ghost predicate ProvedEnds<V>(w: World<V>, length: nat) {
    forall m :: At(w, m).pc.Opening? && At(w, m).opens < |w.watches| ==>
      EndsProved(w.o, At(w, m).cursor, w.watches[At(w, m).opens], length)
  }

  /** A terminal summary of the watched run is at the end of its log. */
  ghost predicate HonestSummaries<V>(w: World<V>, length: nat) {
    forall t :: w.env.run(t).Ok? && w.env.run(t).value.runId == w.o.runId && w.env.run(t).value.terminal ==>
      w.env.run(t).value.lastSequence == length
  }

  lemma JudgedBy<V>(w: World<V>, tick: nat, s: State<V>)
    requires After(w, tick, s).pc.Judging?
    ensures s.pc.Closing? && w.env.current(tick)
  {
  }

  lemma HydratedRun<V>(w: World<V>, n: nat)
    requires At(w, n).pc.Hydrated?
    ensures exists t :: w.env.run(t) == Ok(At(w, n).pc.details) && At(w, n).pc.details.runId == w.o.runId
  {
    hide At, After;
    Begin(w);
    SummariesAreRead(w, n);
    CallsFollowChecks(w, n - 1);
  }

  /** Complete means complete: on a fenced route the result is given only at the end of
      the log. */
  lemma CompleteIsTheEnd<V>(w: World<V>, n: nat, length: nat)
    requires Fenced(w.env) && ProvedEnds(w, length) && HonestSummaries(w, length)
    requires At(w, n).pc.Done? && At(w, n).pc.result.Complete?
    ensures At(w, n).pc.result.cursor == length
  {
    hide At, After, LastOpen;
    Begin(w);
    AtNext(w, n - 1);
    if At(w, n - 1).pc.Done? {
      StaysDone(w, n - 1, n);
      CompleteIsTheEnd(w, n - 1, length);
    } else {
      BudgetHolds(w, n - 1);
      StopStep(w, n - 1, At(w, n - 1));
      if At(w, n - 1).pc.Hydrated? {
        HydratedRun(w, n - 1);
      } else {
        CleanEndIsTheEnd(w, n - 1, length);
      }
    }
  }

  lemma CleanEndIsTheEnd<V>(w: World<V>, n: nat, length: nat)
    requires Fenced(w.env) && ProvedEnds(w, length)
    requires (At(w, n).pc.Closing? || At(w, n).pc.Judging?) && At(w, n).failure == None && At(w, n + 1).pc.Done?
    requires At(w, n + 1).pc.result.Complete?
    ensures At(w, n).cursor == length
  {
    hide At, LastOpen;
    Begin(w);
    AtNext(w, n);
    AtNext(w, n - 1);
    if At(w, n).pc.Judging? {
      JudgedBy(w, n - 1, At(w, n - 1));
    }
    CleanEnds(w, n);
    var m := LastOpen(w, n);
    var watch := w.watches[At(w, m).opens];
    DigestReachesHighest(w.o, At(w, m).cursor, watch.events);
    assert EndsProved(w.o, At(w, m).cursor, watch, length);
  }

  /** A complete watch of a log has passed on all of it after the first cursor. */
  lemma CompleteIsDelivered<V(!new)>(w: World<V>, t: seq<Action<V>>, log: seq<V>)
    requires Follows(w, t) && Honest(w, log) && w.o.start <= |log|
    requires Fenced(w.env) && ProvedEnds(w, |log|) && HonestSummaries(w, |log|)
    requires At(w, |t|).pc.Done? && At(w, |t|).pc.result.Complete?
    ensures Values(Updates(t)) == log[w.o.start..]
  {
    hide At, ProvedEnds, Honest;
    FeedIsContiguous(w, t);
    FeedIsExactlyOnce(w, t, log);
    CompleteIsTheEnd(w, |t|, |log|);
  }
}
