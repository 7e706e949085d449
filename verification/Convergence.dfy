/** Properties of whole runs of chatReducer (apps/desktop/src/state.ts): what every
    cached view satisfies, and that any interleaving of snapshots with the replayed feed
    ends with the canonical view of the run. */
module Convergence {
  import opened Wrappers
  import opened OrderedMaps
  import opened StableSort
  import opened RunViews
  import opened RecentRuns
  import opened ChatState

  function ReduceAll(s: ChatState, actions: seq<Action>): ChatState {
    if actions == [] then s else Reduce(ReduceAll(s, actions[..|actions| - 1]), actions[|actions| - 1])
  }

  lemma {:induction false} ViewsStayUnique(s: ChatState, actions: seq<Action>)
    requires Unique(s.views)
    ensures Unique(ReduceAll(s, actions).views)
  {
    if actions != [] {
      var n := |actions| - 1;
      ViewsStayUnique(s, actions[..n]);
      ReduceView(ReduceAll(s, actions[..n]), actions[n], "");
    }
  }

  // ----- every reachable view -----

  lemma ViewMovesForward(s: ChatState, a: Action, id: string)
    requires Get(s.views, id).Some?
    ensures var before, after := Get(s.views, id).value, ViewAfter(s, a, id).value;
            && after.lastSequence >= before.lastSequence
            && after.run.lastSequence >= before.run.lastSequence
            && (before.localPrompt.Some? ==> after.localPrompt == before.localPrompt)
  {
    if a.IngestUpdate? && a.update.runId == id && Accepts(s, a.update) {
      AppliedFields(Get(s.views, id).value, a.update);
    }
  }

  /** While a view is cached its two cursors never go back, and its local prompt is
      written once. */
  lemma ViewsMoveForward(s: ChatState, a: Action, id: string)
    requires Unique(s.views)
    ensures var before, after := Get(s.views, id), Get(Reduce(s, a).views, id);
            before.Some? && after.Some? ==>
              && after.value.lastSequence >= before.value.lastSequence
              && after.value.run.lastSequence >= before.value.run.lastSequence
              && (before.value.localPrompt.Some? ==> after.value.localPrompt == before.value.localPrompt)
  {
    ReduceView(s, a, id);
    if Get(s.views, id).Some? {
      ViewMovesForward(s, a, id);
    }
  }

  /** What the view of run `id` has accepted after an action, if it is still cached. */
  function HistoryAfter(s: ChatState, a: Action, id: string, accepted: seq<RunUpdate>): seq<RunUpdate> {
    if Get(s.views, id).None? then []
    else if Ingests(s, a, id) then accepted + [a.update]
    else accepted
  }

  /** The updates the view of run `id` has accepted since it entered the cache. */
  function History(actions: seq<Action>, id: string): seq<RunUpdate> {
    if actions == [] then []
    else
      var n := |actions| - 1;
      HistoryAfter(ReduceAll(INITIAL, actions[..n]), actions[n], id, History(actions[..n], id))
  }

  /** Only an accepted update touches the feed of a cached view. */
  lemma FeedUntouched(s: ChatState, a: Action, id: string)
    requires !Ingests(s, a, id) && ViewAfter(s, a, id).Some?
    ensures var after := ViewAfter(s, a, id).value;
            match Get(s.views, id)
            case None => after.lastSequence == 0 && after.updates == [] && after.seenSequences == {}
            case Some(v) =>
              && after.lastSequence == v.lastSequence && after.updates == v.updates
              && after.seenSequences == v.seenSequences && after.run.lastSequence >= v.run.lastSequence
  {
    hide ApplyUpdate, SnapshotOutput, UpsertInteraction, Get;
  }

  predicate Ingests(s: ChatState, a: Action, id: string) {
    a.IngestUpdate? && a.update.runId == id && Accepts(s, a.update)
  }

  lemma OtherActionsStayFaithful(s: ChatState, a: Action, id: string, accepted: seq<RunUpdate>)
    requires Get(s.views, id).Some? ==> Faithful(Get(s.views, id).value, accepted)
    requires !Ingests(s, a, id) && ViewAfter(s, a, id).Some?
    ensures Faithful(ViewAfter(s, a, id).value, if Get(s.views, id).Some? then accepted else [])
  {
    FeedUntouched(s, a, id);
    var v := if Get(s.views, id).Some? then Get(s.views, id).value else ViewAfter(s, a, id).value;
    SameFeed(v, ViewAfter(s, a, id).value, if Get(s.views, id).Some? then accepted else []);
  }

  lemma IngestStaysFaithful(s: ChatState, a: Action, id: string, accepted: seq<RunUpdate>)
    requires Get(s.views, id).Some? && Faithful(Get(s.views, id).value, accepted) && Ingests(s, a, id)
    ensures ViewAfter(s, a, id).Some? && Faithful(ViewAfter(s, a, id).value, accepted + [a.update])
  {
    ApplyKeepsFaithful(Get(s.views, id).value, accepted, a.update);
  }

  lemma ViewStaysFaithful(s: ChatState, a: Action, id: string, accepted: seq<RunUpdate>)
    requires Get(s.views, id).Some? ==> Faithful(Get(s.views, id).value, accepted)
    requires ViewAfter(s, a, id).Some?
    ensures Faithful(ViewAfter(s, a, id).value, HistoryAfter(s, a, id, accepted))
  {
    if Ingests(s, a, id) {
      IngestStaysFaithful(s, a, id, accepted);
    } else {
      OtherActionsStayFaithful(s, a, id, accepted);
    }
  }

  lemma SameFeed(v: RunView, w: RunView, accepted: seq<RunUpdate>)
    requires Faithful(v, accepted)
             || (accepted == [] && v.lastSequence == 0 && v.updates == [] && v.seenSequences == {})
    requires w.lastSequence == v.lastSequence && w.updates == v.updates && w.seenSequences == v.seenSequences
    requires w.run.lastSequence >= v.run.lastSequence
    ensures Faithful(w, accepted)
  {
  }

  /** In every reachable state every cached view is faithful to what it accepted: its feed
      is the last 200 of the projected updates, and so on. */
  lemma {:induction false} ReachableViewsAreFaithful(actions: seq<Action>, id: string)
    ensures var s := ReduceAll(INITIAL, actions);
            Get(s.views, id).Some? ==> Faithful(Get(s.views, id).value, History(actions, id))
  {
    ViewsStayUnique(INITIAL, actions);
    if actions != [] {
      var n := |actions| - 1;
      ViewsStayUnique(INITIAL, actions[..n]);
      ReachableViewsAreFaithful(actions[..n], id);
      var s, a := ReduceAll(INITIAL, actions[..n]), actions[n];
      ReduceView(s, a, id);
      if ViewAfter(s, a, id).Some? {
        ViewStaysFaithful(s, a, id, History(actions[..n], id));
      }
    }
  }

  // ----- recent runs -----

  ghost predicate InOrder(runs: seq<Run>) {
    Distinct(runs) && Sorted(runs, NewerFirst) && |runs| <= MAX_RECENT_RUNS
  }

  lemma {:induction false} FilteringKeepsOrder(runs: seq<Run>, sessionId: string)
    requires InOrder(runs)
    ensures InOrder(RunsWithoutSession(runs, sessionId))
    ensures forall run :: run in RunsWithoutSession(runs, sessionId) <==> run in runs && run.sessionId != sessionId
    ensures |RunsWithoutSession(runs, sessionId)| <= |runs|
  {
    if runs != [] {
      FilteringKeepsOrder(runs[1..], sessionId);
      var later := RunsWithoutSession(runs[1..], sessionId);
      assert forall run <- later :: run in runs[1..];
    }
  }

  lemma RecentRunsAfter(s: ChatState, a: Action)
    requires InOrder(s.recentRuns)
    ensures InOrder(Reduce(s, a).recentRuns)
  {
    match a {
      case RemoveSession(sessionId) => FilteringKeepsOrder(s.recentRuns, sessionId);
      case UpsertRun(run) => MergeIsOrdered(s.recentRuns, [run]);
      case HydrateRun(d) => MergeIsOrdered(s.recentRuns, [d.run]);
      case IngestUpdate(u) =>
        if Accepts(s, u) {
          MergeIsOrdered(s.recentRuns, [ApplyUpdate(Get(s.views, u.runId).value, u).run]);
        }
      case ReplaceRecent(runs, _) => MergeIsOrdered([], Fresher(s.recentRuns, runs));
      case AppendRecent(runs, _) => MergeIsOrdered(s.recentRuns, runs);
      case _ =>
    }
  }

  /** In every reachable state the recent runs are distinct, newest first, and at most 200. */
  lemma {:induction false} RecentRunsStayInOrder(actions: seq<Action>)
    ensures InOrder(ReduceAll(INITIAL, actions).recentRuns)
  {
    if actions != [] {
      var n := |actions| - 1;
      RecentRunsStayInOrder(actions[..n]);
      RecentRunsAfter(ReduceAll(INITIAL, actions[..n]), actions[n]);
    }
  }

  /** Of all actions only the answer to an interaction that is still pending can leave a
      terminal view with pending interactions: the reducer does not check for it. */
  ghost predicate NothingPending(view: RunView) {
    IsTerminal(view.run.status) ==> view.pendingInteractions == []
  }

  predicate LateAnswer(s: ChatState, a: Action, id: string) {
    a.InteractionResolved? && a.interaction.pending && a.interaction.runId == id
    && Get(s.views, id).Some? && IsTerminal(Get(s.views, id).value.run.status)
  }

  lemma PendingAfter(s: ChatState, a: Action, id: string)
    requires Get(s.views, id).Some? ==> NothingPending(Get(s.views, id).value)
    ensures ViewAfter(s, a, id).Some? ==> (NothingPending(ViewAfter(s, a, id).value) <==> !LateAnswer(s, a, id))
  {
    if a.IngestUpdate? && a.update.runId == id && Accepts(s, a.update) {
      AppliedFields(Get(s.views, id).value, a.update);
    }
  }

  lemma PendingExactlyWhen(s: ChatState, a: Action, id: string)
    requires Unique(s.views)
    requires Get(s.views, id).Some? ==> NothingPending(Get(s.views, id).value)
    requires Get(Reduce(s, a).views, id).Some?
    ensures NothingPending(Get(Reduce(s, a).views, id).value) <==> !LateAnswer(s, a, id)
  {
    ReduceView(s, a, id);
    PendingAfter(s, a, id);
  }

  /** Such an answer stays: a run that has ended is hydrated, an answer comes that is still
      pending, and the view has it for good. */
  lemma LateAnswerStays(d: RunDetails, answer: Interaction)
    requires IsTerminal(d.run.status) && answer.pending && answer.runId == d.run.runId
    ensures var s := ReduceAll(INITIAL, [HydrateRun(d)]);
            var view := Get(Reduce(s, InteractionResolved(answer)).views, d.run.runId);
            && Get(s.views, d.run.runId).Some? && NothingPending(Get(s.views, d.run.runId).value)
            && LateAnswer(s, InteractionResolved(answer), d.run.runId)
            && view.Some? && IsTerminal(view.value.run.status) && view.value.pendingInteractions == [answer]
  {
    var s := Reduce(INITIAL, HydrateRun(d));
    assert [HydrateRun(d)][..0] == [];
    assert s.views == [(d.run.runId, Hydrated(None, d))];
  }

  // ----- what a view shows -----

  /** The durable log of one run; update i has sequence i + 1. */
  datatype RunLog = RunLog(runId: string, updates: seq<UpdateKind>)

  function Deltas(updates: seq<UpdateKind>): string {
    if updates == [] then ""
    else
      var n := |updates| - 1;
      Deltas(updates[..n]) + (if updates[n].OutputDelta? then updates[n].delta else "")
  }

  /** A finished log: its last update ends the run, no earlier one is a result, and the
      streamed deltas spell the result out or there are none. */
  ghost predicate Finished(log: RunLog) {
    var n := |log.updates|;
    && n > 0
    && (forall i :: 0 <= i < n - 1 ==> !log.updates[i].ResultUpdate?)
    && match log.updates[n - 1]
       case ResultUpdate(output, _, _) => Deltas(log.updates) == output || Deltas(log.updates) == ""
       case FailureUpdate(status, _, _) => IsTerminal(status)
       case CancellationUpdate(_) => true
       case _ => false
  }

  function FinalText(log: RunLog): string
    requires log.updates != []
  {
    var last := log.updates[|log.updates| - 1];
    if last.ResultUpdate? then last.output else Deltas(log.updates)
  }

  predicate EndsInResult(kinds: seq<UpdateKind>) {
    kinds != [] && kinds[|kinds| - 1].ResultUpdate?
  }

  /** The output of a view that has consumed these updates and had no result before: the
      text they stream, or the result they end in when they stream none. */
  function OutputOf(kinds: seq<UpdateKind>): string {
    var text := Deltas(kinds);
    BoundedOutput(if text == "" && EndsInResult(kinds) then kinds[|kinds| - 1].output else text)
  }

  /** A snapshot taken from the log: a terminal summary only at its end, with the full
      result text or without it. */
  ghost predicate SnapshotOf(log: RunLog, run: Run) {
    && run.lastSequence <= |log.updates|
    && (run.lastSequence == |log.updates| ==> IsTerminal(run.status))
    && (run.terminal.Some? && run.terminal.value.Result? && run.terminal.value.output != "" ==>
          && run.lastSequence == |log.updates| > 0
          && log.updates[|log.updates| - 1].ResultUpdate?
          && run.terminal.value.output == FinalText(log))
  }

  ghost predicate UpdateOf(log: RunLog, u: RunUpdate) {
    1 <= u.sequence <= |log.updates| && u.update == log.updates[u.sequence - 1]
  }

  /** What an action says of the run comes from its log, and answers are no longer pending;
      nothing is asked about the order or the gaps of updates. */
  ghost predicate FromLog(log: RunLog, a: Action) {
    match a
    case UpsertRun(run) => run.runId == log.runId ==> SnapshotOf(log, run)
    case HydrateRun(d) => d.run.runId == log.runId ==> SnapshotOf(log, d.run)
    case IngestUpdate(u) => u.runId == log.runId ==> UpdateOf(log, u)
    case InteractionResolved(i) => i.runId == log.runId ==> !i.pending
    case _ => true
  }

  /** The view shows the result text, once a snapshot has brought it, or what the updates
      it has consumed stream; at the end of the log its run has ended. */
  ghost predicate Shows(log: RunLog, view: RunView, kinds: seq<UpdateKind>)
    requires log.updates != []
  {
    var n := |log.updates|;
    && view.lastSequence <= n && view.run.lastSequence <= n
    && (forall q <- view.seenSequences :: q <= view.lastSequence)
    && (view.outputSnapshotSequence == 0
        || (view.outputSnapshotSequence == n && log.updates[n - 1].ResultUpdate? && FinalText(log) != ""))
    && view.output == (if view.outputSnapshotSequence == n then BoundedOutput(FinalText(log)) else OutputOf(kinds))
    && (EndsInResult(kinds) ==> view.lastSequence == n)
    && (view.lastSequence == n ==> IsTerminal(view.run.status) && view.pendingInteractions == [])
  }

  lemma SnapshotShows(log: RunLog, current: Option<RunView>, kinds: seq<UpdateKind>, run: Run)
    requires Finished(log) && SnapshotOf(log, run)
    requires if current.Some? then Shows(log, current.value, kinds) && !IsStaleSnapshot(current.value, run)
             else kinds == []
    ensures Shows(log, Upserted(current, run), kinds)
    ensures forall d: RunDetails :: d.run == run ==> Shows(log, Hydrated(current, d), kinds)
  {
  }

  lemma OutputAdvances(kinds: seq<UpdateKind>, u: UpdateKind)
    requires !EndsInResult(kinds)
    ensures var before, after := OutputOf(kinds), OutputOf(kinds + [u]);
            match u
            case OutputDelta(delta) => after == BoundedOutput(before + delta)
            case ResultUpdate(text, _, _) => after == if before == "" then BoundedOutput(text) else before
            case _ => after == before
  {
    assert (kinds + [u])[..|kinds|] == kinds;
    assert Deltas(kinds) + "" == Deltas(kinds);
    if u.OutputDelta? {
      BoundingIsExact(Deltas(kinds), u.delta);
    }
  }

  /** At the end of the log the last update ends the run. */
  lemma EndIsTerminal(log: RunLog, view: RunView, u: RunUpdate)
    requires Finished(log) && u.update == log.updates[|log.updates| - 1] && u.sequence !in view.seenSequences
    ensures IsTerminal(ApplyUpdate(view, u).run.status)
  {
  }

  lemma UpdateOutput(log: RunLog, view: RunView, kinds: seq<UpdateKind>, u: RunUpdate)
    requires Finished(log) && Shows(log, view, kinds) && UpdateOf(log, u) && u.sequence > view.lastSequence
    ensures ApplyUpdate(view, u).output
         == if view.outputSnapshotSequence == |log.updates| then BoundedOutput(FinalText(log))
            else OutputOf(kinds + [u.update])
  {
    hide OutputOf, Deltas;
    OutputAdvances(kinds, u.update);
  }

  /** Every update of the log beyond the cursor, next to it or not, is shown. */
  lemma UpdateShows(log: RunLog, view: RunView, kinds: seq<UpdateKind>, u: RunUpdate)
    requires Finished(log) && Shows(log, view, kinds) && UpdateOf(log, u) && u.sequence > view.lastSequence
    ensures Shows(log, ApplyUpdate(view, u), kinds + [u.update])
  {
    hide ApplyUpdate, OutputOf, BoundedOutput;
    AppliedFields(view, u);
    UpdateOutput(log, view, kinds, u);
    if u.sequence == |log.updates| {
      EndIsTerminal(log, view, u);
    }
  }

  function Kinds(updates: seq<RunUpdate>): seq<UpdateKind> {
    seq(|updates|, i requires 0 <= i < |updates| => updates[i].update)
  }

  lemma EditShows(log: RunLog, view: RunView, kinds: seq<UpdateKind>, a: Action)
    requires Finished(log) && Shows(log, view, kinds) && (a.InteractionResolved? ==> !a.interaction.pending)
    ensures Shows(log, Edit(view, a), kinds)
  {
  }

  lemma ActionShows(log: RunLog, s: ChatState, a: Action, kinds: seq<UpdateKind>)
    requires Finished(log) && FromLog(log, a)
    requires var view := Get(s.views, log.runId); if view.Some? then Shows(log, view.value, kinds) else kinds == []
    ensures var after := ViewAfter(s, a, log.runId);
            after.Some? ==>
              Shows(log, after.value, if Ingests(s, a, log.runId) then kinds + [a.update.update] else kinds)
  {
    hide Shows, Upserted, Hydrated, Edit, ApplyUpdate;
    var view := Get(s.views, log.runId);
    if view.Some? && Target(a) == Some(log.runId) {
      EditShows(log, view.value, kinds, a);
    } else if Ingests(s, a, log.runId) {
      UpdateShows(log, view.value, kinds, a.update);
    } else if a.UpsertRun? && a.run.runId == log.runId && !Stale(s, a.run) {
      SnapshotShows(log, view, kinds, a.run);
    } else if a.HydrateRun? && a.details.run.runId == log.runId && !Stale(s, a.details.run) {
      SnapshotShows(log, view, kinds, a.details.run);
    }
  }

  /** Whatever the order and the gaps of its feed: every cached view shows the result text,
      once a snapshot has brought it, or the text streamed by the updates it has accepted. */
  lemma {:induction false} ViewsShowWhatTheyAccepted(log: RunLog, actions: seq<Action>)
    requires Finished(log) && forall a <- actions :: FromLog(log, a)
    ensures var view := Get(ReduceAll(INITIAL, actions).views, log.runId);
            view.Some? ==> Shows(log, view.value, Kinds(History(actions, log.runId)))
  {
    hide Shows, ViewAfter, FromLog, Reduce;
    ViewsStayUnique(INITIAL, actions);
    if actions != [] {
      var n := |actions| - 1;
      var s, a, accepted := ReduceAll(INITIAL, actions[..n]), actions[n], History(actions[..n], log.runId);
      ViewsStayUnique(INITIAL, actions[..n]);
      ViewsShowWhatTheyAccepted(log, actions[..n]);
      ReduceView(s, a, log.runId);
      ActionShows(log, s, a, if Get(s.views, log.runId).Some? then Kinds(accepted) else []);
      assert Kinds([]) == [];
      assert a.IngestUpdate? ==> Kinds(accepted + [a.update]) == Kinds(accepted) + [a.update.update];
    }
  }

  // ----- convergence -----

  /** An action that is consistent with the log and whose updates leave no gap. */
  ghost predicate ConsistentWith(log: RunLog, s: ChatState, a: Action) {
    && FromLog(log, a)
    && (a.IngestUpdate? && a.update.runId == log.runId && Get(s.views, log.runId).Some? ==>
          a.update.sequence <= Get(s.views, log.runId).value.lastSequence + 1)
  }

  /** The view of the run agrees with the log at the cursor of its feed. */
  ghost predicate Agrees(log: RunLog, view: RunView)
    requires log.updates != []
  {
    view.lastSequence <= |log.updates| && Shows(log, view, log.updates[..view.lastSequence])
  }

  lemma SnapshotAgrees(log: RunLog, current: Option<RunView>, run: Run)
    requires Finished(log) && SnapshotOf(log, run)
    requires current.Some? ==> Agrees(log, current.value) && !IsStaleSnapshot(current.value, run)
    ensures Agrees(log, Upserted(current, run))
    ensures forall d: RunDetails :: d.run == run ==> Agrees(log, Hydrated(current, d))
  {
    hide Shows;
    SnapshotShows(log, current, log.updates[..if current.Some? then current.value.lastSequence else 0], run);
  }

  lemma UpdateAgrees(log: RunLog, view: RunView, u: RunUpdate)
    requires Finished(log) && Agrees(log, view) && UpdateOf(log, u) && u.sequence == view.lastSequence + 1
    ensures Agrees(log, ApplyUpdate(view, u))
  {
    hide ApplyUpdate, OutputOf;
    UpdateShows(log, view, log.updates[..view.lastSequence], u);
    AppliedFields(view, u);
    assert log.updates[..u.sequence] == log.updates[..view.lastSequence] + [u.update];
  }

  lemma ActionAgrees(log: RunLog, s: ChatState, a: Action)
    requires Finished(log) && ConsistentWith(log, s, a)
    requires Get(s.views, log.runId).Some? ==> Agrees(log, Get(s.views, log.runId).value)
    ensures ViewAfter(s, a, log.runId).Some? ==> Agrees(log, ViewAfter(s, a, log.runId).value)
  {
    hide ApplyUpdate, Shows;
    var view := Get(s.views, log.runId);
    if Ingests(s, a, log.runId) {
      UpdateAgrees(log, view.value, a.update);
    } else if ViewAfter(s, a, log.runId).Some? {
      FeedUntouched(s, a, log.runId);
      ActionShows(log, s, a, if view.Some? then log.updates[..view.value.lastSequence] else []);
      assert log.updates[..0] == [];
    }
  }

  /** Every consistent action keeps the agreement. */
  lemma ReduceAgrees(log: RunLog, s: ChatState, a: Action)
    requires Finished(log) && Unique(s.views) && ConsistentWith(log, s, a)
    requires Get(s.views, log.runId).Some? ==> Agrees(log, Get(s.views, log.runId).value)
    ensures Get(Reduce(s, a).views, log.runId).Some? ==> Agrees(log, Get(Reduce(s, a).views, log.runId).value)
  {
    hide Shows, ViewAfter, ConsistentWith, Reduce;
    ReduceView(s, a, log.runId);
    ActionAgrees(log, s, a);
  }

  ghost predicate AllConsistent(log: RunLog, s: ChatState, actions: seq<Action>) {
    forall i :: 0 <= i < |actions| ==> ConsistentWith(log, ReduceAll(s, actions[..i]), actions[i])
  }

  lemma {:induction false} RunsAgree(log: RunLog, s: ChatState, actions: seq<Action>)
    requires Finished(log) && Unique(s.views) && AllConsistent(log, s, actions)
    requires Get(s.views, log.runId).Some? ==> Agrees(log, Get(s.views, log.runId).value)
    ensures var r := ReduceAll(s, actions);
            Unique(r.views) && (Get(r.views, log.runId).Some? ==> Agrees(log, Get(r.views, log.runId).value))
  {
    hide Agrees, ConsistentWith, Reduce;
    if actions != [] {
      var n := |actions| - 1;
      forall i | 0 <= i < n ensures ConsistentWith(log, ReduceAll(s, actions[..n][..i]), actions[..n][i]) {
        assert actions[..n][..i] == actions[..i];
      }
      RunsAgree(log, s, actions[..n]);
      ReduceAgrees(log, ReduceAll(s, actions[..n]), actions[n]);
      ReduceView(ReduceAll(s, actions[..n]), actions[n], log.runId);
    }
  }

  /** What the log streams up to a cursor; all of it is the final text. */
  lemma PrefixOutput(log: RunLog, c: nat)
    requires Finished(log) && c <= |log.updates|
    ensures OutputOf(log.updates[..c])
         == BoundedOutput(if c == |log.updates| then FinalText(log) else Deltas(log.updates[..c]))
  {
    hide Deltas;
    if c == |log.updates| {
      assert log.updates[..c] == log.updates;
    }
  }

  /** Convergence: from the initial state, after any interleaving of snapshots of a finished
      run, updates of its log without gaps, and anything at all about other runs, a view
      whose feed has reached the end of the log shows the canonical output, a terminal
      status and no pending interaction. No delta is counted twice or lost around a
      snapshot, and a view whose feed is behind shows the canonical output too once a
      terminal snapshot with the result text has been seen. */
  lemma ViewsConverge(log: RunLog, actions: seq<Action>)
    requires Finished(log) && AllConsistent(log, INITIAL, actions)
    ensures var view, n := Get(ReduceAll(INITIAL, actions).views, log.runId), |log.updates|;
            view.Some? ==>
              var v := view.value;
              && v.lastSequence <= n
              && (v.lastSequence == n ==> ShowsResult(log, v))
              && (v.lastSequence < n ==>
                    v.output == BoundedOutput(if v.outputSnapshotSequence == n then FinalText(log)
                                              else Deltas(log.updates[..v.lastSequence])))
  {
    hide ReduceAll, AllConsistent;
    RunsAgree(log, INITIAL, actions);
    var view := Get(ReduceAll(INITIAL, actions).views, log.runId);
    if view.Some? {
      PrefixOutput(log, view.value.lastSequence);
    }
  }

  ghost predicate ShowsResult(log: RunLog, view: RunView)
    requires log.updates != []
  {
    view.output == BoundedOutput(FinalText(log)) && IsTerminal(view.run.status) && view.pendingInteractions == []
  }

  // ----- feeds with a gap -----

  /** The end of a text that is too long to be shown whole. */
  function ShownEnd(text: string): string
    requires |text| >= MAX_OUTPUT_CHARACTERS
  {
    OUTPUT_OMISSION + text[|text| - (MAX_OUTPUT_CHARACTERS - |OUTPUT_OMISSION|)..]
  }

  /** Dropping a piece from the middle of a text does not show: nothing is dropped, or the
      text is too long to be shown whole and the end shown is the same. */
  predicate DropsUnseen(before: string, dropped: string, after: string) {
    var whole, left := before + dropped + after, before + after;
    dropped == ""
    || (|whole| > MAX_OUTPUT_CHARACTERS
        && ShownEnd(whole) == if |left| > MAX_OUTPUT_CHARACTERS then ShownEnd(left) else left)
  }

  lemma DropsUnseenExactlyWhen(before: string, dropped: string, after: string)
    ensures BoundedOutput(before + after) == BoundedOutput(before + dropped + after)
       <==> DropsUnseen(before, dropped, after)
  {
    if dropped == "" {
      assert before + dropped == before;
    }
  }

  /** A feed that has gone from cursor v to cursor c without the updates between them shows
      the canonical output: the skipped text is unseen, or no other is streamed and the log
      ends in its result. */
  predicate SkipsUnseen(log: RunLog, v: nat, c: nat)
    requires v <= c <= |log.updates|
  {
    var before, skipped, after := Deltas(log.updates[..v]), Deltas(log.updates[v..c]), Deltas(log.updates[c..]);
    (before + after == "" && EndsInResult(log.updates)) || DropsUnseen(before, skipped, after)
  }

  lemma {:induction false} DeltasAppend(a: seq<UpdateKind>, b: seq<UpdateKind>)
    ensures Deltas(a + b) == Deltas(a) + Deltas(b)
    decreases |b|
  {
    if b == [] {
      assert a + b == a && Deltas(a) + "" == Deltas(a);
    } else {
      var n := |b| - 1;
      assert (a + b)[..|a + b| - 1] == a + b[..n];
      DeltasAppend(a, b[..n]);
    }
  }

  lemma DeltasInParts(updates: seq<UpdateKind>, v: nat, c: nat)
    requires v <= c <= |updates|
    ensures Deltas(updates) == Deltas(updates[..v]) + Deltas(updates[v..c]) + Deltas(updates[c..])
    ensures Deltas(updates[..v] + updates[c..]) == Deltas(updates[..v]) + Deltas(updates[c..])
  {
    hide Deltas;
    Parts(updates, v, c);
    DeltasAppend(updates[..c], updates[c..]);
    DeltasAppend(updates[..v], updates[v..c]);
    DeltasAppend(updates[..v], updates[c..]);
  }

  lemma Parts(updates: seq<UpdateKind>, v: nat, c: nat)
    requires v <= c <= |updates|
    ensures updates[..c] == updates[..v] + updates[v..c] && updates == updates[..c] + updates[c..]
  {
  }

  /** What a gap in its feed costs a view: at the end of the log it shows the canonical
      output exactly when a snapshot has brought the result or the gap is unseen. */
  lemma GapShowsExactlyWhen(log: RunLog, view: RunView, v: nat, c: nat)
    requires Finished(log) && v <= c < |log.updates|
    requires Shows(log, view, log.updates[..v] + log.updates[c..])
    ensures view.output == BoundedOutput(FinalText(log))
       <==> view.outputSnapshotSequence == |log.updates| || SkipsUnseen(log, v, c)
  {
    hide Deltas, BoundedOutput, DropsUnseen;
    var kinds, n := log.updates[..v] + log.updates[c..], |log.updates|;
    var before, skipped, after := Deltas(log.updates[..v]), Deltas(log.updates[v..c]), Deltas(log.updates[c..]);
    assert kinds[|kinds| - 1] == log.updates[n - 1];
    DeltasInParts(log.updates, v, c);
    if view.outputSnapshotSequence != n && !(before + after == "" && EndsInResult(log.updates)) {
      assert view.output == BoundedOutput(before + after);
      assert FinalText(log) == before + skipped + after by {
        assert before + skipped + after == "" ==> |before| == |after| == 0;
      }
      DropsUnseenExactlyWhen(before, skipped, after);
    }
  }
}
