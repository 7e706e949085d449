/** chatReducer of apps/desktop/src/state.ts: cached run views and recent runs. */
module ChatState {
  import opened Wrappers
  import opened OrderedMaps
  import opened RunViews
  import opened RecentRuns

  const MAX_CACHED_RUN_VIEWS: nat := 12

  type Views = Entries<string, RunView>

  datatype ChatState = ChatState(activeRunId: Option<string>, views: Views, recentRuns: seq<Run>, nextPageToken: string)

  const INITIAL := ChatState(None, [], [], "")

  datatype RunDetails = RunDetails(run: Run, pendingInteractions: seq<Interaction>, initialPrompt: Option<string>)

  datatype Action =
    | ResetState
    | SelectRun(selected: Option<string>)
    | UpsertRun(run: Run)
    | RecordLocalPrompt(runId: string, prompt: string)
    | RecordPlanContinuation(runId: string, planId: string, revision: int)
    | HydrateRun(details: RunDetails)
    | IngestUpdate(update: RunUpdate)
    | WatchStarted(runId: string)
    | WatchComplete(runId: string)
    | WatchError(runId: string, error: string)
    | InteractionResolved(interaction: Interaction)
    | ReplaceRecent(runs: seq<Run>, nextPageToken: string)
    | AppendRecent(runs: seq<Run>, nextPageToken: string)
    | RemoveSession(sessionId: string)

  // ----- the view cache -----

  /** A view that may leave the cache: terminal, not selected and not just touched. */
  predicate Evictable(e: (string, RunView), active: Option<string>, guarded: Option<string>) {
    Some(e.0) != active && Some(e.0) != guarded && IsTerminal(e.1.run.status)
  }

  /** Drop the first `excess` evictable views. */
  function Evict(views: Views, excess: nat, active: Option<string>, guarded: Option<string>): (r: Views)
    ensures Keys(r) <= Keys(views)
    ensures Unique(views) ==> Unique(r)
    ensures |views| - excess <= |r| <= |views|
  {
    if views == [] || excess == 0 then views
    else if Evictable(views[0], active, guarded) then Evict(views[1..], excess - 1, active, guarded)
    else
      var r := Evict(views[1..], excess, active, guarded);
      assert ([views[0]] + r)[1..] == r;
      [views[0]] + r
  }

  function Trim(views: Views, active: Option<string>, guarded: Option<string>): Views {
    Evict(views, Max(0, |views| - MAX_CACHED_RUN_VIEWS), active, guarded)
  }

  /** Half way through: evicting `excess` of the views still to look at leads to the end. */
  ghost predicate Trimming(kept: Views, rest: Views, excess: nat, active: Option<string>, guarded: Option<string>,
                           trimmed: Views)
  {
    kept + Evict(rest, excess, active, guarded) == trimmed
  }

  method TrimViewCache(views: Views, active: Option<string>, guarded: Option<string>) returns (next: Views)
    requires Unique(views)
    ensures next == Trim(views, active, guarded)
  {
    hide Trimming, Evict, Unique, Evictable;
    next := views;
    if |views| <= MAX_CACHED_RUN_VIEWS {
      EvictAll(views, 0, active, guarded);
      EvictedAll([], views, 0, active, guarded, Trim(views, active, guarded));
      return;
    }
    ghost var kept, excess, trimmed := [], |views| - MAX_CACHED_RUN_VIEWS, Trim(views, active, guarded);
    var rest := views;
    assert kept + rest == views;
    EvictAll(views, excess, active, guarded);
    while rest != [] && |next| > MAX_CACHED_RUN_VIEWS
      invariant next == kept + rest && Unique(next) && |next| == MAX_CACHED_RUN_VIEWS + excess && excess >= 0
      invariant Trimming(kept, rest, excess, active, guarded, trimmed)
      decreases |rest|
    {
      EvictOne(kept, rest, excess, active, guarded, trimmed);
      if Evictable(rest[0], active, guarded) {
        DeleteAt(kept, rest);
        next := Delete(next, rest[0].0);
        excess := excess - 1;
      } else {
        assert next == (kept + [rest[0]]) + rest[1..];
        kept := kept + [rest[0]];
      }
      rest := rest[1..];
    }
    EvictedAll(kept, rest, excess, active, guarded, trimmed);
  }

  lemma EvictAll(views: Views, excess: nat, active: Option<string>, guarded: Option<string>)
    ensures Trimming([], views, excess, active, guarded, Evict(views, excess, active, guarded))
  {
  }

  lemma EvictedAll(kept: Views, rest: Views, excess: nat, active: Option<string>, guarded: Option<string>,
                   trimmed: Views)
    requires Trimming(kept, rest, excess, active, guarded, trimmed) && (rest == [] || excess == 0)
    ensures kept + rest == trimmed
  {
  }

  lemma EvictOne(kept: Views, rest: Views, excess: nat, active: Option<string>, guarded: Option<string>, trimmed: Views)
    requires rest != [] && excess > 0 && Trimming(kept, rest, excess, active, guarded, trimmed)
    ensures if Evictable(rest[0], active, guarded) then Trimming(kept, rest[1..], excess - 1, active, guarded, trimmed)
            else Trimming(kept + [rest[0]], rest[1..], excess, active, guarded, trimmed)
  {
    if !Evictable(rest[0], active, guarded) {
      var later := Evict(rest[1..], excess, active, guarded);
      assert kept + ([rest[0]] + later) == kept + [rest[0]] + later;
    }
  }

  lemma DeleteAt(kept: Views, rest: Views)
    requires Unique(kept + rest) && rest != []
    ensures Delete(kept + rest, rest[0].0) == kept + rest[1..] && Unique(kept + rest[1..])
  {
    Append(kept, rest);
    DeleteAppend(kept, rest, rest[0].0);
    Append(kept, rest[1..]);
  }

  lemma {:induction false} EvictKeepsWhatMatters(views: Views, excess: nat, active: Option<string>,
                                                 guarded: Option<string>, id: string)
    requires Unique(views)
    ensures var r := Evict(views, excess, active, guarded);
            && (Get(r, id) == Get(views, id)
                || (Get(r, id).None? && Evictable((id, Get(views, id).value), active, guarded)))
            && (|r| > |views| - excess ==> forall e <- r :: !Evictable(e, active, guarded))
  {
    if views != [] && excess > 0 {
      var r := Evict(views, excess, active, guarded);
      if Evictable(views[0], active, guarded) {
        EvictKeepsWhatMatters(views[1..], excess - 1, active, guarded, id);
      } else {
        EvictKeepsWhatMatters(views[1..], excess, active, guarded, id);
        assert r[1..] == Evict(views[1..], excess, active, guarded);
      }
    }
  }

  /** Trimming removes only terminal views that are neither selected nor just touched, each
      other one stays as it was, and more than twelve stay only if none of them may go. */
  lemma TrimKeepsWhatMatters(views: Views, active: Option<string>, guarded: Option<string>, id: string)
    requires Unique(views)
    ensures var r := Trim(views, active, guarded);
            && (Get(r, id) == Get(views, id)
                || (Get(r, id).None? && IsTerminal(Get(views, id).value.run.status)
                    && Some(id) != active && Some(id) != guarded))
            && |r| >= Min(|views|, MAX_CACHED_RUN_VIEWS)
            && (|r| > MAX_CACHED_RUN_VIEWS ==>
                  forall e <- r :: Some(e.0) == active || Some(e.0) == guarded || !IsTerminal(e.1.run.status))
  {
    EvictKeepsWhatMatters(views, Max(0, |views| - MAX_CACHED_RUN_VIEWS), active, guarded, id);
  }

  // ----- the reducer -----

  function WithRun(current: RunView, run: Run, pending: seq<Interaction>): RunView {
    var (output, snapshot) := SnapshotOutput(run, Some(current));
    current.(run := CompactRun(run), output := output, outputSnapshotSequence := snapshot,
             pendingInteractions := if IsTerminal(run.status) then [] else pending)
  }

  /** The view after an accepted snapshot from upsert_run. */
  function Upserted(current: Option<RunView>, run: Run): RunView {
    match current
    case None => NewView(run, [])
    case Some(view) => WithRun(view, run, view.pendingInteractions)
  }

  /** The view after an accepted snapshot from hydrate_run. */
  function Hydrated(current: Option<RunView>, d: RunDetails): RunView {
    match current
    case None => NewView(d.run, d.pendingInteractions).(localPrompt := d.initialPrompt)
    case Some(view) =>
      WithRun(view, d.run, d.pendingInteractions)
        .(localPrompt := if view.localPrompt.Some? then view.localPrompt else d.initialPrompt)
  }

  function Resolved(view: RunView, interaction: Interaction): RunView {
    var pending := UpsertInteraction(view.pendingInteractions, interaction);
    view.(pendingInteractions := pending, run := view.run.(pendingInteractionCount := |pending|))
  }

  /** The run whose view an action edits in place, if that is all it does. */
  function Target(a: Action): Option<string> {
    match a
    case RecordLocalPrompt(id, _) => Some(id)
    case RecordPlanContinuation(id, _, _) => Some(id)
    case WatchStarted(id) => Some(id)
    case WatchComplete(id) => Some(id)
    case WatchError(id, _) => Some(id)
    case InteractionResolved(i) => Some(i.runId)
    case _ => None
  }

  function Edit(view: RunView, a: Action): RunView {
    match a
    case RecordLocalPrompt(_, prompt) =>
      view.(localPrompt := if view.localPrompt.Some? then view.localPrompt else Some(prompt))
    case RecordPlanContinuation(_, planId, revision) => view.(planContinuation := Some((planId, revision)))
    case WatchStarted(_) => view.(streamState := Watching, streamError := None)
    case WatchComplete(_) => view.(streamState := Complete, streamError := None)
    case WatchError(_, error) => view.(streamState := Error, streamError := Some(error))
    case InteractionResolved(i) => Resolved(view, i)
    case _ => view
  }

  /** updateViewMap */
  function UpdateView(views: Views, id: string, a: Action): Views {
    var view := Get(views, id);
    if view.None? then views else Put(views, id, Edit(view.value, a))
  }

  function Snapshot(s: ChatState, run: Run, view: RunView): ChatState {
    s.(views := Trim(Put(s.views, run.runId, view), s.activeRunId, Some(run.runId)),
       recentRuns := Merge(s.recentRuns, [run]))
  }

  predicate Accepts(s: ChatState, u: RunUpdate) {
    var current := Get(s.views, u.runId);
    current.Some? && u.sequence !in current.value.seenSequences && u.sequence > current.value.lastSequence
  }

  predicate Stale(s: ChatState, run: Run) {
    var current := Get(s.views, run.runId);
    current.Some? && IsStaleSnapshot(current.value, run)
  }

  function WithoutSession(views: Views, sessionId: string): (r: Views)
    ensures Keys(r) <= Keys(views)
    ensures Unique(views) ==> Unique(r)
  {
    if views == [] then []
    else
      var r := WithoutSession(views[1..], sessionId);
      assert ([views[0]] + r)[1..] == r;
      if views[0].1.run.sessionId == sessionId then r else [views[0]] + r
  }

  function RunsWithoutSession(runs: seq<Run>, sessionId: string): seq<Run> {
    if runs == [] then []
    else (if runs[0].sessionId == sessionId then [] else [runs[0]]) + RunsWithoutSession(runs[1..], sessionId)
  }

  function Reduce(s: ChatState, a: Action): ChatState {
    match a
    case ResetState => INITIAL
    case SelectRun(id) => s.(activeRunId := id, views := Trim(s.views, id, None))
    case UpsertRun(run) =>
      if Stale(s, run) then s else Snapshot(s, run, Upserted(Get(s.views, run.runId), run))
    case HydrateRun(d) =>
      if Stale(s, d.run) then s else Snapshot(s, d.run, Hydrated(Get(s.views, d.run.runId), d))
    case IngestUpdate(u) =>
      if !Accepts(s, u) then s
      else
        var view := ApplyUpdate(Get(s.views, u.runId).value, u);
        s.(views := Trim(Put(s.views, u.runId, view), s.activeRunId, None),
           recentRuns := Merge(s.recentRuns, [view.run]))
    case ReplaceRecent(runs, token) => s.(recentRuns := Refresh(s.recentRuns, runs), nextPageToken := token)
    case AppendRecent(runs, token) => s.(recentRuns := Merge(s.recentRuns, runs), nextPageToken := token)
    case RemoveSession(sessionId) =>
      var gone := s.activeRunId.Some? && Get(s.views, s.activeRunId.value).Some?
                  && Get(s.views, s.activeRunId.value).value.run.sessionId == sessionId;
      s.(activeRunId := if gone then None else s.activeRunId,
         views := WithoutSession(s.views, sessionId),
         recentRuns := RunsWithoutSession(s.recentRuns, sessionId))
    case _ => s.(views := UpdateView(s.views, Target(a).value, a))
  }

  // ----- one view through one action -----

  /** What an action makes of the view of run `id`, if the view survives it. */
  function ViewAfter(s: ChatState, a: Action, id: string): Option<RunView> {
    var view := Get(s.views, id);
    match a
    case UpsertRun(run) => if run.runId != id || Stale(s, run) then view else Some(Upserted(view, run))
    case HydrateRun(d) => if d.run.runId != id || Stale(s, d.run) then view else Some(Hydrated(view, d))
    case IngestUpdate(u) => if u.runId != id || !Accepts(s, u) then view else Some(ApplyUpdate(view.value, u))
    case _ => if view.Some? && Target(a) == Some(id) then Some(Edit(view.value, a)) else view
  }

  lemma {:induction false} GetWithoutSession(views: Views, sessionId: string, id: string)
    requires Unique(views)
    ensures var v := Get(views, id);
            Get(WithoutSession(views, sessionId), id)
            == if v.Some? && v.value.run.sessionId == sessionId then None else v
  {
    if views != [] {
      GetWithoutSession(views[1..], sessionId, id);
      var r := WithoutSession(views[1..], sessionId);
      assert ([views[0]] + r)[1..] == r;
    }
  }

  predicate KeepsSelection(a: Action, id: string) {
    !a.ResetState? && !a.RemoveSession? && (a.SelectRun? ==> a.selected == Some(id))
  }

  /** The view of run `id` is what the action makes of it, or it has been dropped; the
      selected view is dropped only by a reset or with its session. */
  ghost predicate Follows(s: ChatState, a: Action, r: ChatState, id: string) {
    && Unique(r.views)
    && (Get(r.views, id).None? || Get(r.views, id) == ViewAfter(s, a, id))
    && (s.activeRunId == Some(id) && KeepsSelection(a, id) ==>
          Get(r.views, id) == ViewAfter(s, a, id) && r.activeRunId == Some(id))
  }

  lemma SnapshotFollows(s: ChatState, a: Action, id: string)
    requires Unique(s.views) && (a.UpsertRun? || a.HydrateRun?)
    ensures Follows(s, a, Reduce(s, a), id)
  {
    match a {
      case UpsertRun(run) =>
        PutTrimView(s.views, run.runId, Upserted(Get(s.views, run.runId), run), s.activeRunId, Some(run.runId), id);
      case HydrateRun(d) =>
        PutTrimView(s.views, d.run.runId, Hydrated(Get(s.views, d.run.runId), d), s.activeRunId, Some(d.run.runId), id);
    }
  }

  lemma IngestFollows(s: ChatState, a: Action, id: string)
    requires Unique(s.views) && a.IngestUpdate?
    ensures Follows(s, a, Reduce(s, a), id)
  {
    var u := a.update;
    if Accepts(s, u) {
      PutTrimView(s.views, u.runId, ApplyUpdate(Get(s.views, u.runId).value, u), s.activeRunId, None, id);
    }
  }

  lemma EditFollows(s: ChatState, a: Action, id: string)
    requires Unique(s.views) && Target(a).Some?
    ensures Follows(s, a, Reduce(s, a), id)
  {
    hide Edit, UpdateView, Get, Unique;
    EditedView(s.views, Target(a).value, a, id);
  }

  lemma OtherFollows(s: ChatState, a: Action, id: string)
    requires Unique(s.views) && Target(a).None? && !a.UpsertRun? && !a.HydrateRun? && !a.IngestUpdate?
    ensures Follows(s, a, Reduce(s, a), id)
  {
    hide Trim, Refresh, Merge;
    if a.SelectRun? {
      TrimView(s.views, a.selected, None, id);
    } else if a.RemoveSession? {
      GetWithoutSession(s.views, a.sessionId, id);
    }
  }

  /** An action touches no view but that of its own run. */
  lemma ReduceView(s: ChatState, a: Action, id: string)
    requires Unique(s.views)
    ensures Follows(s, a, Reduce(s, a), id)
  {
    hide Follows, Reduce;
    if a.UpsertRun? || a.HydrateRun? {
      SnapshotFollows(s, a, id);
    } else if a.IngestUpdate? {
      IngestFollows(s, a, id);
    } else if Target(a).Some? {
      EditFollows(s, a, id);
    } else {
      OtherFollows(s, a, id);
    }
  }

  lemma EditedView(views: Views, key: string, a: Action, id: string)
    requires Unique(views)
    ensures var r, v := UpdateView(views, key, a), Get(views, id);
            Unique(r) && Get(r, id) == if v.Some? && id == key then Some(Edit(v.value, a)) else v
  {
    if Get(views, key).Some? {
      GetPut(views, key, Edit(Get(views, key).value, a), id);
    }
  }

  lemma TrimView(views: Views, active: Option<string>, guarded: Option<string>, id: string)
    requires Unique(views)
    ensures var r := Trim(views, active, guarded);
            && Unique(r) && (Get(r, id).None? || Get(r, id) == Get(views, id))
            && (active == Some(id) || guarded == Some(id) ==> Get(r, id) == Get(views, id))
  {
    EvictKeepsWhatMatters(views, Max(0, |views| - MAX_CACHED_RUN_VIEWS), active, guarded, id);
  }

  lemma PutTrimView(views: Views, key: string, view: RunView, active: Option<string>, guarded: Option<string>,
                    id: string)
    requires Unique(views)
    ensures var r := Trim(Put(views, key, view), active, guarded);
            var after := if id == key then Some(view) else Get(views, id);
            Unique(r) && (Get(r, id).None? || Get(r, id) == after) && (active == Some(id) ==> Get(r, id) == after)
  {
    GetPut(views, key, view, id);
    TrimView(Put(views, key, view), active, guarded, id);
  }
}
