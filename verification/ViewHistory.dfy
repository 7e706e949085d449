/** Every field of a cached run view as a function of what it has been told
    (apps/desktop/src/state.ts): the snapshots, updates, answers and notes it has taken
    since it entered the cache, in their order. */
module ViewHistory {
  import opened Wrappers
  import opened OrderedMaps
  import opened RunViews
  import opened RecentRuns
  import opened ChatState
  import opened Convergence

  /** The view of a run takes an action: a snapshot that is behind neither of its cursors,
      an update beyond its feed, or a note to a view that is cached. */
  predicate Takes(view: Option<RunView>, a: Action, id: string) {
    match a
    case UpsertRun(run) => run.runId == id && NotBehind(view, run.lastSequence)
    case HydrateRun(d) => d.run.runId == id && NotBehind(view, d.run.lastSequence)
    case IngestUpdate(u) => u.runId == id && view.Some? && u.sequence > view.value.lastSequence
    case RecordLocalPrompt(runId, _) => runId == id && view.Some?
    case RecordPlanContinuation(runId, _, _) => runId == id && view.Some?
    case WatchStarted(runId) => runId == id && view.Some?
    case WatchComplete(runId) => runId == id && view.Some?
    case WatchError(runId, _) => runId == id && view.Some?
    case InteractionResolved(i) => i.runId == id && view.Some?
    case _ => false
  }

  predicate NotBehind(view: Option<RunView>, sequence: nat) {
    view.Some? ==> sequence >= view.value.lastSequence && sequence >= view.value.run.lastSequence
  }

  /** What the view of a run has taken since it was cached. */
  function Story(actions: seq<Action>, id: string): seq<Action> {
    if actions == [] then []
    else
      var n := |actions| - 1;
      var view := Get(ReduceAll(INITIAL, actions[..n]).views, id);
      (if view.Some? then Story(actions[..n], id) else []) + (if Takes(view, actions[n], id) then [actions[n]] else [])
  }

  // ----- what was said last -----

  /** The status a snapshot or an update gives. */
  function StatusIn(a: Action): Option<Status> {
    match a
    case UpsertRun(run) => Some(run.status)
    case HydrateRun(d) => Some(d.run.status)
    case IngestUpdate(u) =>
      (match u.update
       case StateChange(status) => Some(status)
       case ResultUpdate(_, _, _) => Some(Completed)
       case FailureUpdate(status, _, _) => Some(status)
       case CancellationUpdate(_) => Some(Cancelled)
       case _ => None)
    case _ => None
  }

  function StatusSaid(story: seq<Action>): Option<Status> {
    if story == [] then None
    else
      var n := |story| - 1;
      if StatusIn(story[n]).Some? then StatusIn(story[n]) else StatusSaid(story[..n])
  }

  predicate Ended(story: seq<Action>) {
    StatusSaid(story).Some? && IsTerminal(StatusSaid(story).value)
  }

  /** How the run ended, with its texts bounded and the result text left to the output. */
  function Briefly(terminal: Terminal): Terminal {
    match terminal
    case Result(_, profile, model) => Result("", BoundedFeedText(profile, 512), BoundedFeedText(model, 512))
    case Failure(reason, message) =>
      Failure(BoundedFeedText(reason, 512), BoundedFeedText(message, MAX_FEED_TEXT_CHARACTERS))
    case Cancellation(message) => Cancellation(BoundedFeedText(message, MAX_FEED_TEXT_CHARACTERS))
  }

  /** The last snapshot says how the run ended, or that it has not; later updates may. */
  function TerminalSaid(story: seq<Action>): Option<Terminal> {
    if story == [] then None
    else
      var n := |story| - 1;
      match story[n]
      case UpsertRun(run) => if run.terminal.Some? then Some(Briefly(run.terminal.value)) else None
      case HydrateRun(d) => if d.run.terminal.Some? then Some(Briefly(d.run.terminal.value)) else None
      case IngestUpdate(u) =>
        (match u.update
         case ResultUpdate(_, profile, model) => Some(Briefly(Result("", profile, model)))
         case FailureUpdate(_, reason, message) => Some(Briefly(Failure(reason, message)))
         case CancellationUpdate(message) => Some(Briefly(Cancellation(message)))
         case _ => TerminalSaid(story[..n]))
      case _ => TerminalSaid(story[..n])
  }

  /** The last usage report. */
  function UsageSaid(story: seq<Action>): Option<int> {
    if story == [] then None
    else
      var n := |story| - 1;
      if story[n].IngestUpdate? && story[n].update.update.UsageReport? then Some(story[n].update.update.usage)
      else UsageSaid(story[..n])
  }

  /** The interactions that wait for an answer: those of the last details, and each one
      heard of since under its latest version while that is pending; none once an update or
      a snapshot has ended the run. */
  function PendingSaid(story: seq<Action>): seq<Interaction> {
    if story == [] then []
    else
      var n := |story| - 1;
      var earlier := PendingSaid(story[..n]);
      match story[n]
      case UpsertRun(_) => if Ended(story) then [] else earlier
      case HydrateRun(d) => if Ended(story) then [] else d.pendingInteractions
      case IngestUpdate(u) =>
        if Ended(story) then []
        else if u.update.InteractionChange? then UpsertInteraction(earlier, u.update.interaction)
        else earlier
      case InteractionResolved(i) => UpsertInteraction(earlier, i)
      case _ => earlier
  }

  /** How many interactions the run says are pending. */
  function CountSaid(story: seq<Action>): nat {
    if story == [] then 0
    else
      var n := |story| - 1;
      match story[n]
      case UpsertRun(run) => if Ended(story) then 0 else run.pendingInteractionCount
      case HydrateRun(d) => if Ended(story) then 0 else d.run.pendingInteractionCount
      case IngestUpdate(u) =>
        if Ended(story) then 0
        else if u.update.InteractionChange? then |PendingSaid(story)|
        else CountSaid(story[..n])
      case InteractionResolved(_) => |PendingSaid(story)|
      case _ => CountSaid(story[..n])
  }

  /** The first prompt recorded or found in details. */
  function PromptSaid(story: seq<Action>): Option<string> {
    if story == [] then None
    else
      var n := |story| - 1;
      var first := PromptSaid(story[..n]);
      if first.Some? then first
      else
        match story[n]
        case RecordLocalPrompt(_, prompt) => Some(prompt)
        case HydrateRun(d) => d.initialPrompt
        case _ => None
  }

  /** The last plan to be continued. */
  function PlanSaid(story: seq<Action>): Option<(string, int)> {
    if story == [] then None
    else
      var n := |story| - 1;
      if story[n].RecordPlanContinuation? then Some((story[n].planId, story[n].revision)) else PlanSaid(story[..n])
  }

  /** The state of the stream is the last one noted; its error is gone with the next note
      or update. */
  function StreamSaid(story: seq<Action>): (StreamState, Option<string>) {
    if story == [] then (Idle, None)
    else
      var n := |story| - 1;
      match story[n]
      case WatchStarted(_) => (Watching, None)
      case WatchComplete(_) => (StreamState.Complete, None)
      case WatchError(_, error) => (StreamState.Error, Some(error))
      case IngestUpdate(_) => (StreamSaid(story[..n]).0, None)
      case _ => StreamSaid(story[..n])
  }

  /** The run as the last snapshot describes it. */
  function RunSaid(story: seq<Action>): Option<Run> {
    if story == [] then None
    else
      var n := |story| - 1;
      match story[n]
      case UpsertRun(run) => Some(run)
      case HydrateRun(d) => Some(d.run)
      case _ => RunSaid(story[..n])
  }

  /** When the run was last heard of, and how far it is said to be. */
  function HeardSaid(story: seq<Action>): (string, nat) {
    if story == [] then ("", 0)
    else
      var n := |story| - 1;
      match story[n]
      case UpsertRun(run) => (run.updatedAt, run.lastSequence)
      case HydrateRun(d) => (d.run.updatedAt, d.run.lastSequence)
      case IngestUpdate(u) => (u.createdAt, Max(HeardSaid(story[..n]).1, u.sequence))
      case _ => HeardSaid(story[..n])
  }

  /** The output in full, and the cursor from which deltas are added: the result text of the
      last snapshot that has one, and the deltas beyond it; a result fills an empty output. */
  function OutputSaid(story: seq<Action>): (string, nat) {
    if story == [] then ("", 0)
    else
      var n := |story| - 1;
      var (text, from) := OutputSaid(story[..n]);
      match story[n]
      case UpsertRun(run) => if ResultText(run) != "" then (ResultText(run), run.lastSequence) else (text, from)
      case HydrateRun(d) => if ResultText(d.run) != "" then (ResultText(d.run), d.run.lastSequence) else (text, from)
      case IngestUpdate(u) =>
        (match u.update
         case OutputDelta(delta) => if u.sequence > from then (text + delta, from) else (text, from)
         case ResultUpdate(output, _, _) => if text == "" then (output, from) else (text, from)
         case _ => (text, from))
      case _ => (text, from)
  }

  function ResultText(run: Run): string {
    if run.terminal.Some? && run.terminal.value.Result? then run.terminal.value.output else ""
  }

  // ----- the view tells its story -----

  /** The output shown is the whole output cut once, however it has been streamed. */
  ghost predicate TellsOutput(view: RunView, story: seq<Action>) {
    view.output == BoundedOutput(OutputSaid(story).0) && view.outputSnapshotSequence == OutputSaid(story).1
  }

  lemma SnapshotTellsOutput(current: Option<RunView>, run: Run, story: seq<Action>, a: Action)
    requires if current.Some? then TellsOutput(current.value, story) else story == []
    requires a == UpsertRun(run) || (a.HydrateRun? && a.details.run == run)
    ensures var after := if a.UpsertRun? then Upserted(current, run) else Hydrated(current, a.details);
            TellsOutput(after, story + [a])
  {
    assert (story + [a])[..|story|] == story;
  }

  lemma UpdateTellsOutput(view: RunView, story: seq<Action>, u: RunUpdate)
    requires TellsOutput(view, story) && u.sequence !in view.seenSequences
    ensures TellsOutput(ApplyUpdate(view, u), story + [IngestUpdate(u)])
  {
    assert (story + [IngestUpdate(u)])[..|story|] == story;
    if u.update.OutputDelta? {
      BoundingIsExact(OutputSaid(story).0, u.update.delta);
    }
  }

  lemma NoteTellsOutput(view: RunView, story: seq<Action>, a: Action)
    requires TellsOutput(view, story) && Target(a).Some?
    ensures TellsOutput(Edit(view, a), story + [a])
  {
    assert (story + [a])[..|story|] == story;
  }

  ghost predicate TellsRun(view: RunView, story: seq<Action>) {
    && StatusSaid(story) == Some(view.run.status)
    && view.run.terminal == TerminalSaid(story)
    && view.pendingInteractions == PendingSaid(story)
    && view.run.pendingInteractionCount == CountSaid(story)
    && (view.run.updatedAt, view.run.lastSequence) == HeardSaid(story)
  }

  ghost predicate TellsRest(view: RunView, story: seq<Action>) {
    && view.usage == UsageSaid(story)
    && view.localPrompt == PromptSaid(story)
    && view.planContinuation == PlanSaid(story)
    && (view.streamState, view.streamError) == StreamSaid(story)
    && RunSaid(story).Some?
    && view.run.runId == RunSaid(story).value.runId
    && view.run.sessionId == RunSaid(story).value.sessionId
    && view.run.createdAt == RunSaid(story).value.createdAt
  }

  lemma SnapshotTellsRun(current: Option<RunView>, run: Run, story: seq<Action>, a: Action)
    requires if current.Some? then TellsRun(current.value, story) else story == []
    requires a == UpsertRun(run) || (a.HydrateRun? && a.details.run == run)
    ensures var after := if a.UpsertRun? then Upserted(current, run) else Hydrated(current, a.details);
            TellsRun(after, story + [a])
  {
    assert (story + [a])[..|story|] == story;
  }

  lemma SnapshotTellsRest(current: Option<RunView>, run: Run, story: seq<Action>, a: Action)
    requires if current.Some? then TellsRest(current.value, story) else story == []
    requires a == UpsertRun(run) || (a.HydrateRun? && a.details.run == run)
    ensures var after := if a.UpsertRun? then Upserted(current, run) else Hydrated(current, a.details);
            TellsRest(after, story + [a])
  {
    assert (story + [a])[..|story|] == story;
  }

  lemma UpdateTellsRun(view: RunView, story: seq<Action>, u: RunUpdate)
    requires TellsRun(view, story) && u.sequence !in view.seenSequences
    ensures TellsRun(ApplyUpdate(view, u), story + [IngestUpdate(u)])
  {
    assert (story + [IngestUpdate(u)])[..|story|] == story;
  }

  lemma UpdateTellsRest(view: RunView, story: seq<Action>, u: RunUpdate)
    requires TellsRest(view, story) && u.sequence !in view.seenSequences
    ensures TellsRest(ApplyUpdate(view, u), story + [IngestUpdate(u)])
  {
    assert (story + [IngestUpdate(u)])[..|story|] == story;
  }

  lemma NoteTellsRun(view: RunView, story: seq<Action>, a: Action)
    requires TellsRun(view, story) && Target(a).Some?
    ensures TellsRun(Edit(view, a), story + [a])
  {
    assert (story + [a])[..|story|] == story;
  }

  lemma NoteTellsRest(view: RunView, story: seq<Action>, a: Action)
    requires TellsRest(view, story) && Target(a).Some?
    ensures TellsRest(Edit(view, a), story + [a])
  {
    assert (story + [a])[..|story|] == story;
  }

  ghost predicate Tells(view: RunView, story: seq<Action>) {
    TellsRun(view, story) && TellsRest(view, story) && TellsOutput(view, story)
  }

  /** A view that takes an action tells it too; one that does not is left as it was. */
  lemma ActionTells(s: ChatState, a: Action, id: string, story: seq<Action>, accepted: seq<RunUpdate>)
    requires var view := Get(s.views, id);
             if view.Some? then Tells(view.value, story) && Faithful(view.value, accepted) else story == []
    ensures var after := ViewAfter(s, a, id);
            && (Takes(Get(s.views, id), a, id) ==> after.Some? && Tells(after.value, story + [a]))
            && (!Takes(Get(s.views, id), a, id) ==> after == Get(s.views, id))
  {
    hide TellsRun, TellsRest, TellsOutput, Upserted, Hydrated, ApplyUpdate, Edit, Faithful;
    var view := Get(s.views, id);
    if a.UpsertRun? && Takes(view, a, id) {
      SnapshotTellsRun(view, a.run, story, a);
      SnapshotTellsRest(view, a.run, story, a);
      SnapshotTellsOutput(view, a.run, story, a);
    } else if a.HydrateRun? && Takes(view, a, id) {
      SnapshotTellsRun(view, a.details.run, story, a);
      SnapshotTellsRest(view, a.details.run, story, a);
      SnapshotTellsOutput(view, a.details.run, story, a);
    } else if a.IngestUpdate? && view.Some? && a.update.sequence > view.value.lastSequence {
      FaithfulViewsAreBounded(view.value, accepted, a.update.sequence);
      UpdateTellsRun(view.value, story, a.update);
      UpdateTellsRest(view.value, story, a.update);
      UpdateTellsOutput(view.value, story, a.update);
    } else if view.Some? && Target(a) == Some(id) {
      NoteTellsRun(view.value, story, a);
      NoteTellsRest(view.value, story, a);
      NoteTellsOutput(view.value, story, a);
    }
  }

  /** In every reachable state every field of a cached view is what the view has been told:
      the status, end, times and extent of its run, the interactions that are pending, the
      usage, the prompt, the plan, the output and the state of its stream. */
  lemma {:induction false} ViewsTellTheirStory(actions: seq<Action>, id: string)
    ensures var view := Get(ReduceAll(INITIAL, actions).views, id);
            view.Some? ==> Tells(view.value, Story(actions, id))
  {
    hide Tells, ViewAfter, Reduce, Takes, Faithful;
    ViewsStayUnique(INITIAL, actions);
    if actions != [] {
      var n := |actions| - 1;
      var s, a := ReduceAll(INITIAL, actions[..n]), actions[n];
      ViewsStayUnique(INITIAL, actions[..n]);
      ViewsTellTheirStory(actions[..n], id);
      ReachableViewsAreFaithful(actions[..n], id);
      ReduceView(s, a, id);
      var story := if Get(s.views, id).Some? then Story(actions[..n], id) else [];
      ActionTells(s, a, id, story, History(actions[..n], id));
      assert story + [] == story;
    }
  }

  // ----- which views are cached -----

  /** A snapshot that is taken caches the view of its run. */
  lemma TakenIsCached(actions: seq<Action>, a: Action, id: string)
    requires (a.UpsertRun? || a.HydrateRun?) && Takes(Get(ReduceAll(INITIAL, actions).views, id), a, id)
    ensures Get(Reduce(ReduceAll(INITIAL, actions), a).views, id)
         == ViewAfter(ReduceAll(INITIAL, actions), a, id)
    ensures Get(Reduce(ReduceAll(INITIAL, actions), a).views, id).Some?
  {
    hide Upserted, Hydrated, Trim, Put, ReduceAll;
    var s := ReduceAll(INITIAL, actions);
    ViewsStayUnique(INITIAL, actions);
    var view := ViewAfter(s, a, id).value;
    GetPut(s.views, id, view, id);
    TrimView(Put(s.views, id, view), s.activeRunId, Some(id), id);
  }

  /** Removing a session removes exactly its views; the selection goes with its view. */
  lemma SessionsAreRemoved(s: ChatState, sessionId: string, id: string)
    requires Unique(s.views)
    ensures var r, view := Reduce(s, RemoveSession(sessionId)), Get(s.views, id);
            && Get(r.views, id) == (if view.Some? && view.value.run.sessionId == sessionId then None else view)
            && (r.activeRunId == Some(id) <==>
                  s.activeRunId == Some(id) && !(view.Some? && view.value.run.sessionId == sessionId))
  {
    GetWithoutSession(s.views, sessionId, id);
  }

  /** The selection is the last one made, and a reset forgets everything. */
  lemma SelectionIsTheLast(s: ChatState, a: Action)
    ensures var r := Reduce(s, a);
            && (a.SelectRun? ==> r.activeRunId == a.selected)
            && (!a.SelectRun? && !a.ResetState? && !a.RemoveSession? ==> r.activeRunId == s.activeRunId)
            && (a.ResetState? ==> r == INITIAL)
            && (a.ReplaceRecent? || a.AppendRecent? ==> r.nextPageToken == a.nextPageToken && r.views == s.views)
            && (!a.ReplaceRecent? && !a.AppendRecent? && !a.ResetState? ==> r.nextPageToken == s.nextPageToken)
  {
    hide Trim, Put, Upserted, Hydrated, ApplyUpdate, WithoutSession;
  }

  /** After a selection, a snapshot or an update that is taken, more than twelve views are
      cached only if every one of them is selected, has just been touched or has not ended. */
  lemma CacheIsBounded(s: ChatState, a: Action)
    requires Unique(s.views)
    requires || a.SelectRun?
             || (a.UpsertRun? && !Stale(s, a.run)) || (a.HydrateRun? && !Stale(s, a.details.run))
             || (a.IngestUpdate? && Accepts(s, a.update))
    ensures var r := Reduce(s, a);
            var touched := match a
                           case UpsertRun(run) => Some(run.runId)
                           case HydrateRun(d) => Some(d.run.runId)
                           case _ => None;
            |r.views| > MAX_CACHED_RUN_VIEWS ==>
              forall e <- r.views ::
                Some(e.0) == r.activeRunId || Some(e.0) == touched || !IsTerminal(e.1.run.status)
  {
    hide Trim, Upserted, Hydrated, ApplyUpdate, Put;
    match a {
      case SelectRun(id) => BoundedByTrim(s.views, id, None);
      case UpsertRun(run) =>
        GetPut(s.views, run.runId, Upserted(Get(s.views, run.runId), run), run.runId);
        BoundedByTrim(Put(s.views, run.runId, Upserted(Get(s.views, run.runId), run)), s.activeRunId, Some(run.runId));
      case HydrateRun(d) =>
        GetPut(s.views, d.run.runId, Hydrated(Get(s.views, d.run.runId), d), d.run.runId);
        BoundedByTrim(Put(s.views, d.run.runId, Hydrated(Get(s.views, d.run.runId), d)), s.activeRunId,
                      Some(d.run.runId));
      case IngestUpdate(u) =>
        var view := ApplyUpdate(Get(s.views, u.runId).value, u);
        GetPut(s.views, u.runId, view, u.runId);
        BoundedByTrim(Put(s.views, u.runId, view), s.activeRunId, None);
    }
  }

  lemma BoundedByTrim(views: Views, active: Option<string>, touched: Option<string>)
    requires Unique(views)
    ensures var r := Trim(views, active, touched);
            |r| > MAX_CACHED_RUN_VIEWS ==>
              forall e <- r :: Some(e.0) == active || Some(e.0) == touched || !IsTerminal(e.1.run.status)
  {
    hide Trim;
    TrimKeepsWhatMatters(views, active, touched, "");
  }

  // ----- the recent runs -----

  /** The run of a snapshot or of an update that is taken. */
  function RunTold(s: ChatState, a: Action): Option<Run> {
    match a
    case UpsertRun(run) => if Takes(Get(s.views, run.runId), a, run.runId) then Some(run) else None
    case HydrateRun(d) => if Takes(Get(s.views, d.run.runId), a, d.run.runId) then Some(d.run) else None
    case IngestUpdate(u) => if Ingests(s, a, u.runId) then Some(ViewAfter(s, a, u.runId).value.run) else None
    case _ => None
  }

  /** A run that is told is listed, at least as far as it was told - exactly as it was told
      if nothing further was known - unless two hundred runs as new are listed. Nothing else
      but a page and the removal of a session touches the list. */
  lemma RecentRunsFollow(s: ChatState, a: Action)
    ensures var r, run := Reduce(s, a).recentRuns, RunTold(s, a);
            if run.Some? then
              var known, listed := Find(ById(s.recentRuns), run.value.runId), Find(r, run.value.runId);
              if listed.Some? then
                && listed.value.lastSequence >= run.value.lastSequence
                && (known.None? || known.value.lastSequence <= run.value.lastSequence ==>
                      listed.value == CompactRun(run.value))
              else |r| == 200 && forall other <- r :: other.createdAt >= Newest(known, run.value).createdAt
            else
              a.ResetState? || a.ReplaceRecent? || a.AppendRecent? || a.RemoveSession? || r == s.recentRuns
  {
    hide Merge, ById, Find, Upserted, Hydrated, ApplyUpdate, Trim, Put, Best, Get;
    var run := RunTold(s, a);
    if run.Some? {
      assert Reduce(s, a).recentRuns == Merge(s.recentRuns, [run.value]);
      OneMerged(s.recentRuns, run.value);
    }
  }

  /** The version of a run that is listed. */
  function Newest(known: Option<Run>, run: Run): Run {
    if known.None? || known.value.lastSequence <= run.lastSequence then CompactRun(run) else known.value
  }

  lemma OneMerged(runs: seq<Run>, run: Run)
    ensures var r, known := Merge(runs, [run]), Find(ById(runs), run.runId);
            var listed := Find(r, run.runId);
            if listed.Some? then listed.value == Newest(known, run)
            else |r| == 200 && forall other <- r :: other.createdAt >= Newest(known, run).createdAt
  {
    hide Merge, ById, Find;
    var known := Find(ById(runs), run.runId);
    assert [run][..0] == [] && Best(known, [], run.runId) == known;
    assert Best(known, [run], run.runId) == Some(Newest(known, run));
    MergedIsBest(runs, [run], run.runId);
    NewestAreKept(runs, [run], run.runId);
  }

  /** A page that replaces the list is what is listed: each of its runs, at least as far as
      the page and the list had it, and no other. A page that is appended is listed besides
      what was. In both cases a run is missing only if two hundred are listed. Removing a
      session removes exactly its runs. */
  lemma PagesAreListed(s: ChatState, a: Action, run: Run)
    requires InOrder(s.recentRuns)
    ensures a.ReplaceRecent? && run in a.runs ==>
              var listed := Find(Reduce(s, a).recentRuns, run.runId);
              if listed.Some? then listed.value.lastSequence >= run.lastSequence
              else |Reduce(s, a).recentRuns| == 200
    ensures a.ReplaceRecent? && run in Reduce(s, a).recentRuns ==>
              && (exists p <- a.runs :: p.runId == run.runId)
              && (forall known <- s.recentRuns :: known.runId == run.runId ==>
                    run.lastSequence >= known.lastSequence)
    ensures a.AppendRecent? && (run in a.runs || run in s.recentRuns) ==>
              var listed := Find(Reduce(s, a).recentRuns, run.runId);
              if listed.Some? then listed.value.lastSequence >= run.lastSequence
              else |Reduce(s, a).recentRuns| == 200
    ensures a.RemoveSession? ==>
              (run in Reduce(s, a).recentRuns <==> run in s.recentRuns && run.sessionId != a.sessionId)
  {
    hide Merge, ById, Find, Best, Trim, WithoutSession, Fresher;
    match a {
      case ReplaceRecent(runs, _) =>
        if run in runs {
          RefreshShowsThePage(s.recentRuns, runs, run);
        }
        if run in Refresh(s.recentRuns, runs) {
          RefreshNeverRegresses(s.recentRuns, runs, run);
          KnownById(s.recentRuns, run.runId);
        }
      case AppendRecent(runs, _) =>
        KnownById(s.recentRuns, run.runId);
        BestIsLatest(Find(ById(s.recentRuns), run.runId), runs, run.runId);
        MergedIsBest(s.recentRuns, runs, run.runId);
        NewestAreKept(s.recentRuns, runs, run.runId);
      case RemoveSession(sessionId) => FilteringKeepsOrder(s.recentRuns, sessionId);
      case _ =>
    }
  }

  lemma KnownById(runs: seq<Run>, id: string)
    requires Distinct(runs)
    ensures forall run <- runs :: run.runId == id ==> Find(ById(runs), id) == Some(run)
  {
    ByIdOfDistinct(runs);
    forall run | run in runs && run.runId == id ensures Find(runs, id) == Some(run) {
      var i :| 0 <= i < |runs| && runs[i] == run;
      FindAt(runs, i);
    }
  }
}
