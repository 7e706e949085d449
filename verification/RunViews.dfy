/** One cached run view of apps/desktop/src/state.ts: bounded texts, snapshots, and the
    application of one feed update. Texts are sequences of UTF-16 units. */
module RunViews {
  import opened Wrappers
  import opened OrderedMaps
  import opened StableSort

  const MAX_FEED_ITEMS: nat := 200
  const MAX_FEED_TEXT_CHARACTERS: nat := 65_536
  const MAX_OUTPUT_CHARACTERS: nat := 2_000_000
  const MAX_TRACKED_SEQUENCES: nat := 512
  const OUTPUT_OMISSION := "[Earlier output omitted from this view]\n"
  const TEXT_OMISSION := "\n[Content truncated in this desktop view]"

  datatype Status =
    | Queued | Running | Waiting | Cancelling
    | Completed | Failed | Cancelled | Interrupted | OutcomeUnknown

  predicate IsTerminal(status: Status) {
    status.Completed? || status.Failed? || status.Cancelled? || status.Interrupted? || status.OutcomeUnknown?
  }

  datatype Terminal =
    | Result(output: string, profile: string, model: string)
    | Failure(reason: string, message: string)
    | Cancellation(message: string)

  /** createdAt is the rank of the timestamp in the locale's collation order. */
  datatype Run = Run(runId: string, sessionId: string, status: Status, createdAt: int, updatedAt: string,
                     lastSequence: nat, pendingInteractionCount: nat, terminal: Option<Terminal>)

  datatype Interaction = Interaction(interactionId: string, runId: string, pending: bool, content: string)

  /** Note stands for the five kinds that change nothing but the feed. */
  datatype UpdateKind =
    | StateChange(status: Status)
    | OutputDelta(delta: string)
    | InteractionChange(interaction: Interaction)
    | UsageReport(usage: int)
    | ResultUpdate(output: string, profile: string, model: string)
    | FailureUpdate(status: Status, reason: string, message: string)
    | CancellationUpdate(message: string)
    | Note(kind: string, text: string)

  datatype RunUpdate = RunUpdate(runId: string, sequence: nat, createdAt: string, update: UpdateKind)

  datatype StreamState = Idle | Watching | Complete | Error

  datatype RunView = RunView(
    run: Run,
    localPrompt: Option<string>,
    planContinuation: Option<(string, int)>,
    output: string,
    outputSnapshotSequence: nat,
    updates: seq<RunUpdate>,
    seenSequences: set<nat>,
    lastSequence: nat,
    pendingInteractions: seq<Interaction>,
    usage: Option<int>,
    streamState: StreamState,
    streamError: Option<string>)

  // ----- bounded text -----

  /** A text cut to a limit: an omission notice and the end of the text. */
  function KeepEnd(notice: string, limit: nat, text: string): (r: string)
    requires 0 < |notice| < limit
    ensures |r| <= limit
    ensures r == "" <==> text == ""
  {
    if |text| <= limit then text else notice + text[|text| - (limit - |notice|)..]
  }

  function BoundedOutput(output: string): (r: string)
    ensures |r| <= MAX_OUTPUT_CHARACTERS
    ensures r == "" <==> output == ""
  {
    KeepEnd(OUTPUT_OMISSION, MAX_OUTPUT_CHARACTERS, output)
  }

  function BoundedFeedText(value: string, limit: nat): (r: string)
    ensures |r| <= limit
    ensures |value| <= limit ==> r == value
  {
    if |value| <= limit then value
    else if limit <= |TEXT_OMISSION| then TEXT_OMISSION[..limit]
    else value[..limit - |TEXT_OMISSION|] + TEXT_OMISSION
  }

  lemma KeepEndForgets(notice: string, limit: nat, head: string, rest: string)
    requires 0 < |notice| < limit && |rest| >= limit - |notice| && |head + rest| > limit
    ensures KeepEnd(notice, limit, head + rest) == notice + rest[|rest| - (limit - |notice|)..]
  {
    var keep := limit - |notice|;
    assert (head + rest)[|head + rest| - keep..] == rest[|rest| - keep..];
  }

  lemma KeepEndAgain(notice: string, limit: nat, head: string, tail: string, y: string)
    requires 0 < |notice| < limit && |tail| == limit - |notice| && |head + tail| > limit && y != ""
    ensures KeepEnd(notice, limit, notice + tail + y) == KeepEnd(notice, limit, head + tail + y)
  {
    KeepEndForgets(notice, limit, head, tail + y);
    KeepEndForgets(notice, limit, notice, tail + y);
    assert head + tail + y == head + (tail + y) && notice + tail + y == notice + (tail + y);
  }

  lemma KeepEndIsExact(notice: string, limit: nat, x: string, y: string)
    requires 0 < |notice| < limit
    ensures KeepEnd(notice, limit, KeepEnd(notice, limit, x) + y) == KeepEnd(notice, limit, x + y)
  {
    var cut := KeepEnd(notice, limit, x);
    if y == "" {
      assert x + y == x && cut + y == cut;
    } else if |x| > limit {
      var head, tail := x[..|x| - (limit - |notice|)], x[|x| - (limit - |notice|)..];
      assert x == head + tail && cut == notice + tail;
      KeepEndAgain(notice, limit, head, tail, y);
    }
  }

  /** Streaming truncation is exact: bounding after every delta is bounding once. */
  lemma BoundingIsExact(x: string, y: string)
    ensures BoundedOutput(BoundedOutput(x) + y) == BoundedOutput(x + y)
  {
    KeepEndIsExact(OUTPUT_OMISSION, MAX_OUTPUT_CHARACTERS, x, y);
  }

  // ----- snapshots -----

  function CompactRun(run: Run): (r: Run)
    ensures r.runId == run.runId && r.status == run.status && r.lastSequence == run.lastSequence
            && r.createdAt == run.createdAt && r.sessionId == run.sessionId
    ensures r.terminal.Some? <==> run.terminal.Some?
    ensures IsTerminal(r.status) ==> r.pendingInteractionCount == 0
  {
    var run := if IsTerminal(run.status) then run.(pendingInteractionCount := 0) else run;
    match run.terminal
    case None => run
    case Some(Result(_, profile, model)) =>
      run.(terminal := Some(Result("", BoundedFeedText(profile, 512), BoundedFeedText(model, 512))))
    case Some(Failure(reason, message)) =>
      run.(terminal := Some(Failure(BoundedFeedText(reason, 512), BoundedFeedText(message, MAX_FEED_TEXT_CHARACTERS))))
    case Some(Cancellation(message)) =>
      run.(terminal := Some(Cancellation(BoundedFeedText(message, MAX_FEED_TEXT_CHARACTERS))))
  }

  function TerminalOutput(terminal: Option<Terminal>): string {
    match terminal
    case Some(Result(output, _, _)) => BoundedOutput(output)
    case _ => ""
  }

  /** The output and the cursor up to which deltas are represented in it. */
  function SnapshotOutput(run: Run, current: Option<RunView>): (string, nat) {
    var output := TerminalOutput(run.terminal);
    if output != "" then (output, run.lastSequence)
    else if current.Some? then (current.value.output, current.value.outputSnapshotSequence)
    else ("", 0)
  }

  function NewView(run: Run, pending: seq<Interaction>): RunView {
    var (output, snapshot) := SnapshotOutput(run, None);
    RunView(CompactRun(run), None, None, output, snapshot, [], {}, 0,
            if IsTerminal(run.status) then [] else pending, None, Idle, None)
  }

  predicate IsStaleSnapshot(view: RunView, incoming: Run) {
    incoming.lastSequence < Max(view.lastSequence, view.run.lastSequence)
  }

  function UpsertInteraction(interactions: seq<Interaction>, interaction: Interaction): (r: seq<Interaction>)
    ensures r == [] <==>
            !interaction.pending && forall i <- interactions :: i.interactionId == interaction.interactionId
  {
    var remaining := Others(interactions, interaction.interactionId);
    if interaction.pending then remaining + [interaction] else remaining
  }

  function Others(interactions: seq<Interaction>, id: string): (r: seq<Interaction>)
    ensures r == [] <==> forall i <- interactions :: i.interactionId == id
  {
    if interactions == [] then []
    else (if interactions[0].interactionId == id then [] else [interactions[0]]) + Others(interactions[1..], id)
  }

  lemma {:induction false} OthersMembers(interactions: seq<Interaction>, id: string)
    ensures forall i :: i in Others(interactions, id) <==> i in interactions && i.interactionId != id
  {
    if interactions != [] {
      OthersMembers(interactions[1..], id);
    }
  }

  /** An interaction replaces its earlier version while it is pending, and removes it when
      it is not; every other one stays. */
  lemma UpsertReplaces(interactions: seq<Interaction>, interaction: Interaction)
    ensures forall i :: i in UpsertInteraction(interactions, interaction)
                   <==> (i in interactions && i.interactionId != interaction.interactionId)
                        || (i == interaction && interaction.pending)
  {
    OthersMembers(interactions, interaction.interactionId);
  }

  // ----- feed updates -----

  function CompactInteraction(i: Interaction): Interaction {
    i.(interactionId := BoundedFeedText(i.interactionId, 128), runId := BoundedFeedText(i.runId, 128),
       content := BoundedFeedText(i.content, MAX_FEED_TEXT_CHARACTERS))
  }

  /** What the feed shows of an update: bounded text, and nothing of an output delta. */
  function FeedProjection(u: RunUpdate): (r: Option<RunUpdate>)
    ensures r.None? <==> u.update.OutputDelta?
    ensures r.Some? ==> r.value.sequence == u.sequence
  {
    var long := MAX_FEED_TEXT_CHARACTERS;
    var kind := match u.update
      case OutputDelta(_) => None
      case ResultUpdate(_, profile, model) =>
        Some(ResultUpdate("", BoundedFeedText(profile, 512), BoundedFeedText(model, 512)))
      case FailureUpdate(status, reason, message) =>
        Some(FailureUpdate(status, BoundedFeedText(reason, 512), BoundedFeedText(message, long)))
      case CancellationUpdate(message) => Some(CancellationUpdate(BoundedFeedText(message, long)))
      case InteractionChange(i) => Some(InteractionChange(CompactInteraction(i)))
      case Note(kind, text) => Some(Note(kind, BoundedFeedText(text, long)))
      case other => Some(other);
    match kind
    case None => None
    case Some(k) =>
      Some(RunUpdate(BoundedFeedText(u.runId, 128), u.sequence, BoundedFeedText(u.createdAt, 128), k))
  }

  predicate NotAfter(left: RunUpdate, right: RunUpdate) {
    left.sequence <= right.sequence
  }

  /** The texts of an update are short enough to be shown whole. */
  predicate Short(u: RunUpdate) {
    && |u.runId| <= 128 && |u.createdAt| <= 128
    && match u.update
       case ResultUpdate(_, profile, model) => |profile| <= 512 && |model| <= 512
       case FailureUpdate(_, reason, message) => |reason| <= 512 && |message| <= MAX_FEED_TEXT_CHARACTERS
       case CancellationUpdate(message) => |message| <= MAX_FEED_TEXT_CHARACTERS
       case InteractionChange(i) =>
         |i.interactionId| <= 128 && |i.runId| <= 128 && |i.content| <= MAX_FEED_TEXT_CHARACTERS
       case Note(_, text) => |text| <= MAX_FEED_TEXT_CHARACTERS
       case _ => true
  }

  /** The feed shows a short update as it is, but for the text of a result. */
  lemma ShortUpdatesAreShown(u: RunUpdate)
    requires Short(u) && !u.update.OutputDelta?
    ensures FeedProjection(u)
         == Some(if u.update.ResultUpdate? then u.(update := u.update.(output := "")) else u)
  {
  }

  /** A longer text is cut at the end, and says so; an output at the beginning. */
  lemma LongTextsAreCut(text: string, limit: nat)
    requires |text| > limit > |TEXT_OMISSION|
    ensures var r := BoundedFeedText(text, limit);
            |r| == limit && r[..limit - |TEXT_OMISSION|] == text[..limit - |TEXT_OMISSION|]
            && r[limit - |TEXT_OMISSION|..] == TEXT_OMISSION
  {
  }

  function InsertOrdered(updates: seq<RunUpdate>, u: RunUpdate): seq<RunUpdate> {
    if updates == [] || updates[|updates| - 1].sequence < u.sequence then Newest(updates + [u], MAX_FEED_ITEMS)
    else Newest(Sort(updates + [u], NotAfter), MAX_FEED_ITEMS)
  }

  function ApplyUpdate(view: RunView, u: RunUpdate): RunView {
    if u.sequence in view.seenSequences then view
    else
      var least := Max(0, u.sequence - MAX_TRACKED_SEQUENCES);
      var seen := (set s | s in view.seenSequences && s >= least) + {u.sequence};
      var run := view.run.(lastSequence := Max(view.run.lastSequence, u.sequence), updatedAt := u.createdAt);
      var pending := if u.update.InteractionChange? then
                       UpsertInteraction(view.pendingInteractions, u.update.interaction)
                     else view.pendingInteractions;
      var usage := if u.update.UsageReport? then Some(u.update.usage) else view.usage;
      var output := match u.update
        case OutputDelta(delta) =>
          if u.sequence > view.outputSnapshotSequence then BoundedOutput(view.output + delta) else view.output
        case ResultUpdate(text, _, _) => if view.output == "" then BoundedOutput(text) else view.output
        case _ => view.output;
      var run := match u.update
        case StateChange(status) => run.(status := status)
        case InteractionChange(_) => run.(pendingInteractionCount := |pending|)
        case ResultUpdate(_, profile, model) =>
          run.(status := Completed,
               terminal := Some(Result("", BoundedFeedText(profile, 512), BoundedFeedText(model, 512))))
        case FailureUpdate(status, reason, message) =>
          run.(status := status,
               terminal := Some(Failure(BoundedFeedText(reason, 512),
                                        BoundedFeedText(message, MAX_FEED_TEXT_CHARACTERS))))
        case CancellationUpdate(message) =>
          run.(status := Cancelled,
               terminal := Some(Cancellation(BoundedFeedText(message, MAX_FEED_TEXT_CHARACTERS))))
        case _ => run;
      var ended := IsTerminal(run.status);
      var shown := FeedProjection(u);
      view.(run := if ended then run.(pendingInteractionCount := 0) else run,
            output := output,
            updates := if shown.None? then view.updates else InsertOrdered(view.updates, shown.value),
            seenSequences := seen,
            lastSequence := Max(view.lastSequence, u.sequence),
            pendingInteractions := if ended then [] else pending,
            usage := usage,
            streamError := None)
  }

  // ----- what every cached view satisfies -----

  function Project(accepted: seq<RunUpdate>): seq<RunUpdate> {
    if accepted == [] then []
    else
      var n := |accepted| - 1;
      Project(accepted[..n])
      + (match FeedProjection(accepted[n]) case None => [] case Some(u) => [u])
  }

  /** The view agrees with the updates it has accepted since it was cached: the feed is the
      last 200 of their projections in strictly rising order, the two cursors are ordered,
      and the tracked sequences are among the last 513. */
  ghost predicate Faithful(view: RunView, accepted: seq<RunUpdate>) {
    && view.lastSequence <= view.run.lastSequence
    && view.lastSequence == (if accepted == [] then 0 else accepted[|accepted| - 1].sequence)
    && Rising(accepted)
    && view.updates == Newest(Project(accepted), MAX_FEED_ITEMS)
    && (forall s <- view.seenSequences :: view.lastSequence - MAX_TRACKED_SEQUENCES <= s <= view.lastSequence)
  }

  ghost predicate Rising(updates: seq<RunUpdate>) {
    && (forall i, j :: 0 <= i < j < |updates| ==> updates[i].sequence < updates[j].sequence)
    && (forall i :: 0 <= i < |updates| ==> updates[i].sequence > 0)
  }

  lemma RisesBy(accepted: seq<RunUpdate>, u: RunUpdate)
    requires Rising(accepted) && (accepted == [] || accepted[|accepted| - 1].sequence < u.sequence) && u.sequence > 0
    ensures Rising(accepted + [u])
  {
  }

  lemma {:induction false} ProjectRises(accepted: seq<RunUpdate>)
    requires Rising(accepted)
    ensures Rising(Project(accepted))
    ensures forall u <- Project(accepted) :: u.sequence <= accepted[|accepted| - 1].sequence
  {
    if accepted != [] {
      hide FeedProjection;
      var n := |accepted| - 1;
      var p := Project(accepted[..n]);
      ProjectRises(accepted[..n]);
      match FeedProjection(accepted[n]) {
        case None => assert Project(accepted) == p + [] == p;
        case Some(u) =>
          assert Project(accepted) == p + [u];
          assert p != [] ==> p[|p| - 1] in p && n > 0;
          RisesBy(p, u);
      }
    }
  }

  lemma {:induction false} RangeCard(s: set<nat>, low: int, size: nat)
    requires forall x <- s :: low <= x < low + size
    ensures |s| <= size
  {
    if size == 0 {
      assert s == {};
    } else {
      var top := low + size - 1;
      if top >= 0 && top in s {
        RangeCard(s - {top}, low, size - 1);
      } else {
        RangeCard(s, low, size - 1);
      }
    }
  }

  /** The feed never holds more than 200 updates, strictly rising, and at most 513
      sequences are tracked; a sequence beyond the cursor is never a tracked one. */
  lemma FaithfulViewsAreBounded(view: RunView, accepted: seq<RunUpdate>, next: nat)
    requires Faithful(view, accepted)
    ensures |view.updates| <= MAX_FEED_ITEMS && Rising(view.updates)
    ensures |view.seenSequences| <= MAX_TRACKED_SEQUENCES + 1
    ensures next > view.lastSequence ==> next !in view.seenSequences
  {
    ProjectRises(accepted);
    RangeCard(view.seenSequences, view.lastSequence - MAX_TRACKED_SEQUENCES, MAX_TRACKED_SEQUENCES + 1);
  }

  lemma AppliedFields(view: RunView, u: RunUpdate)
    requires u.sequence !in view.seenSequences && u.sequence > view.lastSequence
    ensures var r := ApplyUpdate(view, u);
            && r.lastSequence == u.sequence
            && r.run.lastSequence == Max(view.run.lastSequence, u.sequence)
            && r.run.runId == view.run.runId && r.run.sessionId == view.run.sessionId
            && r.localPrompt == view.localPrompt
            && r.outputSnapshotSequence == view.outputSnapshotSequence
            && r.seenSequences
               == (set s | s in view.seenSequences && s >= Max(0, u.sequence - MAX_TRACKED_SEQUENCES)) + {u.sequence}
            && r.updates == (match FeedProjection(u)
                             case None => view.updates
                             case Some(p) => InsertOrdered(view.updates, p))
            && (IsTerminal(r.run.status) ==> r.pendingInteractions == [])
  {
  }

  /** An update beyond the feed is appended to it: the sorting branch is never taken. */
  lemma FeedGrows(updates: seq<RunUpdate>, accepted: seq<RunUpdate>, u: RunUpdate)
    requires Rising(accepted) && updates == Newest(Project(accepted), MAX_FEED_ITEMS)
    requires accepted == [] || accepted[|accepted| - 1].sequence < u.sequence
    ensures var shown := FeedProjection(u);
            && (shown.None? ==> Newest(Project(accepted + [u]), MAX_FEED_ITEMS) == updates)
            && (shown.Some? ==> InsertOrdered(updates, shown.value) == Newest(updates + [shown.value], MAX_FEED_ITEMS)
                                == Newest(Project(accepted + [u]), MAX_FEED_ITEMS))
  {
    ProjectRises(accepted);
    var p := Project(accepted);
    assert (accepted + [u])[..|accepted|] == accepted;
    match FeedProjection(u) {
      case Some(shown) =>
        assert updates != [] ==> updates[|updates| - 1] == p[|p| - 1];
        NewestSnoc(p, shown, MAX_FEED_ITEMS);
      case None =>
        assert p + [] == p;
    }
  }

  lemma TrackedStaysNear(view: RunView, u: RunUpdate)
    requires forall s <- view.seenSequences :: s <= view.lastSequence
    requires u.sequence > view.lastSequence
    ensures forall s <- ApplyUpdate(view, u).seenSequences :: u.sequence - MAX_TRACKED_SEQUENCES <= s <= u.sequence
  {
    AppliedFields(view, u);
  }

  /** Applying a new update keeps the view faithful to the updates accepted. */
  lemma ApplyKeepsFaithful(view: RunView, accepted: seq<RunUpdate>, u: RunUpdate)
    requires Faithful(view, accepted) && u.sequence > view.lastSequence
    ensures Faithful(ApplyUpdate(view, u), accepted + [u])
  {
    AppliedFields(view, u);
    TrackedStaysNear(view, u);
    RisesBy(accepted, u);
    FeedGrows(view.updates, accepted, u);
  }

  lemma NewestSnoc<T>(s: seq<T>, x: T, limit: nat)
    requires limit > 0
    ensures Newest(Newest(s, limit) + [x], limit) == Newest(s + [x], limit)
  {
    if |s| > limit {
      assert s + [x] == s[..|s| - limit] + (Newest(s, limit) + [x]);
      NewestOfSuffix(s[..|s| - limit], Newest(s, limit) + [x], limit);
    }
  }
}
