/** The durable watch feeding the reducer: the updates watchDurableRun passes on
    (apps/desktop/src/target-routing.ts), dispatched to chatReducer
    (apps/desktop/src/state.ts) among any other actions. */
module EndToEnd {
  import opened Wrappers
  import opened OrderedMaps
  import opened RunViews
  import opened ChatState
  import opened Convergence
  import Watch = DurableWatch
  import Guarantees = WatchGuarantees

  /** What the wire carries besides run and sequence. */
  type Payload = (string, UpdateKind)

  function Dispatched(updates: seq<Watch.Update<Payload>>): seq<RunUpdate> {
    seq(|updates|, i requires 0 <= i < |updates| =>
      RunUpdate(updates[i].runId, updates[i].sequence, updates[i].value.0, updates[i].value.1))
  }

  /** The updates of run `id` that are dispatched, in order. */
  function FeedOf(actions: seq<Action>, id: string): seq<RunUpdate> {
    if actions == [] then []
    else
      var n := |actions| - 1;
      FeedOf(actions[..n], id)
      + (if actions[n].IngestUpdate? && actions[n].update.runId == id then [actions[n].update] else [])
  }

  /** The run is selected and its view, at `cursor`, shows what these updates stream. */
  ghost predicate Driven(log: RunLog, s: ChatState, kinds: seq<UpdateKind>, cursor: nat)
    requires log.updates != []
  {
    && Unique(s.views) && s.activeRunId == Some(log.runId) && Get(s.views, log.runId).Some?
    && Shows(log, Get(s.views, log.runId).value, kinds) && Get(s.views, log.runId).value.lastSequence == cursor
  }

  /** An update of the run beyond the cursor. */
  predicate Fresh(a: Action, id: string, cursor: nat) {
    a.IngestUpdate? && a.update.runId == id && a.update.sequence > cursor
  }

  lemma OneStep(log: RunLog, s: ChatState, a: Action, kinds: seq<UpdateKind>, cursor: nat)
    requires Finished(log) && Driven(log, s, kinds, cursor)
    requires KeepsSelection(a, log.runId) && FromLog(log, a)
    ensures if Fresh(a, log.runId, cursor) then
              Driven(log, Reduce(s, a), kinds + [a.update.update], a.update.sequence)
            else Driven(log, Reduce(s, a), kinds, cursor)
  {
    hide Reduce, ViewAfter;
    ReduceView(s, a, log.runId);
    ActionShows(log, s, a, kinds);
    NewUpdatesAreTaken(log, s, a, kinds, cursor);
  }

  lemma NewUpdatesAreTaken(log: RunLog, s: ChatState, a: Action, kinds: seq<UpdateKind>, cursor: nat)
    requires log.updates != [] && Driven(log, s, kinds, cursor)
    ensures Ingests(s, a, log.runId) <==> Fresh(a, log.runId, cursor)
    ensures var after := ViewAfter(s, a, log.runId);
            after.Some? && after.value.lastSequence == if Fresh(a, log.runId, cursor) then a.update.sequence else cursor
  {
    if Ingests(s, a, log.runId) {
      AppliedFields(Get(s.views, log.runId).value, a.update);
    } else {
      FeedUntouched(s, a, log.runId);
    }
  }

  ghost predicate InOrderAfter(updates: seq<RunUpdate>, start: nat) {
    forall i :: 0 <= i < |updates| ==> updates[i].sequence == start + 1 + i
  }

  lemma FeedGrowsBy(actions: seq<Action>, id: string, start: nat)
    requires actions != [] && InOrderAfter(FeedOf(actions, id), start)
    ensures var n := |actions| - 1;
            var earlier := FeedOf(actions[..n], id);
            && InOrderAfter(earlier, start)
            && (actions[n].IngestUpdate? && actions[n].update.runId == id ==>
                  && actions[n].update.sequence == start + |earlier| + 1
                  && |FeedOf(actions, id)| == |earlier| + 1)
  {
    var earlier, feed := FeedOf(actions[..|actions| - 1], id), FeedOf(actions, id);
    assert forall i :: 0 <= i < |earlier| ==> feed[i] == earlier[i];
    if |feed| > |earlier| {
      assert feed[|earlier|].sequence == start + |earlier| + 1;
    }
  }

  /** Where a view at cursor v is after k updates of a feed that starts behind cursor c, and
      which of them it has taken. */
  function Reached(v: nat, c: nat, k: nat): nat {
    if k == 0 then v else Max(v, c + k)
  }

  function Taken(log: RunLog, v: nat, c: nat, k: nat): seq<UpdateKind>
    requires v <= |log.updates| && (k == 0 || c + k <= |log.updates|)
  {
    if k == 0 || c + k <= v then [] else log.updates[Max(c, v)..c + k]
  }

  lemma TakenGrows(log: RunLog, v: nat, c: nat, k: nat, kinds: seq<UpdateKind>)
    requires v <= |log.updates| && c + k < |log.updates|
    ensures kinds + Taken(log, v, c, k + 1)
         == if c + k + 1 > Reached(v, c, k) then kinds + Taken(log, v, c, k) + [log.updates[c + k]]
            else kinds + Taken(log, v, c, k)
  {
    if c + k + 1 > Reached(v, c, k) {
      assert Taken(log, v, c, k + 1) == Taken(log, v, c, k) + [log.updates[c + k]];
    }
  }

  lemma {:induction false} FeedDrives(log: RunLog, s: ChatState, kinds: seq<UpdateKind>, v: nat, actions: seq<Action>,
                                      start: nat)
    requires Finished(log) && Driven(log, s, kinds, v)
    requires forall a <- actions :: KeepsSelection(a, log.runId) && FromLog(log, a)
    requires InOrderAfter(FeedOf(actions, log.runId), start)
    ensures var k := |FeedOf(actions, log.runId)|;
            && v <= |log.updates| && (k == 0 || start + k <= |log.updates|)
            && Driven(log, ReduceAll(s, actions), kinds + Taken(log, v, start, k), Reached(v, start, k))
  {
    hide KeepsSelection, Driven, Reduce;
    DrivenIsWithin(log, s, kinds, v);
    if actions == [] {
      assert kinds + [] == kinds;
    } else {
      var n := |actions| - 1;
      var k, r := |FeedOf(actions[..n], log.runId)|, ReduceAll(s, actions[..n]);
      FeedGrowsBy(actions, log.runId, start);
      FeedDrives(log, s, kinds, v, actions[..n], start);
      OneStep(log, r, actions[n], kinds + Taken(log, v, start, k), Reached(v, start, k));
      if actions[n].IngestUpdate? && actions[n].update.runId == log.runId {
        TakenGrows(log, v, start, k, kinds);
      }
    }
  }

  lemma DrivenIsWithin(log: RunLog, s: ChatState, kinds: seq<UpdateKind>, cursor: nat)
    requires log.updates != [] && Driven(log, s, kinds, cursor)
    ensures cursor <= |log.updates|
  {
  }

  /** The watch reads the log of the run, and the reducer gets its updates in order, among
      snapshots of the run and whatever else keeps the run selected. */
  ghost predicate Feeds(log: RunLog, actions: seq<Action>, payloads: seq<Payload>, w: Watch.World<Payload>,
                        t: seq<Watch.Action<Payload>>)
  {
    && |payloads| == |log.updates| && (forall i :: 0 <= i < |payloads| ==> payloads[i].1 == log.updates[i])
    && w.o.runId == log.runId && Watch.Follows(w, t) && Guarantees.Honest(w, payloads)
    && FeedOf(actions, log.runId) == Dispatched(Guarantees.Updates(t))
    && (forall a <- actions :: KeepsSelection(a, log.runId) && (a.IngestUpdate? || FromLog(log, a)))
  }

  lemma FeedIsInOrder(log: RunLog, actions: seq<Action>, payloads: seq<Payload>, w: Watch.World<Payload>,
                      t: seq<Watch.Action<Payload>>)
    requires Feeds(log, actions, payloads, w, t)
    ensures InOrderAfter(FeedOf(actions, log.runId), w.o.start)
    ensures |FeedOf(actions, log.runId)| == |Guarantees.Updates(t)|
  {
    hide Watch.At, FeedOf;
    Guarantees.FeedIsContiguous(w, t);
  }

  lemma FedFromLog(log: RunLog, actions: seq<Action>, payloads: seq<Payload>, w: Watch.World<Payload>,
                   t: seq<Watch.Action<Payload>>, a: Action)
    requires Feeds(log, actions, payloads, w, t) && a in actions
    ensures FromLog(log, a)
  {
    hide Watch.At, FeedOf;
    if a.IngestUpdate? && a.update.runId == log.runId {
      Guarantees.FeedIsContiguous(w, t);
      var feed, ups := FeedOf(actions, log.runId), Guarantees.Updates(t);
      InFeed(actions, log.runId, a);
      var i :| 0 <= i < |feed| && feed[i] == a.update;
      assert Guarantees.Offered(w.watches, ups[i]);
      assert Guarantees.OfLog(ups[i], payloads);
    }
  }

  /** End to end: a watch that starts behind any cursor, over any honest watches and any
      interruptions, leaves the view with what it showed before and exactly the updates
      delivered beyond its own cursor. */
  lemma WatchedRunShows(log: RunLog, s: ChatState, kinds: seq<UpdateKind>, v: nat, actions: seq<Action>,
                        payloads: seq<Payload>, w: Watch.World<Payload>, t: seq<Watch.Action<Payload>>)
    requires Finished(log) && Driven(log, s, kinds, v) && Feeds(log, actions, payloads, w, t)
    ensures var c, k := w.o.start, |Guarantees.Updates(t)|;
            && v <= |log.updates| && (k == 0 || c + k <= |log.updates|)
            && Driven(log, ReduceAll(s, actions), kinds + Taken(log, v, c, k), Reached(v, c, k))
  {
    hide ReduceAll, Driven, FeedOf, KeepsSelection, Finished;
    FeedIsInOrder(log, actions, payloads, w, t);
    forall a | a in actions ensures FromLog(log, a) {
      FedFromLog(log, actions, payloads, w, t, a);
    }
    FeedDrives(log, s, kinds, v, actions, w.o.start);
  }

  /** At the end of the log the run has ended; a view that was shown from its beginning on
      shows the canonical result, and one whose feed began further on shows it exactly when
      a snapshot has brought it or what was skipped is unseen. */
  ghost predicate EndsAsRead(log: RunLog, view: RunView, v: nat, c: nat)
    requires log.updates != [] && v <= |log.updates|
  {
    && IsTerminal(view.run.status) && view.pendingInteractions == []
    && (c <= v ==> ShowsResult(log, view))
    && (v < c < |log.updates| ==>
          (ShowsResult(log, view) <==>
             view.outputSnapshotSequence == |log.updates| || SkipsUnseen(log, v, c)))
  }

  lemma EndOfTheLog(log: RunLog, s: ChatState, v: nat, c: nat, k: nat)
    requires Finished(log) && v <= |log.updates| && (k == 0 || c + k <= |log.updates|)
    requires Reached(v, c, k) == |log.updates|
    requires Driven(log, s, log.updates[..v] + Taken(log, v, c, k), |log.updates|)
    ensures EndsAsRead(log, Get(s.views, log.runId).value, v, c)
  {
    hide Finished, SkipsUnseen, OutputOf;
    var view, n := Get(s.views, log.runId).value, |log.updates|;
    if c <= v {
      assert log.updates[..v] + Taken(log, v, c, k) == log.updates[..n];
      PrefixOutput(log, n);
    } else if c < n {
      assert Taken(log, v, c, k) == log.updates[c..];
      GapShowsExactlyWhen(log, view, v, c);
    }
  }

  /** A watch from any cursor over a view that agrees with the log: the view has taken
      exactly what was delivered beyond its own cursor, and at the end of the log it shows
      the canonical output, unless the watch began further on and what it skipped is seen. */
  lemma WatchedRunConverges(log: RunLog, s: ChatState, v: nat, actions: seq<Action>, payloads: seq<Payload>,
                            w: Watch.World<Payload>, t: seq<Watch.Action<Payload>>)
    requires Finished(log) && v <= |log.updates| && Driven(log, s, log.updates[..v], v)
    requires Feeds(log, actions, payloads, w, t)
    ensures var view, c, k := Get(ReduceAll(s, actions).views, log.runId), w.o.start, |Guarantees.Updates(t)|;
            && (k == 0 || c + k <= |log.updates|)
            && view.Some? && view.value.lastSequence == Reached(v, c, k)
            && Shows(log, view.value, log.updates[..v] + Taken(log, v, c, k))
            && (Reached(v, c, k) == |log.updates| ==> EndsAsRead(log, view.value, v, c))
  {
    hide ReduceAll, FeedOf, KeepsSelection, Feeds, Finished, EndsAsRead, Shows, Taken;
    var c, k := w.o.start, |Guarantees.Updates(t)|;
    WatchedRunShows(log, s, log.updates[..v], v, actions, payloads, w, t);
    if Reached(v, c, k) == |log.updates| {
      EndOfTheLog(log, ReduceAll(s, actions), v, c, k);
    }
  }

  /** A watch that reports completion, on a fenced route, over watches whose clean ends are
      proved and with honest summaries, has brought the view to the end of the log - unless
      it began at the end, delivered nothing and left the cursor where it was. */
  lemma CompleteWatchShowsResult(log: RunLog, s: ChatState, v: nat, actions: seq<Action>, payloads: seq<Payload>,
                                 w: Watch.World<Payload>, t: seq<Watch.Action<Payload>>)
    requires Finished(log) && v <= |log.updates| && Driven(log, s, log.updates[..v], v)
    requires Feeds(log, actions, payloads, w, t)
    requires Guarantees.Fenced(w.env) && Guarantees.ProvedEnds(w, |log.updates|)
    requires Guarantees.HonestSummaries(w, |log.updates|)
    requires Watch.At(w, |t|).pc.Done? && Watch.At(w, |t|).pc.result.Complete?
    ensures var view := Get(ReduceAll(s, actions).views, log.runId);
            && view.Some?
            && if w.o.start < |log.updates| || v == |log.updates| then
                 view.value.lastSequence == |log.updates| && EndsAsRead(log, view.value, v, w.o.start)
               else view.value.lastSequence == v && Shows(log, view.value, log.updates[..v])
  {
    hide ReduceAll, Driven, FeedOf, Finished, EndsAsRead, Shows, Watch.At;
    WatchedRunConverges(log, s, v, actions, payloads, w, t);
    CursorAtTheEnd(w, t, |log.updates|);
    assert log.updates[..v] + [] == log.updates[..v];
  }

  lemma CursorAtTheEnd(w: Watch.World<Payload>, t: seq<Watch.Action<Payload>>, length: nat)
    requires Watch.Follows(w, t) && Guarantees.Fenced(w.env) && Guarantees.ProvedEnds(w, length)
    requires Guarantees.HonestSummaries(w, length)
    requires Watch.At(w, |t|).pc.Done? && Watch.At(w, |t|).pc.result.Complete?
    ensures w.o.start + |Guarantees.Updates(t)| == length
  {
    Guarantees.FeedIsContiguous(w, t);
    Guarantees.CompleteIsTheEnd(w, |t|, length);
  }

  lemma {:induction false} InFeed(actions: seq<Action>, id: string, a: Action)
    requires a in actions && a.IngestUpdate? && a.update.runId == id
    ensures a.update in FeedOf(actions, id)
  {
    var n := |actions| - 1;
    if actions[n] != a {
      InFeed(actions[..n], id, a);
    }
  }

  // ----- where a watch begins -----

  /** Selecting a run and receiving any snapshot of it is a state a watch can start from. */
  lemma FirstSnapshotDrives(log: RunLog, run: Run)
    requires Finished(log) && run.runId == log.runId && SnapshotOf(log, run)
    ensures Driven(log, Reduce(Reduce(INITIAL, SelectRun(Some(log.runId))), UpsertRun(run)), [], 0)
  {
    var s := Reduce(INITIAL, SelectRun(Some(log.runId)));
    assert s == INITIAL.(activeRunId := Some(log.runId));
    SnapshotShows(log, None, [], run);
    ReduceView(s, UpsertRun(run), log.runId);
  }

  /** So is opening a run, from any state: its details are hydrated, then it is selected.
      The view keeps its own cursor, whatever the cursor of the details. */
  lemma OpenedRunDrives(log: RunLog, s: ChatState, kinds: seq<UpdateKind>, d: RunDetails)
    requires Finished(log) && Unique(s.views) && d.run.runId == log.runId && SnapshotOf(log, d.run)
    requires var view := Get(s.views, log.runId); if view.Some? then Shows(log, view.value, kinds) else kinds == []
    ensures var view := Get(s.views, log.runId);
            Driven(log, Reduce(Reduce(s, HydrateRun(d)), SelectRun(Some(log.runId))), kinds,
                   if view.Some? then view.value.lastSequence else 0)
  {
    hide Shows, Hydrated, Trim, Put;
    var id, view := log.runId, Get(s.views, log.runId);
    var s' := Reduce(s, HydrateRun(d));
    if !Stale(s, d.run) {
      var after := Hydrated(view, d);
      SnapshotShows(log, view, kinds, d.run);
      HydratedCursor(view, d);
      GetPut(s.views, id, after, id);
      TrimView(Put(s.views, id, after), s.activeRunId, Some(id), id);
    }
    TrimView(s'.views, Some(id), None, id);
  }

  lemma HydratedCursor(current: Option<RunView>, d: RunDetails)
    ensures Hydrated(current, d).lastSequence == if current.Some? then current.value.lastSequence else 0
  {
  }

  /** Updates of the log dispatched from the one behind cursor c on. */
  function Replay(log: RunLog, c: nat, n: nat): seq<Action>
    requires c <= n <= |log.updates|
  {
    if n == c then [] else Replay(log, c, n - 1) + [IngestUpdate(RunUpdate(log.runId, n, "", log.updates[n - 1]))]
  }

  lemma ReplayedIsFromLog(log: RunLog, n: nat)
    requires 0 < n <= |log.updates|
    ensures var a := IngestUpdate(RunUpdate(log.runId, n, "", log.updates[n - 1]));
            KeepsSelection(a, log.runId) && FromLog(log, a)
  {
  }

  lemma {:induction false} ReplayIsFeed(log: RunLog, c: nat, n: nat)
    requires c <= n <= |log.updates|
    ensures forall a <- Replay(log, c, n) :: KeepsSelection(a, log.runId) && FromLog(log, a)
    ensures var feed := FeedOf(Replay(log, c, n), log.runId); |feed| == n - c && InOrderAfter(feed, c)
  {
    hide KeepsSelection, FromLog;
    if n > c {
      var earlier := Replay(log, c, n - 1);
      ReplayIsFeed(log, c, n - 1);
      ReplayedIsFromLog(log, n);
      assert Replay(log, c, n)[..|earlier|] == earlier;
    }
  }

  /** Every finished log is shown: after any first snapshot, replaying it to the end gives
      the canonical view. */
  lemma ReplayShowsTheRun(log: RunLog, run: Run)
    requires Finished(log) && run.runId == log.runId && SnapshotOf(log, run)
    ensures var s := Reduce(Reduce(INITIAL, SelectRun(Some(log.runId))), UpsertRun(run));
            var view := Get(ReduceAll(s, Replay(log, 0, |log.updates|)).views, log.runId);
            view.Some? && view.value.lastSequence == |log.updates| && ShowsResult(log, view.value)
  {
    hide ReduceAll, Reduce, Shows, ShowsResult, Finished;
    var n, s := |log.updates|, Reduce(Reduce(INITIAL, SelectRun(Some(log.runId))), UpsertRun(run));
    FirstSnapshotDrives(log, run);
    ReplayIsFeed(log, 0, n);
    FeedDrives(log, s, [], 0, Replay(log, 0, n), 0);
    assert log.updates[..0] + Taken(log, 0, 0, n) == [] + Taken(log, 0, 0, n);
    EndOfTheLog(log, ReduceAll(s, Replay(log, 0, n)), 0, 0, n);
  }

  /** A cancelled run that streamed two texts. */
  function TwoTexts(id: string, first: string, second: string): RunLog {
    RunLog(id, [OutputDelta(first), OutputDelta(second), CancellationUpdate("")])
  }

  /** The family that fails: a run that is not cached is opened at its first update, and the
      watch starts there. Every action is of the log, and at its end the view shows the
      second text alone. */
  lemma OpeningLateLosesText(d: RunDetails, first: string, second: string)
    requires d.run.lastSequence == 1 && d.run.terminal.None?
    requires first != "" && |first + second| <= MAX_OUTPUT_CHARACTERS
    ensures var log := TwoTexts(d.run.runId, first, second);
            var s := Reduce(Reduce(INITIAL, HydrateRun(d)), SelectRun(Some(log.runId)));
            var view := Get(ReduceAll(s, Replay(log, d.run.lastSequence, 3)).views, log.runId);
            && Finished(log) && (forall a <- Replay(log, 1, 3) :: FromLog(log, a)) && SnapshotOf(log, d.run)
            && FinalText(log) == first + second
            && view.Some? && view.value.lastSequence == 3 && IsTerminal(view.value.run.status)
            && view.value.output == second != BoundedOutput(FinalText(log))
  {
    hide ReduceAll, Reduce, Replay;
    var log := TwoTexts(d.run.runId, first, second);
    var s := Reduce(Reduce(INITIAL, HydrateRun(d)), SelectRun(Some(log.runId)));
    TwoTextsStream(d.run.runId, first, second);
    OpenedRunDrives(log, INITIAL, [], d);
    ReplayIsFeed(log, 1, 3);
    FeedDrives(log, s, [], 0, Replay(log, 1, 3), 1);
    assert [] + Taken(log, 0, 1, 2) == log.updates[1..];
  }

  lemma TwoTextsStream(id: string, first: string, second: string)
    ensures var log := TwoTexts(id, first, second);
            && Finished(log) && FinalText(log) == first + second
            && OutputOf(log.updates[1..]) == BoundedOutput(second)
  {
    var log := TwoTexts(id, first, second);
    var streamed, later := log.updates[..2], log.updates[1..];
    assert streamed[..1] == [OutputDelta(first)] && later[..1] == [OutputDelta(second)];
    assert Deltas([OutputDelta(first)]) == first && Deltas([OutputDelta(second)]) == second;
    assert Deltas(streamed) == first + second;
    assert Deltas(log.updates) == first + second + "" == first + second && Deltas(later) == second + "" == second;
  }
}
