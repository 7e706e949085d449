/** The bounded list of recent runs of apps/desktop/src/state.ts. */
module RecentRuns {
  import opened Wrappers
  import opened StableSort
  import opened RunViews

  const MAX_RECENT_RUNS: nat := 200

  function First<T>(s: seq<T>, limit: nat): seq<T> {
    if |s| <= limit then s else s[..limit]
  }

  predicate NewerFirst(left: Run, right: Run) {
    right.createdAt <= left.createdAt
  }

  // ----- a Map from run ids to runs, as the list of its values -----

  function Find(runs: seq<Run>, id: string): (r: Option<Run>)
    ensures r.Some? ==> r.value in runs && r.value.runId == id
    ensures r.None? ==> forall run <- runs :: run.runId != id
  {
    if runs == [] then None
    else if runs[0].runId == id then Some(runs[0])
    else Find(runs[1..], id)
  }

  function Upsert(runs: seq<Run>, run: Run): (r: seq<Run>)
    ensures |r| >= |runs| && forall i :: 0 <= i < |runs| ==> r[i].runId == runs[i].runId
    ensures forall x <- r :: x == run || x in runs
  {
    if runs == [] then [run]
    else if runs[0].runId == run.runId then [run] + runs[1..]
    else [runs[0]] + Upsert(runs[1..], run)
  }

  ghost predicate Distinct(runs: seq<Run>) {
    forall i, j :: 0 <= i < j < |runs| ==> runs[i].runId != runs[j].runId
  }

  lemma {:induction false} FindUpsert(runs: seq<Run>, run: Run, id: string)
    ensures Find(Upsert(runs, run), id) == if id == run.runId then Some(run) else Find(runs, id)
  {
    if runs != [] {
      var r := Upsert(runs, run);
      if runs[0].runId == run.runId {
        assert r[1..] == runs[1..];
      } else {
        assert r[1..] == Upsert(runs[1..], run);
        FindUpsert(runs[1..], run, id);
      }
    }
  }

  lemma UpsertPlaces(runs: seq<Run>, run: Run)
    ensures Find(runs, run.runId).None? ==> Upsert(runs, run) == runs + [run]
    ensures Find(runs, run.runId).Some? ==> |Upsert(runs, run)| == |runs|
  {
    hide Find, Upsert;
    if Find(runs, run.runId).None? {
      UpsertAppends(runs, run);
    } else {
      UpsertReplaces(runs, run);
    }
  }

  lemma {:induction false} UpsertAppends(runs: seq<Run>, run: Run)
    requires forall r <- runs :: r.runId != run.runId
    ensures Upsert(runs, run) == runs + [run]
  {
    if runs != [] {
      UpsertAppends(runs[1..], run);
      assert runs + [run] == [runs[0]] + (runs[1..] + [run]);
    }
  }

  lemma {:induction false} UpsertReplaces(runs: seq<Run>, run: Run)
    requires exists r <- runs :: r.runId == run.runId
    ensures |Upsert(runs, run)| == |runs|
  {
    if runs[0].runId != run.runId {
      UpsertReplaces(runs[1..], run);
    }
  }

  lemma UpsertDistinct(runs: seq<Run>, run: Run)
    requires Distinct(runs)
    ensures Distinct(Upsert(runs, run))
  {
    UpsertPlaces(runs, run);
  }

  lemma {:induction false} FindAt(runs: seq<Run>, i: nat)
    requires Distinct(runs) && i < |runs|
    ensures Find(runs, runs[i].runId) == Some(runs[i])
  {
    if i > 0 {
      assert runs[0].runId != runs[i].runId;
      FindAt(runs[1..], i - 1);
    }
  }

  function ById(runs: seq<Run>): seq<Run> {
    if runs == [] then [] else Upsert(ById(runs[..|runs| - 1]), runs[|runs| - 1])
  }

  function Consider(byId: seq<Run>, incoming: Run): (r: seq<Run>)
    ensures |r| >= |byId| && forall i :: 0 <= i < |byId| ==> r[i].runId == byId[i].runId
    ensures forall x <- r :: x == CompactRun(incoming) || x in byId
  {
    var run := CompactRun(incoming);
    var current := Find(byId, run.runId);
    if current.None? || run.lastSequence >= current.value.lastSequence then Upsert(byId, run) else byId
  }

  function Fold(byId: seq<Run>, incoming: seq<Run>): (r: seq<Run>)
    ensures |r| >= |byId| && forall i :: 0 <= i < |byId| ==> r[i].runId == byId[i].runId
  {
    if incoming == [] then byId
    else Consider(Fold(byId, incoming[..|incoming| - 1]), incoming[|incoming| - 1])
  }

  function Merge(existing: seq<Run>, incoming: seq<Run>): seq<Run> {
    First(Sort(Fold(ById(existing), incoming), NewerFirst), MAX_RECENT_RUNS)
  }

  method MergeRuns(existing: seq<Run>, incoming: seq<Run>) returns (merged: seq<Run>)
    ensures merged == Merge(existing, incoming)
    ensures Distinct(merged) && Sorted(merged, NewerFirst) && |merged| <= MAX_RECENT_RUNS
    ensures forall id: string :: Find(merged, id).Some? ==>
            Find(merged, id) == Best(Find(ById(existing), id), incoming, id)
  {
    var byId := [];
    for i := 0 to |existing|
      invariant byId == ById(existing[..i])
    {
      assert existing[..i + 1][..i] == existing[..i];
      byId := Upsert(byId, existing[i]);
    }
    assert existing[..|existing|] == existing;
    for i := 0 to |incoming|
      invariant byId == Fold(ById(existing), incoming[..i])
    {
      assert incoming[..i + 1][..i] == incoming[..i];
      var run := CompactRun(incoming[i]);
      var current := Find(byId, run.runId);
      if current.None? || run.lastSequence >= current.value.lastSequence {
        byId := Upsert(byId, run);
      }
    }
    assert incoming[..|incoming|] == incoming;
    merged := First(Sort(byId, NewerFirst), MAX_RECENT_RUNS);
    MergeIsOrdered(existing, incoming);
    forall id: string | Find(merged, id).Some?
      ensures Find(merged, id) == Best(Find(ById(existing), id), incoming, id)
    {
      MergedIsBest(existing, incoming, id);
    }
  }

  // ----- which version of a run is kept -----

  /** The version of run `id` that survives: one at least as far as any other, the latest
      such one among the incoming. */
  function Best(current: Option<Run>, incoming: seq<Run>, id: string): Option<Run> {
    if incoming == [] then current
    else
      var n := |incoming| - 1;
      var best := Best(current, incoming[..n], id);
      if incoming[n].runId == id && (best.None? || incoming[n].lastSequence >= best.value.lastSequence)
      then Some(CompactRun(incoming[n]))
      else best
  }

  lemma {:induction false} BestIsLatest(current: Option<Run>, incoming: seq<Run>, id: string)
    ensures var r := Best(current, incoming, id);
            && (current.Some? ==> r.Some? && r.value.lastSequence >= current.value.lastSequence)
            && (forall p <- incoming :: p.runId == id ==> r.Some? && r.value.lastSequence >= p.lastSequence)
            && (r == current || exists p <- incoming :: p.runId == id && r == Some(CompactRun(p)))
  {
    if incoming != [] {
      var n := |incoming| - 1;
      BestIsLatest(current, incoming[..n], id);
      assert incoming == incoming[..n] + [incoming[n]];
      assert incoming[n] in incoming;
    }
  }

  lemma {:induction false} ByIdDistinct(runs: seq<Run>)
    ensures Distinct(ById(runs))
  {
    if runs != [] {
      ByIdDistinct(runs[..|runs| - 1]);
      UpsertDistinct(ById(runs[..|runs| - 1]), runs[|runs| - 1]);
    }
  }

  lemma {:induction false} FoldIsBest(byId: seq<Run>, incoming: seq<Run>, id: string)
    requires Distinct(byId)
    ensures Distinct(Fold(byId, incoming))
    ensures Find(Fold(byId, incoming), id) == Best(Find(byId, id), incoming, id)
  {
    if incoming != [] {
      var n := |incoming| - 1;
      FoldIsBest(byId, incoming[..n], id);
      FindUpsert(Fold(byId, incoming[..n]), CompactRun(incoming[n]), id);
      UpsertDistinct(Fold(byId, incoming[..n]), CompactRun(incoming[n]));
    }
  }

  lemma OrderIsTotal()
    ensures TotalPreorder(NewerFirst)
  {
  }

  lemma OnceInDistinct(runs: seq<Run>, i: nat)
    requires Distinct(runs) && i < |runs|
    ensures multiset(runs)[runs[i]] == 1
  {
    assert runs == runs[..i] + [runs[i]] + runs[i + 1..];
    assert runs[i] !in runs[..i] && runs[i] !in runs[i + 1..];
  }

  lemma PermutedDistinct(a: seq<Run>, b: seq<Run>)
    requires multiset(a) == multiset(b) && Distinct(a)
    ensures Distinct(b)
  {
    forall i, j | 0 <= i < j < |b| ensures b[i].runId != b[j].runId {
      assert b[i] in multiset(b) && b[j] in multiset(b);
      var x :| 0 <= x < |a| && a[x] == b[i];
      var y :| 0 <= y < |a| && a[y] == b[j];
      OnceInDistinct(a, x);
      if x == y {
        TwiceAt(b, i, j);
      }
    }
  }

  /** Recent runs are distinct, newest first, and at most 200. */
  lemma MergeIsOrdered(existing: seq<Run>, incoming: seq<Run>)
    ensures var m := Merge(existing, incoming);
            Distinct(m) && Sorted(m, NewerFirst) && |m| <= MAX_RECENT_RUNS
  {
    var all := Fold(ById(existing), incoming);
    OrderIsTotal();
    ByIdDistinct(existing);
    FoldIsBest(ById(existing), incoming, "");
    SortSorted(all, NewerFirst);
    SortPermutes(all, NewerFirst);
    PermutedDistinct(all, Sort(all, NewerFirst));
  }

  /** A run that is kept is kept in its best version, so it never regresses. */
  lemma MergedIsBest(existing: seq<Run>, incoming: seq<Run>, id: string)
    ensures var m := Merge(existing, incoming);
            Find(m, id).Some? ==> Find(m, id) == Best(Find(ById(existing), id), incoming, id)
  {
    var all, m := Fold(ById(existing), incoming), Merge(existing, incoming);
    ByIdDistinct(existing);
    FoldIsBest(ById(existing), incoming, id);
    if Find(m, id).Some? {
      var run := Find(m, id).value;
      SortMembers(all, NewerFirst, run);
      var i :| 0 <= i < |all| && all[i] == run;
      FindAt(all, i);
    }
  }

  /** The list is by time of creation, latest first; and a run that is known or comes in is
      missing only if two hundred others are kept, each of them as new or newer. */
  lemma NewestAreKept(existing: seq<Run>, incoming: seq<Run>, id: string)
    ensures var m := Merge(existing, incoming);
            forall i, j :: 0 <= i < j < |m| ==> m[i].createdAt >= m[j].createdAt
    ensures var m, best := Merge(existing, incoming), Best(Find(ById(existing), id), incoming, id);
            best.Some? && Find(m, id).None? ==>
              |m| == 200 && forall run <- m :: run.createdAt >= best.value.createdAt
  {
    hide Fold, ById, Best, Merge, Distinct;
    MergeIsOrdered(existing, incoming);
    var m, all := Merge(existing, incoming), Fold(ById(existing), incoming);
    ByIdDistinct(existing);
    FoldIsBest(ById(existing), incoming, id);
    var best := Find(all, id);
    if best.Some? && Find(m, id).None? {
      MergeIs(existing, incoming);
      var i := CutOff(existing, incoming, best.value);
      OrderIsTotal();
      SortSorted(all, NewerFirst);
      forall run | run in m ensures run.createdAt >= best.value.createdAt {
        var k :| 0 <= k < |m| && m[k] == run;
        assert NewerFirst(Sort(all, NewerFirst)[k], Sort(all, NewerFirst)[i]);
      }
    }
  }

  lemma MergeIs(existing: seq<Run>, incoming: seq<Run>)
    ensures Merge(existing, incoming) == First(Sort(Fold(ById(existing), incoming), NewerFirst), 200)
  {
  }

  /** Of several versions equally far the last one that comes in is kept, and any of them
      instead of the known one. */
  lemma LaterVersionsWin(current: Option<Run>, incoming: seq<Run>, run: Run)
    requires current.Some? ==> current.value.lastSequence <= run.lastSequence
    requires forall p <- incoming :: p.runId == run.runId ==> p.lastSequence <= run.lastSequence
    ensures Best(current, incoming + [run], run.runId) == Some(CompactRun(run))
  {
    assert (incoming + [run])[..|incoming|] == incoming;
    BestIsLatest(current, incoming, run.runId);
  }

  /** The known runs are by id, each in its last version. */
  lemma {:induction false} ByIdIsLast(runs: seq<Run>, run: Run, later: seq<Run>)
    requires forall r <- later :: r.runId != run.runId
    ensures Find(ById(runs + [run] + later), run.runId) == Some(run)
    decreases |later|
  {
    hide Find, ById, Upsert;
    if later == [] {
      assert runs + [run] + later == runs + [run];
      ByIdSnoc(runs, run);
      FindUpsert(ById(runs), run, run.runId);
    } else {
      var n := |later| - 1;
      var earlier := runs + [run] + later[..n];
      assert runs + [run] + later == earlier + [later[n]];
      ByIdIsLast(runs, run, later[..n]);
      ByIdSnoc(earlier, later[n]);
      FindUpsert(ById(earlier), later[n], run.runId);
    }
  }

  lemma ByIdSnoc(runs: seq<Run>, run: Run)
    ensures ById(runs + [run]) == Upsert(ById(runs), run)
  {
    assert (runs + [run])[..|runs|] == runs;
  }

  // ----- merging a page again -----

  lemma {:induction false} BestAgain(current: Option<Run>, incoming: seq<Run>, id: string, k: nat)
    requires k <= |incoming|
    ensures var best := Best(current, incoming, id);
            var again := Best(best, incoming[..k], id);
            && (again == best || again == Best(current, incoming[..k], id))
            && (best.Some? ==> again.Some? && again.value.lastSequence == best.value.lastSequence)
  {
    if k > 0 {
      assert incoming[..k][..k - 1] == incoming[..k - 1];
      BestAgain(current, incoming, id, k - 1);
      BestRises(current, incoming, id, k - 1);
      BestIsLatest(current, incoming, id);
      assert incoming[k - 1] in incoming;
    }
  }

  lemma {:induction false} BestRises(current: Option<Run>, incoming: seq<Run>, id: string, k: nat)
    requires k <= |incoming|
    ensures var early, best := Best(current, incoming[..k], id), Best(current, incoming, id);
            early.Some? ==> best.Some? && early.value.lastSequence <= best.value.lastSequence
    decreases |incoming| - k
  {
    if k < |incoming| {
      assert incoming[..k + 1][..k] == incoming[..k];
      BestRises(current, incoming, id, k + 1);
    } else {
      assert incoming[..k] == incoming;
    }
  }

  ghost predicate CreatedAs(created: string -> int, runs: seq<Run>) {
    forall run <- runs :: run.createdAt == created(run.runId)
  }

  lemma {:induction false} ByIdCreated(created: string -> int, runs: seq<Run>)
    requires CreatedAs(created, runs)
    ensures CreatedAs(created, ById(runs))
  {
    if runs != [] {
      ByIdCreated(created, runs[..|runs| - 1]);
    }
  }

  lemma {:induction false} FoldCreated(created: string -> int, byId: seq<Run>, incoming: seq<Run>)
    requires CreatedAs(created, byId) && CreatedAs(created, incoming)
    ensures CreatedAs(created, Fold(byId, incoming))
  {
    if incoming != [] {
      FoldCreated(created, byId, incoming[..|incoming| - 1]);
    }
  }

  lemma {:induction false} ByIdOfDistinct(runs: seq<Run>)
    requires Distinct(runs)
    ensures ById(runs) == runs
  {
    hide Upsert;
    if runs != [] {
      var n := |runs| - 1;
      ByIdOfDistinct(runs[..n]);
      UpsertPlaces(runs[..n], runs[n]);
      assert runs == runs[..n] + [runs[n]];
    }
  }

  /** Merging the same page again changes nothing, given one creation time for each run. */
  lemma MergeIsIdempotent(existing: seq<Run>, page: seq<Run>, created: string -> int)
    requires CreatedAs(created, existing) && CreatedAs(created, page)
    ensures Merge(Merge(existing, page), page) == Merge(existing, page)
  {
    hide Fold, ById, Best, Find, Distinct, CreatedAs;
    var all, m := Fold(ById(existing), page), Merge(existing, page);
    var again := Fold(m, page);
    MergeIsOrdered(existing, page);
    ByIdOfDistinct(m);
    KeptRunsStay(existing, page);
    var late := again[|m|..];
    assert again == m + late;
    forall x, y | x in m && y in late ensures NewerFirst(x, y) {
      LateRunsAreOlder(existing, page, created, x, y);
    }
    SortAppend(m, late, NewerFirst);
    if late != [] {
      LateRunsMeanFull(existing, page, late[0]);
    }
  }

  lemma KeptRunsStay(existing: seq<Run>, page: seq<Run>)
    ensures var m := Merge(existing, page); m <= Fold(m, page)
  {
    var m := Merge(existing, page);
    var again := Fold(m, page);
    MergeIsOrdered(existing, page);
    forall i | 0 <= i < |m| ensures again[i] == m[i] {
      var id := m[i].runId;
      FindAt(m, i);
      MergedIsBest(existing, page, id);
      FoldIsBest(m, page, id);
      FindAt(again, i);
      BestAgain(Find(ById(existing), id), page, id, |page|);
      assert page[..|page|] == page;
    }
  }

  /** A run that merging adds again had been cut off before. */
  lemma LateRuns(existing: seq<Run>, page: seq<Run>, late: Run) returns (earlier: Run)
    requires var m := Merge(existing, page); late in Fold(m, page)[|m|..]
    ensures Find(Merge(existing, page), late.runId).None?
    ensures earlier in Fold(ById(existing), page) && earlier.runId == late.runId
  {
    hide Merge, Fold, ById, Best, Find;
    var m := Merge(existing, page);
    var again := Fold(m, page);
    MergeIsOrdered(existing, page);
    ByIdDistinct(existing);
    var i :| |m| <= i < |again| && again[i] == late;
    FoldIsBest(m, page, late.runId);
    FoldIsBest(ById(existing), page, late.runId);
    FindAt(again, i);
    forall j | 0 <= j < |m| ensures m[j].runId != late.runId {
      assert again[j].runId == m[j].runId;
    }
    earlier := Find(Fold(ById(existing), page), late.runId).value;
  }

  lemma CutOff(existing: seq<Run>, page: seq<Run>, run: Run) returns (i: nat)
    requires run in Fold(ById(existing), page) && Find(Merge(existing, page), run.runId).None?
    ensures var all := Sort(Fold(ById(existing), page), NewerFirst);
            MAX_RECENT_RUNS <= i < |all| && all[i] == run
  {
    SortMembers(Fold(ById(existing), page), NewerFirst, run);
    var all := Sort(Fold(ById(existing), page), NewerFirst);
    i :| 0 <= i < |all| && all[i] == run;
    var m := Merge(existing, page);
    assert forall k :: 0 <= k < |m| ==> m[k] == all[k] && m[k] in m;
  }

  lemma LateRunsAreOlder(existing: seq<Run>, page: seq<Run>, created: string -> int, kept: Run, late: Run)
    requires CreatedAs(created, existing) && CreatedAs(created, page)
    requires var m := Merge(existing, page); kept in m && late in Fold(m, page)[|m|..]
    ensures NewerFirst(kept, late)
  {
    hide Fold, ById, Best, Find;
    var m, folded := Merge(existing, page), Fold(ById(existing), page);
    var all := Sort(folded, NewerFirst);
    ByIdCreated(created, existing);
    FoldCreated(created, ById(existing), page);
    assert CreatedAs(created, m) by {
      forall run | run in m ensures run.createdAt == created(run.runId) {
        SortMembers(folded, NewerFirst, run);
      }
    }
    FoldCreated(created, m, page);
    var earlier := LateRuns(existing, page, late);
    var i := CutOff(existing, page, earlier);
    var j :| 0 <= j < |m| && m[j] == kept;
    OrderIsTotal();
    SortSorted(folded, NewerFirst);
    assert all[j] == kept && NewerFirst(all[j], all[i]);
  }

  lemma LateRunsMeanFull(existing: seq<Run>, page: seq<Run>, late: Run)
    requires var m := Merge(existing, page); late in Fold(m, page)[|m|..]
    ensures |Merge(existing, page)| == MAX_RECENT_RUNS
  {
    var earlier := LateRuns(existing, page, late);
    var i := CutOff(existing, page, earlier);
  }

  // ----- replacing the first page -----

  function Fresher(existing: seq<Run>, incoming: seq<Run>): (r: seq<Run>)
    ensures |r| == |incoming|
  {
    if incoming == [] then []
    else
      var current := Find(ById(existing), incoming[0].runId);
      [if current.Some? && current.value.lastSequence > incoming[0].lastSequence then current.value else incoming[0]]
      + Fresher(existing, incoming[1..])
  }

  function Refresh(existing: seq<Run>, incoming: seq<Run>): seq<Run> {
    Merge([], Fresher(existing, incoming))
  }

  lemma {:induction false} FresherRuns(existing: seq<Run>, incoming: seq<Run>)
    ensures forall i :: 0 <= i < |incoming| ==>
              var run, current := Fresher(existing, incoming)[i], Find(ById(existing), incoming[i].runId);
              && run.runId == incoming[i].runId && run.lastSequence >= incoming[i].lastSequence
              && (current.Some? ==> run.lastSequence >= current.value.lastSequence)
  {
    if incoming != [] {
      FresherRuns(existing, incoming[1..]);
    }
  }

  /** Every run of the new page is shown, at least as far as the page has it, unless two
      hundred runs are shown. */
  lemma RefreshShowsThePage(existing: seq<Run>, incoming: seq<Run>, run: Run)
    requires run in incoming
    ensures var m := Refresh(existing, incoming);
            var shown := Find(m, run.runId);
            if shown.Some? then shown.value.lastSequence >= run.lastSequence else |m| == 200
  {
    hide Merge, Best, Fresher, ById, Find;
    var fresher := Fresher(existing, incoming);
    var i :| 0 <= i < |incoming| && incoming[i] == run;
    FresherRuns(existing, incoming);
    assert fresher[i] in fresher;
    BestIsLatest(Find(ById([]), run.runId), fresher, run.runId);
    MergedIsBest([], fresher, run.runId);
    NewestAreKept([], fresher, run.runId);
  }

  /** Replacing the list shows exactly runs of the new page, none behind what was shown. */
  lemma RefreshNeverRegresses(existing: seq<Run>, incoming: seq<Run>, run: Run)
    requires run in Refresh(existing, incoming)
    ensures exists p <- incoming :: p.runId == run.runId
    ensures var current := Find(ById(existing), run.runId);
            current.Some? ==> run.lastSequence >= current.value.lastSequence
  {
    var fresher := Fresher(existing, incoming);
    var m := Merge([], fresher);
    MergeIsOrdered([], fresher);
    var i :| 0 <= i < |m| && m[i] == run;
    FindAt(m, i);
    MergedIsBest([], fresher, run.runId);
    FresherRuns(existing, incoming);
    BestIsLatest(None, fresher, run.runId);
    var p :| p in fresher && p.runId == run.runId && CompactRun(p) == run;
    var j :| 0 <= j < |fresher| && fresher[j] == p;
    assert incoming[j].runId == run.runId;
  }
}
