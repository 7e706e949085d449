/** The per-run token usage of the VS Code controller (apps/vscode/src/controller.ts):
    reports keyed by sequence, and a cached total that is dropped when it may be stale. */
module UsageTotals {
  import opened Wrappers
  import opened OrderedMaps

  const MAX_REPORTS: nat := 2000

  datatype Usage = Usage(input: int, output: int, total: int, cached: Option<int>, reasoning: Option<int>)

  const ZERO := Usage(0, 0, 0, Some(0), Some(0))

  /** An update of a feed; usage is None for every other kind. */
  datatype Item = Item(runId: string, sequence: int, usage: Option<Usage>)

  type Reports = Entries<int, Usage>

  /** Optional counts are shown only if every report has them. */
  function AddOptional(a: Option<int>, b: Option<int>): Option<int> {
    if a.Some? && b.Some? then Some(a.value + b.value) else None
  }

  function Add(a: Usage, b: Usage): Usage {
    Usage(a.input + b.input, a.output + b.output, a.total + b.total,
          AddOptional(a.cached, b.cached), AddOptional(a.reasoning, b.reasoning))
  }

  function Sum(reports: Reports): Usage {
    if reports == [] then ZERO else Add(Sum(reports[..|reports| - 1]), reports[|reports| - 1].1)
  }

  /** The items that reached recordUsage for a run since the caches were last cleared. */
  function Recorded(history: seq<Item>, runId: string): Reports {
    if history == [] then []
    else
      var n := |history| - 1;
      var earlier, item := Recorded(history[..n], runId), history[n];
      if item.runId != runId || item.sequence <= 0 || item.usage.None? || item.sequence in Keys(earlier)
         || |earlier| >= MAX_REPORTS then earlier
      else earlier + [(item.sequence, item.usage.value)]
  }

  ghost predicate AreRecorded(reports: map<string, Reports>, history: seq<Item>) {
    && (forall id :: Recorded(history, id) == if id in reports then reports[id] else [])
    && (forall id <- reports :: reports[id] != [])
  }

  ghost predicate AreSums(totals: map<string, Usage>, reports: map<string, Reports>) {
    forall id <- totals :: id in reports && totals[id] == Sum(reports[id])
  }

  class UsageCache {
    var reports: map<string, Reports>
    var totals: map<string, Usage>
    ghost var history: seq<Item>

    /** The reports are those recorded, and whatever total is cached is their sum. */
    ghost predicate Valid()
      reads this
    {
      AreRecorded(reports, history) && AreSums(totals, reports)
    }

    constructor ()
      ensures Valid() && history == []
    {
      reports, totals, history := map[], map[], [];
    }

    method Clear()
      modifies this
      ensures Valid() && history == []
    {
      reports, totals, history := map[], map[], [];
    }

    method RecordUsage(item: Item, runId: string)
      requires Valid()
      modifies this
      ensures Valid()
      ensures history == if item.runId == runId then old(history) + [item] else old(history)
    {
      if item.runId == runId {
        history := history + [item];
        assert history[..|history| - 1] == old(history);
      }
      if item.runId != runId || item.sequence <= 0 || item.usage.None? {
        return;
      }
      var known := if runId in reports then reports[runId] else [];
      if item.sequence in Keys(known) || |known| >= MAX_REPORTS {
        return;
      }
      reports := reports[runId := known + [(item.sequence, item.usage.value)]];
      totals := totals - {runId};
    }

    /** runUsage: the sum over the distinct sequences recorded, cached or not. */
    method RunUsage(runId: string) returns (usage: Option<Usage>)
      requires Valid()
      modifies `totals
      ensures Valid()
      ensures usage == var r := Recorded(history, runId); if r == [] then None else Some(Sum(r))
    {
      if runId in totals {
        return Some(totals[runId]);
      }
      if runId !in reports {
        return None;
      }
      var sum := ZERO;
      var all := reports[runId];
      for i := 0 to |all|
        invariant sum == Sum(all[..i])
      {
        assert all[..i + 1][..i] == all[..i];
        sum := Add(sum, all[i].1);
      }
      assert all[..|all|] == all;
      totals := totals[runId := sum];
      return Some(sum);
    }

    /** The pruning in loadMessages: forget the runs that are no longer listed. */
    method Prune(retained: set<string>)
      requires Valid()
      modifies this
      ensures Valid() && history == OfRuns(old(history), retained)
    {
      history := OfRuns(history, retained);
      PruneReports(reports, old(history), retained);
      reports := map id | id in reports && id in retained :: reports[id];
      totals := map id | id in totals && id in retained :: totals[id];
    }
  }

  lemma PruneReports(reports: map<string, Reports>, history: seq<Item>, retained: set<string>)
    requires AreRecorded(reports, history)
    ensures AreRecorded(map id | id in reports && id in retained :: reports[id], OfRuns(history, retained))
  {
    forall id ensures Recorded(OfRuns(history, retained), id) == if id in retained then Recorded(history, id) else [] {
      PruneRecorded(history, retained, id);
    }
  }

  function OfRuns(history: seq<Item>, retained: set<string>): seq<Item> {
    if history == [] then []
    else
      var n := |history| - 1;
      var earlier := OfRuns(history[..n], retained);
      if history[n].runId in retained then earlier + [history[n]] else earlier
  }

  lemma {:induction false} PruneRecorded(history: seq<Item>, retained: set<string>, id: string)
    ensures Recorded(OfRuns(history, retained), id) == if id in retained then Recorded(history, id) else []
  {
    if history != [] {
      var n := |history| - 1;
      PruneRecorded(history[..n], retained, id);
      var earlier := OfRuns(history[..n], retained);
      assert (earlier + [history[n]])[..|earlier|] == earlier;
    }
  }

  /** Recorded sequences are distinct, positive, at most 2000, and each was reported for the run. */
  lemma {:induction false} RecordedIsDistinct(history: seq<Item>, runId: string)
    ensures var r := Recorded(history, runId);
            && Unique(r) && |r| <= MAX_REPORTS
            && (forall e <- r :: e.0 > 0 && Item(runId, e.0, Some(e.1)) in history)
            && (|r| < MAX_REPORTS ==>
                  forall item <- history :: item.runId == runId && item.sequence > 0 && item.usage.Some? ==>
                      item.sequence in Keys(r))
  {
    if history != [] {
      var n := |history| - 1;
      RecordedIsDistinct(history[..n], runId);
      assert history == history[..n] + [history[n]];
      var earlier := Recorded(history[..n], runId);
      if Recorded(history, runId) != earlier {
        var e := (history[n].sequence, history[n].usage.value);
        Append(earlier, [e]);
        assert Keys([e]) == {e.0} + Keys([e][1..]) == {e.0};
        assert [e][1..] == [];
      }
    }
  }

  function Total(counts: seq<int>): int {
    if counts == [] then 0 else Total(counts[..|counts| - 1]) + counts[|counts| - 1]
  }

  /** One count of every report, in order. */
  function Counts(reports: Reports, count: Usage -> int): seq<int> {
    seq(|reports|, i requires 0 <= i < |reports| => count(reports[i].1))
  }

  /** An optional count, where a report has it. */
  function OrZero(count: Option<int>): int {
    if count.Some? then count.value else 0
  }

  /** Each count shown is the total of that count over all reports; an optional one is shown
      exactly when every report has it. */
  lemma {:induction false} SumIsOfFields(reports: Reports)
    ensures var sum := Sum(reports);
            && sum.input == Total(Counts(reports, (u: Usage) => u.input))
            && sum.output == Total(Counts(reports, (u: Usage) => u.output))
            && sum.total == Total(Counts(reports, (u: Usage) => u.total))
            && (sum.cached.Some? <==> forall r <- reports :: r.1.cached.Some?)
            && (sum.cached.Some? ==> sum.cached.value == Total(Counts(reports, (u: Usage) => OrZero(u.cached))))
            && (sum.reasoning.Some? <==> forall r <- reports :: r.1.reasoning.Some?)
            && (sum.reasoning.Some? ==>
                  sum.reasoning.value == Total(Counts(reports, (u: Usage) => OrZero(u.reasoning))))
  {
    if reports != [] {
      var n := |reports| - 1;
      SumIsOfFields(reports[..n]);
      assert reports == reports[..n] + [reports[n]];
      CountsSnoc(reports, (u: Usage) => u.input);
      CountsSnoc(reports, (u: Usage) => u.output);
      CountsSnoc(reports, (u: Usage) => u.total);
      CountsSnoc(reports, (u: Usage) => OrZero(u.cached));
      CountsSnoc(reports, (u: Usage) => OrZero(u.reasoning));
    }
  }

  lemma CountsSnoc(reports: Reports, count: Usage -> int)
    requires reports != []
    ensures var n := |reports| - 1;
            Total(Counts(reports, count)) == Total(Counts(reports[..n], count)) + count(reports[n].1)
  {
    var n := |reports| - 1;
    assert Counts(reports, count)[..n] == Counts(reports[..n], count);
  }

  /** Of several reports of one sequence the first counts. */
  lemma {:induction false} FirstReportCounts(history: seq<Item>, runId: string, sequence: int, usage: Usage,
                                             later: seq<Item>)
    requires sequence > 0 && |Recorded(history, runId)| < MAX_REPORTS
    requires forall item <- history :: item.runId == runId && item.usage.Some? ==> item.sequence != sequence
    ensures (sequence, usage) in Recorded(history + [Item(runId, sequence, Some(usage))] + later, runId)
    decreases |later|
  {
    hide Recorded, Keys;
    var item := Item(runId, sequence, Some(usage));
    if later == [] {
      assert history + [item] + later == history + [item];
      RecordedIsDistinct(history, runId);
      KeysOf(Recorded(history, runId), sequence);
      RecordedNext(history, item, runId);
    } else {
      var n := |later| - 1;
      assert history + [item] + later == history + [item] + later[..n] + [later[n]];
      FirstReportCounts(history, runId, sequence, usage, later[..n]);
      RecordedNext(history + [item] + later[..n], later[n], runId);
    }
  }

  lemma RecordedNext(history: seq<Item>, item: Item, runId: string)
    ensures var earlier := Recorded(history, runId);
            Recorded(history + [item], runId)
            == if item.runId != runId || item.sequence <= 0 || item.usage.None? || item.sequence in Keys(earlier)
                  || |earlier| >= MAX_REPORTS then earlier
               else earlier + [(item.sequence, item.usage.value)]
  {
    assert (history + [item])[..|history|] == history;
  }

  lemma {:induction false} KeysOf(reports: Reports, sequence: int)
    ensures sequence in Keys(reports) ==> exists r <- reports :: r.0 == sequence
  {
    if reports != [] {
      KeysOf(reports[1..], sequence);
      assert reports == [reports[0]] + reports[1..];
    }
  }

  /** Replays do not count: a feed that is read again, as far as it had been read, leaves
      every total as it was. */
  lemma {:induction false} ReplaysCountOnce(history: seq<Item>, replay: seq<Item>, runId: string)
    requires forall item <- replay :: item in history
    ensures Recorded(history + replay, runId) == Recorded(history, runId)
  {
    if replay == [] {
      assert history + replay == history;
    } else {
      var n := |replay| - 1;
      assert (history + replay)[..|history| + n] == history + replay[..n];
      assert replay[n] in history;
      ReplaysCountOnce(history, replay[..n], runId);
      RecordedIsDistinct(history, runId);
    }
  }
}
