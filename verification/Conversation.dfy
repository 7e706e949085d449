/** apps/control-plane-client/src/conversation.ts: released run updates bound to tasks,
    and the conversation projected from messages, tasks and updates. Times are parsed
    dates; locale comparison is a rank of each string. */
module Conversation {
  import opened Wrappers
  import opened OrderedMaps
  import opened StableSort

  const MAX_SAFE_INTEGER := 0x1F_FFFF_FFFF_FFFF

  /** runId is "" for a task without a run; `authored` says that it is neither read-only
      nor the runtime's own. */
  datatype Task = Task(taskId: string, runId: string, time: int, authored: bool, input: string, inputTime: int)

  /** taskId is "" for an update that names only its run. */
  datatype Update = Update(taskId: string, runId: string, sequence: int, value: string)

  datatype Role = User | Assistant | Other

  datatype Message = Message(messageId: string, role: Role, text: string, time: int, taskId: string)

  // ----- binding updates -----

  function TaskById(tasks: seq<Task>, id: string): (t: Option<Task>)
    ensures t.Some? ==> t.value in tasks && t.value.taskId == id
  {
    if tasks == [] then None
    else
      var n := |tasks| - 1;
      if tasks[n].taskId == id then Some(tasks[n]) else TaskById(tasks[..n], id)
  }

  lemma {:induction false} TaskByIdFinds(tasks: seq<Task>, t: Task)
    requires t in tasks
    ensures TaskById(tasks, t.taskId).Some?
  {
    var n := |tasks| - 1;
    if tasks[n].taskId != t.taskId {
      TaskByIdFinds(tasks[..n], t);
    }
  }

  function OfRun(tasks: seq<Task>, runId: string): seq<Task> {
    if tasks == [] then []
    else
      var n := |tasks| - 1;
      OfRun(tasks[..n], runId) + (if tasks[n].runId == runId then [tasks[n]] else [])
  }

  lemma {:induction false} OfRunMembers(tasks: seq<Task>, runId: string)
    ensures forall t <- OfRun(tasks, runId) :: t in tasks && t.runId == runId
  {
    if tasks != [] {
      OfRunMembers(tasks[..|tasks| - 1], runId);
    }
  }

  /** The one task of a run; a run that several tasks claim has none. */
  function TaskByRun(tasks: seq<Task>, runId: string): (t: Option<Task>)
    ensures t.Some? ==> t.value in tasks && t.value.runId == runId
  {
    OfRunMembers(tasks, runId);
    if runId != "" && |OfRun(tasks, runId)| == 1 then Some(OfRun(tasks, runId)[0]) else None
  }

  /** The task an update is released to, if it may be bound at all. */
  function Owner(tasks: seq<Task>, u: Update): (t: Option<Task>)
    ensures t.Some? ==> t.value in tasks && t.value.runId == u.runId && 1 <= u.sequence <= MAX_SAFE_INTEGER
  {
    var task := if u.taskId != "" then TaskById(tasks, u.taskId) else TaskByRun(tasks, u.runId);
    if task.None? || task.value.runId == "" || u.runId != task.value.runId || !(1 <= u.sequence <= MAX_SAFE_INTEGER)
    then None else task
  }

  /** An update belongs to a task exactly when both name one run, its sequence is a positive
      safe integer, and the task is the last with the id the update names or, if it names
      none, the only one with that run. */
  lemma OwnedExactlyWhen(tasks: seq<Task>, u: Update, k: nat)
    requires k < |tasks|
    requires if u.taskId != "" then forall j :: k < j < |tasks| ==> tasks[j].taskId != tasks[k].taskId
             else forall j :: 0 <= j < |tasks| && j != k ==> tasks[j].runId != tasks[k].runId
    ensures Owner(tasks, u) == Some(tasks[k])
       <==> && u.runId != "" && u.runId == tasks[k].runId && 1 <= u.sequence <= 0x1F_FFFF_FFFF_FFFF
            && (u.taskId != "" ==> u.taskId == tasks[k].taskId)
  {
    hide TaskById, OfRun;
    if u.taskId != "" {
      LastOfId(tasks, k);
    } else {
      OnlyOfRun(tasks, k);
    }
  }

  lemma {:induction false} LastOfId(tasks: seq<Task>, k: nat)
    requires k < |tasks| && forall j :: k < j < |tasks| ==> tasks[j].taskId != tasks[k].taskId
    ensures TaskById(tasks, tasks[k].taskId) == Some(tasks[k])
  {
    if k < |tasks| - 1 {
      LastOfId(tasks[..|tasks| - 1], k);
    }
  }

  lemma {:induction false} NoneOfRun(tasks: seq<Task>, runId: string)
    requires forall t <- tasks :: t.runId != runId
    ensures OfRun(tasks, runId) == []
  {
    if tasks != [] {
      NoneOfRun(tasks[..|tasks| - 1], runId);
    }
  }

  lemma {:induction false} OnlyOfRun(tasks: seq<Task>, k: nat)
    requires k < |tasks| && forall j :: 0 <= j < |tasks| && j != k ==> tasks[j].runId != tasks[k].runId
    ensures OfRun(tasks, tasks[k].runId) == [tasks[k]]
  {
    var n := |tasks| - 1;
    if k == n {
      NoneOfRun(tasks[..n], tasks[k].runId);
    } else {
      OnlyOfRun(tasks[..n], k);
    }
  }

  /** A run that two tasks claim belongs to neither by itself. */
  lemma SharedRunsHaveNoOwner(tasks: seq<Task>, u: Update, j: nat, k: nat)
    requires j < k < |tasks| && u.taskId == "" && tasks[j].runId == u.runId == tasks[k].runId
    ensures Owner(tasks, u) == None
  {
    hide OfRun;
    assert tasks == tasks[..k] + tasks[k..];
    OfRunCounts(tasks, u.runId, j, k);
  }

  lemma {:induction false} OfRunCounts(tasks: seq<Task>, runId: string, j: nat, k: nat)
    requires j < k < |tasks| && tasks[j].runId == runId == tasks[k].runId
    ensures |OfRun(tasks, runId)| >= 2
  {
    var n := |tasks| - 1;
    if k < n {
      OfRunCounts(tasks[..n], runId, j, k);
    } else {
      OfRunHas(tasks[..n], runId, j);
    }
  }

  lemma {:induction false} OfRunHas(tasks: seq<Task>, runId: string, j: nat)
    requires j < |tasks| && tasks[j].runId == runId
    ensures |OfRun(tasks, runId)| >= 1
  {
    var n := |tasks| - 1;
    if j < n {
      OfRunHas(tasks[..n], runId, j);
    }
  }

  function Seen(accepted: seq<(string, Update)>): set<(string, int)> {
    set a <- accepted :: (a.1.runId, a.1.sequence)
  }

  /** The updates accepted, in order, each with the id of its owner. */
  function Accepted(tasks: seq<Task>, events: seq<Update>): seq<(string, Update)> {
    if events == [] then []
    else
      var n := |events| - 1;
      var earlier, owner := Accepted(tasks, events[..n]), Owner(tasks, events[n]);
      if owner.None? || (events[n].runId, events[n].sequence) in Seen(earlier) then earlier
      else earlier + [(owner.value.taskId, events[n])]
  }

  function Select(accepted: seq<(string, Update)>, id: string): seq<Update> {
    if accepted == [] then []
    else
      var n := |accepted| - 1;
      Select(accepted[..n], id) + (if accepted[n].0 == id then [accepted[n].1] else [])
  }

  predicate NotLater(a: Update, b: Update) {
    a.sequence <= b.sequence
  }

  function Bucket(tasks: seq<Task>, events: seq<Update>, id: string): seq<Update> {
    Sort(Select(Accepted(tasks, events), id), NotLater)
  }

  function TaskIds(tasks: seq<Task>): set<string> {
    set t <- tasks :: t.taskId
  }

  function Buckets(tasks: seq<Task>, accepted: seq<(string, Update)>): map<string, seq<Update>> {
    map id | id in TaskIds(tasks) :: Select(accepted, id)
  }

  lemma BucketsGrow(tasks: seq<Task>, accepted: seq<(string, Update)>, id: string, u: Update)
    requires id in TaskIds(tasks)
    ensures var b := Buckets(tasks, accepted);
            Buckets(tasks, accepted + [(id, u)]) == b[id := b[id] + [u]]
    ensures Seen(accepted + [(id, u)]) == Seen(accepted) + {(u.runId, u.sequence)}
  {
    hide Seen;
    SeenGrows(accepted, id, u);
    var after := accepted + [(id, u)];
    assert after[..|accepted|] == accepted;
    forall other | other in TaskIds(tasks)
      ensures Select(after, other) == if other == id then Select(accepted, id) + [u] else Select(accepted, other)
    {
    }
  }

  lemma SeenGrows(accepted: seq<(string, Update)>, id: string, u: Update)
    ensures Seen(accepted + [(id, u)]) == Seen(accepted) + {(u.runId, u.sequence)}
  {
  }

  method BoundRunUpdates(tasks: seq<Task>, events: seq<Update>) returns (byTask: map<string, seq<Update>>)
    ensures byTask.Keys == TaskIds(tasks)
    ensures forall id <- byTask :: byTask[id] == Bucket(tasks, events, id)
  {
    byTask := map id | id in TaskIds(tasks) :: [];
    var seen: set<(string, int)> := {};
    for i := 0 to |events|
      invariant seen == Seen(Accepted(tasks, events[..i]))
      invariant byTask == Buckets(tasks, Accepted(tasks, events[..i]))
    {
      assert events[..i + 1][..i] == events[..i];
      var u, owner := events[i], Owner(tasks, events[i]);
      if owner.None? || (u.runId, u.sequence) in seen {
        continue;
      }
      var id := owner.value.taskId;
      BucketsGrow(tasks, Accepted(tasks, events[..i]), id, u);
      seen := seen + {(u.runId, u.sequence)};
      byTask := byTask[id := byTask[id] + [u]];
    }
    assert events[..|events|] == events;
    byTask := map id | id in byTask :: Sort(byTask[id], NotLater);
  }

  ghost predicate DistinctKeys(accepted: seq<(string, Update)>) {
    forall i, j :: 0 <= i < j < |accepted| ==>
      (accepted[i].1.runId, accepted[i].1.sequence) != (accepted[j].1.runId, accepted[j].1.sequence)
  }

  lemma {:induction false} AcceptedOnce(tasks: seq<Task>, events: seq<Update>)
    ensures var a := Accepted(tasks, events);
            && DistinctKeys(a)
            && (forall x <- a :: x.1 in events && Owner(tasks, x.1).Some? && x.0 == Owner(tasks, x.1).value.taskId)
            && (forall u <- events :: Owner(tasks, u).Some? ==> (u.runId, u.sequence) in Seen(a))
  {
    if events != [] {
      var n := |events| - 1;
      var earlier := Accepted(tasks, events[..n]);
      AcceptedOnce(tasks, events[..n]);
      assert events == events[..n] + [events[n]];
      assert Seen(earlier) <= Seen(Accepted(tasks, events));
      if Owner(tasks, events[n]).Some? && (events[n].runId, events[n].sequence) !in Seen(earlier) {
        var last := (Owner(tasks, events[n]).value.taskId, events[n]);
        assert last in Accepted(tasks, events);
        forall x | x in earlier ensures (x.1.runId, x.1.sequence) != (events[n].runId, events[n].sequence) {
          assert (x.1.runId, x.1.sequence) in Seen(earlier);
        }
      }
    }
  }

  lemma {:induction false} SelectMembers(accepted: seq<(string, Update)>, id: string, u: Update)
    ensures u in Select(accepted, id) <==> (id, u) in accepted
  {
    if accepted != [] {
      var n := |accepted| - 1;
      assert accepted == accepted[..n] + [accepted[n]];
      SelectMembers(accepted[..n], id, u);
    }
  }

  /** Released updates are partitioned: what is in a bucket is an update of the run its task
      owns; no two updates in the buckets have the same run and sequence; and every update
      that has an owner is represented by one. */
  lemma BucketsPartition(tasks: seq<Task>, events: seq<Update>, id: string, other: string, u: Update, v: Update)
    ensures u in Bucket(tasks, events, id) ==>
              u in events && Owner(tasks, u).Some? && Owner(tasks, u).value.taskId == id
                  && Owner(tasks, u).value.runId == u.runId
    ensures (u in Bucket(tasks, events, id) && v in Bucket(tasks, events, other)
             && u.runId == v.runId && u.sequence == v.sequence) ==> u == v && id == other
    ensures u in events && Owner(tasks, u).Some? ==>
              exists task <- tasks, w <- events :: w in Bucket(tasks, events, task.taskId)
                && w.runId == u.runId == task.runId && w.sequence == u.sequence
  {
    var a := Accepted(tasks, events);
    AcceptedOnce(tasks, events);
    InBucket(tasks, events, id, u);
    InBucket(tasks, events, other, v);
    if u in Bucket(tasks, events, id) && v in Bucket(tasks, events, other)
       && u.runId == v.runId && u.sequence == v.sequence
    {
      var i :| 0 <= i < |a| && a[i] == (id, u);
      var j :| 0 <= j < |a| && a[j] == (other, v);
      assert i == j;
    }
    if u in events && Owner(tasks, u).Some? {
      var x :| x in a && (x.1.runId, x.1.sequence) == (u.runId, u.sequence);
      InBucket(tasks, events, x.0, x.1);
      assert Owner(tasks, x.1).value in tasks;
    }
  }

  /** Of the updates with one run and sequence the first that has an owner is released. */
  lemma {:induction false} FirstIsReleased(tasks: seq<Task>, earlier: seq<Update>, u: Update, later: seq<Update>)
    requires Owner(tasks, u).Some?
    requires forall e <- earlier :: Owner(tasks, e).Some? ==> e.runId != u.runId || e.sequence != u.sequence
    ensures u in Bucket(tasks, earlier + [u] + later, Owner(tasks, u).value.taskId)
  {
    hide Owner, Bucket;
    InBucket(tasks, earlier + [u] + later, Owner(tasks, u).value.taskId, u);
    FirstIsAccepted(tasks, earlier, u, later);
  }

  lemma {:induction false} FirstIsAccepted(tasks: seq<Task>, earlier: seq<Update>, u: Update, later: seq<Update>)
    requires Owner(tasks, u).Some?
    requires forall e <- earlier :: Owner(tasks, e).Some? ==> e.runId != u.runId || e.sequence != u.sequence
    ensures (Owner(tasks, u).value.taskId, u) in Accepted(tasks, earlier + [u] + later)
    decreases |later|
  {
    hide Owner;
    if later == [] {
      assert earlier + [u] + later == earlier + [u] && (earlier + [u])[..|earlier|] == earlier;
      AcceptedOnce(tasks, earlier);
    } else {
      var n := |later| - 1;
      assert (earlier + [u] + later)[..|earlier| + 1 + n] == earlier + [u] + later[..n];
      FirstIsAccepted(tasks, earlier, u, later[..n]);
    }
  }

  lemma InBucket(tasks: seq<Task>, events: seq<Update>, id: string, u: Update)
    ensures u in Bucket(tasks, events, id) <==> (id, u) in Accepted(tasks, events)
  {
    SortMembers(Select(Accepted(tasks, events), id), NotLater, u);
    SelectMembers(Accepted(tasks, events), id, u);
  }

  /** An update can be released to the task: by its id, which it has to itself or is the
      last to have, or by its run, which it alone has. */
  predicate CanOwn(tasks: seq<Task>, t: Task) {
    t.runId != "" && ((t.taskId != "" && TaskById(tasks, t.taskId) == Some(t)) || TaskByRun(tasks, t.runId) == Some(t))
  }

  /** The tasks of an id that can own updates have one run. */
  ghost predicate OneRun(tasks: seq<Task>, id: string) {
    forall s <- tasks, t <- tasks ::
      s.taskId == id == t.taskId && CanOwn(tasks, s) && CanOwn(tasks, t) ==> s.runId == t.runId
  }

  lemma OwnerCanOwn(tasks: seq<Task>, u: Update)
    requires Owner(tasks, u).Some?
    ensures CanOwn(tasks, Owner(tasks, u).value)
  {
  }

  /** An update that a task owns. */
  function Claim(tasks: seq<Task>, t: Task): (u: Update)
    requires t in tasks && CanOwn(tasks, t)
    ensures u.runId == t.runId && u.sequence == 1 && Owner(tasks, u) == Some(t)
  {
    if t.taskId != "" && TaskById(tasks, t.taskId) == Some(t) then Update(t.taskId, t.runId, 1, "")
    else Update("", t.runId, 1, "")
  }

  /** One run, in strictly rising order. */
  ghost predicate Rises(b: seq<Update>) {
    forall i, j :: 0 <= i < j < |b| ==> b[i].sequence < b[j].sequence && b[i].runId == b[j].runId
  }

  /** The bucket of an id holds one run in strictly rising order, whatever the updates,
      exactly when the tasks of that id that can own updates have one run. */
  lemma BucketsRise(tasks: seq<Task>, id: string)
    ensures (forall events: seq<Update> :: Rises(Bucket(tasks, events, id))) <==> OneRun(tasks, id)
  {
    hide Bucket, CanOwn, Rises;
    if OneRun(tasks, id) {
      forall events: seq<Update> ensures Rises(Bucket(tasks, events, id)) {
        BucketRises(tasks, events, id);
      }
    } else {
      var s, t :| s in tasks && t in tasks && s.taskId == id == t.taskId && CanOwn(tasks, s) && CanOwn(tasks, t)
                  && s.runId != t.runId;
      var events := [Claim(tasks, s), Claim(tasks, t)];
      RunsMix(tasks, events, id, events[0], events[1]);
    }
  }

  lemma BucketRises(tasks: seq<Task>, events: seq<Update>, id: string)
    requires OneRun(tasks, id)
    ensures Rises(Bucket(tasks, events, id))
  {
    hide CanOwn, Bucket;
    var b := Bucket(tasks, events, id);
    BucketIsSorted(tasks, events, id);
    forall i, j | 0 <= i < j < |b| ensures b[i].sequence < b[j].sequence && b[i].runId == b[j].runId {
      BucketsPartition(tasks, events, id, id, b[i], b[j]);
      BucketsPartition(tasks, events, id, id, b[j], b[i]);
      OwnerCanOwn(tasks, b[i]);
      OwnerCanOwn(tasks, b[j]);
      NoneTwice(tasks, events, id, i, j);
    }
  }

  lemma BucketIsSorted(tasks: seq<Task>, events: seq<Update>, id: string)
    ensures Sorted(Bucket(tasks, events, id), NotLater)
  {
    SortSorted(Select(Accepted(tasks, events), id), NotLater);
  }

  /** Updates of two runs whose owners have one id are both in its bucket. */
  lemma RunsMix(tasks: seq<Task>, events: seq<Update>, id: string, u: Update, v: Update)
    requires u in events && v in events && u.runId != v.runId
    requires forall e <- events :: Owner(tasks, e).Some? && Owner(tasks, e).value.taskId == id
    ensures !Rises(Bucket(tasks, events, id))
  {
    hide Owner, Accepted, Bucket, Rises;
    var x := Represented(tasks, events, id, u);
    var y := Represented(tasks, events, id, v);
    var b := Bucket(tasks, events, id);
    var i :| 0 <= i < |b| && b[i] == x;
    var j :| 0 <= j < |b| && b[j] == y;
    DoesNotRise(b, i, j);
  }

  lemma DoesNotRise(b: seq<Update>, i: nat, j: nat)
    requires i < |b| && j < |b| && b[i].runId != b[j].runId
    ensures !Rises(b)
  {
    assert i < j || j < i;
  }

  lemma Represented(tasks: seq<Task>, events: seq<Update>, id: string, u: Update) returns (x: Update)
    requires u in events && forall e <- events :: Owner(tasks, e).Some? && Owner(tasks, e).value.taskId == id
    ensures x in Bucket(tasks, events, id) && x.runId == u.runId
  {
    hide Owner, Accepted, Bucket;
    AcceptedOnce(tasks, events);
    var a := Accepted(tasks, events);
    assert (u.runId, u.sequence) in Seen(a);
    var y :| y in a && (y.1.runId, y.1.sequence) == (u.runId, u.sequence);
    InBucket(tasks, events, y.0, y.1);
    x := y.1;
  }

  lemma NoneTwice(tasks: seq<Task>, events: seq<Update>, id: string, i: nat, j: nat)
    requires i < j < |Bucket(tasks, events, id)|
    ensures Bucket(tasks, events, id)[i] != Bucket(tasks, events, id)[j]
  {
    AcceptedOnce(tasks, events);
    SelectOnce(Accepted(tasks, events), id);
    SortPermutes(Select(Accepted(tasks, events), id), NotLater);
    if Bucket(tasks, events, id)[i] == Bucket(tasks, events, id)[j] {
      TwiceAt(Bucket(tasks, events, id), i, j);
    }
  }

  lemma {:induction false} SelectOnce(accepted: seq<(string, Update)>, id: string)
    requires DistinctKeys(accepted)
    ensures forall u :: multiset(Select(accepted, id))[u] <= 1
  {
    if accepted != [] {
      var n := |accepted| - 1;
      SelectOnce(accepted[..n], id);
      SelectMembers(accepted[..n], id, accepted[n].1);
    }
  }

  /** With a task id given twice, for two runs, a bucket mixes runs and repeats sequences. */
  lemma RepeatedTaskIdsMixRuns(id: string, r: string, s: string)
    requires r != "" && s != "" && r != s
    ensures var tasks := [Task(id, r, 0, true, "", 0), Task(id, s, 0, true, "", 0)];
            Bucket(tasks, [Update("", r, 1, ""), Update("", s, 1, "")], id)
                == [Update("", r, 1, ""), Update("", s, 1, "")]
  {
    var t, o := Task(id, r, 0, true, "", 0), Task(id, s, 0, true, "", 0);
    var e, f := Update("", r, 1, ""), Update("", s, 1, "");
    OfRunOfTwo(t, o);
    AcceptedTwo([t, o], e, f);
    assert [(id, e), (id, f)][..1] == [(id, e)] && [(id, e)][..0] == [];
    assert Select([(id, e)], id) == Select([], id) + [e] == [e];
    assert Select([(id, e), (id, f)], id) == [e, f];
    assert [e, f][1..] == [f] && [f][1..] == [];
    assert Sort([f], NotLater) == [f];
  }

  lemma OfRunOfTwo(t: Task, o: Task)
    requires t.runId != o.runId
    ensures OfRun([t, o], t.runId) == [t] && OfRun([t, o], o.runId) == [o]
  {
    assert [t, o][..1] == [t] && [t][..0] == [];
    assert OfRun([t], t.runId) == OfRun([], t.runId) + [t] == [t];
    assert OfRun([t], o.runId) == OfRun([], o.runId) + [] == [];
  }

  lemma AcceptedTwo(tasks: seq<Task>, e: Update, f: Update)
    requires Owner(tasks, e).Some? && Owner(tasks, f).Some? && e.runId != f.runId
    ensures Accepted(tasks, [e, f]) == [(Owner(tasks, e).value.taskId, e), (Owner(tasks, f).value.taskId, f)]
  {
    assert [e, f][..1] == [e] && [e][..0] == [];
    assert Seen(Accepted(tasks, [])) == {};
    assert Accepted(tasks, [e]) == [] + [(Owner(tasks, e).value.taskId, e)];
  }

  // ----- the projection -----

  datatype Key = OfTask(taskId: string) | OfMessage(messageId: string)

  datatype Turn = Turn(key: Key, task: Option<Task>, messages: seq<Message>, updates: seq<Update>)

  /** What the projection takes from elsewhere: the visible output of a feed, the time it is
      shown at, and the ranks of message ids and turn keys in locale order. */
  datatype Context = Context(
    visible: seq<Update> -> string,
    outputTime: (Task, seq<Update>) -> int,
    idRank: string -> int,
    keyRank: Key -> int)

  predicate Has(messages: seq<Message>, id: string, role: Role) {
    messages != [] && ((messages[0].taskId == id && messages[0].role == role) || Has(messages[1..], id, role))
  }

  lemma {:induction false} HasMeans(messages: seq<Message>, id: string, role: Role)
    ensures Has(messages, id, role) <==> exists m <- messages :: m.taskId == id && m.role == role
  {
    if messages != [] {
      HasMeans(messages[1..], id, role);
      assert messages == [messages[0]] + messages[1..];
    }
  }

  /** The messages a task adds when none of its own says it: its input and its output. */
  function ForTask(ctx: Context, messages: seq<Message>, task: Task, updates: seq<Update>): seq<Message> {
    var input := if task.authored && !Has(messages, task.taskId, User) && task.input != ""
                 then [Message("task-input-" + task.taskId, User, task.input, task.inputTime, task.taskId)] else [];
    var output := ctx.visible(updates);
    input + (if output != "" && !Has(messages + input, task.taskId, Assistant)
             then [Message("run-output-" + task.taskId, Assistant, output, ctx.outputTime(task, updates), task.taskId)]
             else [])
  }

  /** All messages added for the first tasks, in order. */
  function Added(ctx: Context, tasks: seq<Task>, events: seq<Update>, messages: seq<Message>, n: nat): seq<Message>
    requires n <= |tasks|
  {
    if n == 0 then []
    else
      var earlier := Added(ctx, tasks, events, messages, n - 1);
      earlier + ForTask(ctx, messages + earlier, tasks[n - 1], Bucket(tasks, events, tasks[n - 1].taskId))
  }

  function GroupTime(tasks: seq<Task>, m: Message): int {
    var task := TaskById(tasks, m.taskId);
    if task.Some? then task.value.time else m.time
  }

  predicate Before(ctx: Context, tasks: seq<Task>, a: Message, b: Message) {
    var ga, gb := GroupTime(tasks, a), GroupTime(tasks, b);
    var ra, rb := if a.role.User? then 0 else 1, if b.role.User? then 0 else 1;
    ga < gb || (ga == gb && (a.time < b.time || (a.time == b.time && (ra < rb || (ra == rb &&
      ctx.idRank(a.messageId) <= ctx.idRank(b.messageId))))))
  }

  function MessageOrder(ctx: Context, tasks: seq<Task>): (Message, Message) -> bool {
    (a, b) => Before(ctx, tasks, a, b)
  }

  function Ordered(ctx: Context, tasks: seq<Task>, events: seq<Update>, messages: seq<Message>): seq<Message> {
    Sort(messages + Added(ctx, tasks, events, messages, |tasks|), MessageOrder(ctx, tasks))
  }

  lemma {:induction false} AddedIgnoresOrder(ctx: Context, tasks: seq<Task>, events: seq<Update>,
                                             messages: seq<Message>, permuted: seq<Message>, n: nat)
    requires n <= |tasks| && multiset(messages) == multiset(permuted)
    ensures Added(ctx, tasks, events, messages, n) == Added(ctx, tasks, events, permuted, n)
  {
    hide ForTask, Bucket;
    if n > 0 {
      AddedIgnoresOrder(ctx, tasks, events, messages, permuted, n - 1);
      var earlier := Added(ctx, tasks, events, messages, n - 1);
      SameMembers(messages, permuted, earlier);
      SameAdditions(ctx, messages + earlier, permuted + earlier, tasks[n - 1],
          Bucket(tasks, events, tasks[n - 1].taskId));
    }
  }

  /** A message says what a task was given, or what its released updates show, under a name
      and at a time of its own. */
  ghost predicate SpeaksFor(ctx: Context, tasks: seq<Task>, events: seq<Update>, m: Message, t: Task) {
    var updates := Bucket(tasks, events, t.taskId);
    && m.taskId == t.taskId
    && (if m.role.User? then
          t.authored && m.text == t.input && m.messageId == "task-input-" + t.taskId && m.time == t.inputTime
        else
          && m.role.Assistant? && m.text == ctx.visible(updates)
          && m.messageId == "run-output-" + t.taskId && m.time == ctx.outputTime(t, updates))
  }

  ghost predicate Spoken(ctx: Context, tasks: seq<Task>, events: seq<Update>, messages: seq<Message>, t: Task) {
    && (t.authored && t.input != "" ==> Has(messages, t.taskId, User))
    && (ctx.visible(Bucket(tasks, events, t.taskId)) != "" ==> Has(messages, t.taskId, Assistant))
  }

  lemma {:induction false} HasMore(messages: seq<Message>, more: seq<Message>, id: string, role: Role)
    ensures Has(messages + more, id, role) <==> Has(messages, id, role) || Has(more, id, role)
  {
    if messages == [] {
      assert messages + more == more;
    } else {
      assert (messages + more)[1..] == messages[1..] + more;
      HasMore(messages[1..], more, id, role);
    }
  }

  ghost predicate OnceEach(added: seq<Message>) {
    forall i, j :: 0 <= i < j < |added| ==> added[i].taskId != added[j].taskId || added[i].role != added[j].role
  }

  /** No message says what the new ones say. */
  ghost predicate NewTo(messages: seq<Message>, added: seq<Message>) {
    forall m <- added :: !Has(messages, m.taskId, m.role)
  }

  lemma ForTaskSpeaks(ctx: Context, tasks: seq<Task>, events: seq<Update>, messages: seq<Message>, t: Task)
    ensures var more := ForTask(ctx, messages, t, Bucket(tasks, events, t.taskId));
            forall m <- more :: SpeaksFor(ctx, tasks, events, m, t) && m.text != ""
  {
  }

  lemma ForTaskIsNew(ctx: Context, messages: seq<Message>, t: Task, updates: seq<Update>)
    ensures NewTo(messages, ForTask(ctx, messages, t, updates)) && OnceEach(ForTask(ctx, messages, t, updates))
  {
    var more := ForTask(ctx, messages, t, updates);
    forall m | m in more ensures !Has(messages, m.taskId, m.role) {
      if m.role.Assistant? {
        HasMore(messages, more[..|more| - 1], t.taskId, Assistant);
      }
    }
  }

  lemma ForTaskSpoken(ctx: Context, tasks: seq<Task>, events: seq<Update>, messages: seq<Message>, t: Task)
    ensures Spoken(ctx, tasks, events, messages + ForTask(ctx, messages, t, Bucket(tasks, events, t.taskId)), t)
  {
    var updates := Bucket(tasks, events, t.taskId);
    var more := ForTask(ctx, messages, t, updates);
    var input := if t.authored && !Has(messages, t.taskId, User) && t.input != ""
                 then [Message("task-input-" + t.taskId, User, t.input, t.inputTime, t.taskId)] else [];
    HasMore(messages, input, t.taskId, Assistant);
    HasMore(messages, more, t.taskId, User);
    HasMore(messages, more, t.taskId, Assistant);
    assert input != [] ==> more[0] == input[0];
    if ctx.visible(updates) != "" && !Has(messages, t.taskId, Assistant) {
      assert more[|more| - 1].role.Assistant? && more[|more| - 1].taskId == t.taskId;
    }
  }

  lemma NewToParts(messages: seq<Message>, earlier: seq<Message>, more: seq<Message>)
    ensures NewTo(messages + earlier, more) ==> NewTo(messages, more) && NewTo(earlier, more)
  {
    forall m | m in more
      ensures Has(messages + earlier, m.taskId, m.role)
         <==> Has(messages, m.taskId, m.role) || Has(earlier, m.taskId, m.role)
    {
      HasMore(messages, earlier, m.taskId, m.role);
    }
  }

  lemma OnceEachAppend(earlier: seq<Message>, more: seq<Message>)
    ensures OnceEach(earlier) && OnceEach(more) && NewTo(earlier, more) ==> OnceEach(earlier + more)
  {
    var all := earlier + more;
    if NewTo(earlier, more) {
      forall i, j | 0 <= i < |earlier| <= j < |all|
        ensures all[i].taskId != all[j].taskId || all[i].role != all[j].role
      {
        HasMeans(earlier, all[j].taskId, all[j].role);
        assert all[i] in earlier && all[j] in more;
      }
    }
  }

  lemma MoreIsNew(ctx: Context, messages: seq<Message>, earlier: seq<Message>, t: Task, updates: seq<Update>)
    ensures var more := ForTask(ctx, messages + earlier, t, updates);
            && NewTo(messages, more) && (OnceEach(earlier) ==> OnceEach(earlier + more))
  {
    var more := ForTask(ctx, messages + earlier, t, updates);
    ForTaskIsNew(ctx, messages + earlier, t, updates);
    NewToParts(messages, earlier, more);
    OnceEachAppend(earlier, more);
  }

  lemma {:induction false} AddedOnceEach(ctx: Context, tasks: seq<Task>, events: seq<Update>, messages: seq<Message>,
                                         n: nat)
    requires n <= |tasks|
    ensures OnceEach(Added(ctx, tasks, events, messages, n))
  {
    hide ForTask, Bucket;
    if n > 0 {
      AddedOnceEach(ctx, tasks, events, messages, n - 1);
      MoreIsNew(ctx, messages, Added(ctx, tasks, events, messages, n - 1), tasks[n - 1],
          Bucket(tasks, events, tasks[n - 1].taskId));
    }
  }

  ghost predicate Speaks(ctx: Context, tasks: seq<Task>, events: seq<Update>, m: Message) {
    m.text != "" && exists t <- tasks :: SpeaksFor(ctx, tasks, events, m, t)
  }

  /** One added message at a time. */
  lemma {:induction false} AddedSpeaks(ctx: Context, tasks: seq<Task>, events: seq<Update>, messages: seq<Message>,
                                       n: nat, m: Message)
    requires n <= |tasks| && m in Added(ctx, tasks, events, messages, n)
    ensures Speaks(ctx, tasks, events, m) && !Has(messages, m.taskId, m.role)
  {
    hide ForTask, Bucket, SpeaksFor, Has;
    var earlier, t := Added(ctx, tasks, events, messages, n - 1), tasks[n - 1];
    if m in earlier {
      AddedSpeaks(ctx, tasks, events, messages, n - 1, m);
    } else {
      assert t in tasks;
      ForTaskSpeaks(ctx, tasks, events, messages + earlier, t);
      MoreIsNew(ctx, messages, earlier, t, Bucket(tasks, events, t.taskId));
    }
  }

  lemma {:induction false} AddedGrows(ctx: Context, tasks: seq<Task>, events: seq<Update>, messages: seq<Message>,
                                      k: nat, n: nat)
    returns (later: seq<Message>)
    requires k <= n <= |tasks|
    ensures Added(ctx, tasks, events, messages, n) == Added(ctx, tasks, events, messages, k) + later
  {
    if k == n {
      later := [];
    } else {
      var earlier := Added(ctx, tasks, events, messages, n - 1);
      var more := ForTask(ctx, messages + earlier, tasks[n - 1], Bucket(tasks, events, tasks[n - 1].taskId));
      var up := AddedGrows(ctx, tasks, events, messages, k, n - 1);
      Associates(Added(ctx, tasks, events, messages, k), up, more);
      later := up + more;
    }
  }

  lemma Associates<T>(a: seq<T>, b: seq<T>, c: seq<T>)
    ensures a + (b + c) == a + b + c
  {
  }

  lemma SpokenOnceAdded(ctx: Context, tasks: seq<Task>, events: seq<Update>, so: seq<Message>, later: seq<Message>,
                        t: Task)
    ensures Spoken(ctx, tasks, events, so + ForTask(ctx, so, t, Bucket(tasks, events, t.taskId)) + later, t)
  {
    var now := so + ForTask(ctx, so, t, Bucket(tasks, events, t.taskId));
    ForTaskSpoken(ctx, tasks, events, so, t);
    HasMore(now, later, t.taskId, User);
    HasMore(now, later, t.taskId, Assistant);
  }

  lemma AllSpoken(ctx: Context, tasks: seq<Task>, events: seq<Update>, messages: seq<Message>, n: nat, k: nat)
    requires k < n <= |tasks|
    ensures Spoken(ctx, tasks, events, messages + Added(ctx, tasks, events, messages, n), tasks[k])
  {
    var so := messages + Added(ctx, tasks, events, messages, k);
    var later := AddedGrows(ctx, tasks, events, messages, k + 1, n);
    AddedNext(ctx, tasks, events, messages, k);
    Associates(messages, Added(ctx, tasks, events, messages, k + 1), later);
    SpokenOnceAdded(ctx, tasks, events, so, later, tasks[k]);
  }

  /** The messages added speak for tasks that no message spoke for, once for each task and
      role; and afterwards every task with something to show has a message that shows it. */
  lemma AddedSpeakForTasks(ctx: Context, tasks: seq<Task>, events: seq<Update>, messages: seq<Message>)
    ensures var added := Added(ctx, tasks, events, messages, |tasks|);
            && OnceEach(added)
            && (forall m <- added :: Speaks(ctx, tasks, events, m) && !Has(messages, m.taskId, m.role))
            && (forall t <- tasks :: Spoken(ctx, tasks, events, messages + added, t))
  {
    AddedOnceEach(ctx, tasks, events, messages, |tasks|);
    forall m | m in Added(ctx, tasks, events, messages, |tasks|)
      ensures Speaks(ctx, tasks, events, m) && !Has(messages, m.taskId, m.role)
    {
      AddedSpeaks(ctx, tasks, events, messages, |tasks|, m);
    }
    forall t | t in tasks
      ensures Spoken(ctx, tasks, events, messages + Added(ctx, tasks, events, messages, |tasks|), t)
    {
      var k :| 0 <= k < |tasks| && tasks[k] == t;
      AllSpoken(ctx, tasks, events, messages, |tasks|, k);
    }
  }

  ghost predicate SameSet(a: seq<Message>, b: seq<Message>) {
    forall m :: m in a <==> m in b
  }

  lemma SameMembers(messages: seq<Message>, permuted: seq<Message>, more: seq<Message>)
    requires multiset(messages) == multiset(permuted)
    ensures SameSet(messages + more, permuted + more)
  {
    forall m ensures m in messages <==> m in permuted {
      assert m in messages <==> m in multiset(messages);
      assert m in permuted <==> m in multiset(permuted);
    }
  }

  lemma SameAdditions(ctx: Context, messages: seq<Message>, permuted: seq<Message>, task: Task, updates: seq<Update>)
    requires SameSet(messages, permuted)
    ensures ForTask(ctx, messages, task, updates) == ForTask(ctx, permuted, task, updates)
  {
    var input := if task.authored && !Has(messages, task.taskId, User) && task.input != ""
                 then [Message("task-input-" + task.taskId, User, task.input, task.inputTime, task.taskId)] else [];
    SameHas(messages, permuted, task.taskId, User);
    SameHas(messages, permuted, task.taskId, Assistant);
    HasMore(messages, input, task.taskId, Assistant);
    HasMore(permuted, input, task.taskId, Assistant);
  }

  lemma SameHas(messages: seq<Message>, permuted: seq<Message>, id: string, role: Role)
    requires SameSet(messages, permuted)
    ensures Has(messages, id, role) == Has(permuted, id, role)
  {
    HasMeans(messages, id, role);
    HasMeans(permuted, id, role);
  }

  lemma MessageOrderIsTotal(ctx: Context, tasks: seq<Task>)
    ensures TotalPreorder(MessageOrder(ctx, tasks))
  {
    forall a, b ensures MessageOrder(ctx, tasks)(a, b) || MessageOrder(ctx, tasks)(b, a) {
      assert Before(ctx, tasks, a, b) || Before(ctx, tasks, b, a);
    }
    forall a, b, c | MessageOrder(ctx, tasks)(a, b) && MessageOrder(ctx, tasks)(b, c)
      ensures MessageOrder(ctx, tasks)(a, c)
    {
      assert Before(ctx, tasks, a, b) && Before(ctx, tasks, b, c);
      assert Before(ctx, tasks, a, c);
    }
  }

  /** The time a message is grouped by: that of the last task with its id, if there is one,
      else its own. */
  function TimeOfGroup(tasks: seq<Task>, m: Message): int {
    if TaskById(tasks, m.taskId).Some? then TaskById(tasks, m.taskId).value.time else m.time
  }

  /** Messages are shown by the time of their task, then by their own, then those of the user
      first, then by the rank of their id; and all of them are shown, each once. */
  lemma MessagesAreInOrder(ctx: Context, tasks: seq<Task>, events: seq<Update>, messages: seq<Message>, i: nat, j: nat)
    requires i < j < |Ordered(ctx, tasks, events, messages)|
    ensures var shown := Ordered(ctx, tasks, events, messages);
            var a, b := shown[i], shown[j];
            && TimeOfGroup(tasks, a) <= TimeOfGroup(tasks, b)
            && (TimeOfGroup(tasks, a) == TimeOfGroup(tasks, b) ==> a.time <= b.time)
            && (TimeOfGroup(tasks, a) == TimeOfGroup(tasks, b) && a.time == b.time ==>
                  && (b.role.User? ==> a.role.User?)
                  && ((a.role.User? <==> b.role.User?) ==> ctx.idRank(a.messageId) <= ctx.idRank(b.messageId)))
    ensures multiset(Ordered(ctx, tasks, events, messages))
         == multiset(messages + Added(ctx, tasks, events, messages, |tasks|))
  {
    hide Added, Sort, TotalPreorder;
    var all := messages + Added(ctx, tasks, events, messages, |tasks|);
    MessageOrderIsTotal(ctx, tasks);
    SortSorted(all, MessageOrder(ctx, tasks));
    SortPermutes(all, MessageOrder(ctx, tasks));
    var shown := Ordered(ctx, tasks, events, messages);
    assert Before(ctx, tasks, shown[i], shown[j]);
  }

  /** Messages that do not tie are shown in an order that does not depend on their arrival. */
  lemma OrderedIgnoresOrder(ctx: Context, tasks: seq<Task>, events: seq<Update>, messages: seq<Message>,
                            permuted: seq<Message>)
    requires multiset(messages) == multiset(permuted) && NoTies(messages, MessageOrder(ctx, tasks))
    ensures Ordered(ctx, tasks, events, messages) == Ordered(ctx, tasks, events, permuted)
  {
    hide NoTies, TotalPreorder, MessageOrder, Added, Sort;
    var leq, added := MessageOrder(ctx, tasks), Added(ctx, tasks, events, messages, |tasks|);
    AddedIgnoresOrder(ctx, tasks, events, messages, permuted, |tasks|);
    MessageOrderIsTotal(ctx, tasks);
    SortInserts(messages, added, leq);
    SortInserts(permuted, added, leq);
    PermutedInserts(messages, permuted, Sort(added, leq), leq);
  }

  /** Two messages that tie are shown side by side, in the order they arrived in. */
  lemma TiesShowArrival(ctx: Context, tasks: seq<Task>, events: seq<Update>, x: Message, y: Message, rest: seq<Message>)
    returns (i: nat)
    requires Tie(x, y, MessageOrder(ctx, tasks))
    ensures var shown, swapped := Ordered(ctx, tasks, events, [x, y] + rest),
            Ordered(ctx, tasks, events, [y, x] + rest);
            i + 2 <= |shown| && |swapped| == |shown| && shown[i..i + 2] == [x, y] && swapped[i..i + 2] == [y, x]
  {
    hide TotalPreorder, MessageOrder, Added, Sort, Tie, Insert;
    var leq, added := MessageOrder(ctx, tasks), Added(ctx, tasks, events, [x, y] + rest, |tasks|);
    assert multiset([x, y] + rest) == multiset([y, x] + rest);
    AddedIgnoresOrder(ctx, tasks, events, [x, y] + rest, [y, x] + rest, |tasks|);
    MessageOrderIsTotal(ctx, tasks);
    var s := Sort(rest + added, leq);
    i := TiesStay(x, y, s, leq);
    SortOfTwoMore(x, y, rest, added, leq);
    SortOfTwoMore(y, x, rest, added, leq);
  }

  lemma SortOfTwoMore(x: Message, y: Message, rest: seq<Message>, added: seq<Message>, leq: (Message, Message) -> bool)
    ensures Sort([x, y] + rest + added, leq) == Insert(x, Insert(y, Sort(rest + added, leq), leq), leq)
  {
    hide Insert;
    var all := [x, y] + rest + added;
    assert all[1..] == [y] + (rest + added) && all[1..][1..] == rest + added;
  }

  // ----- turns -----

  function KeyOf(m: Message): Key {
    if m.taskId != "" then OfTask(m.taskId) else OfMessage(m.messageId)
  }

  function EmptyTurn(tasks: seq<Task>, events: seq<Update>, key: Key): Turn {
    match key
    case OfTask(id) =>
      var task := TaskById(tasks, id);
      Turn(key, task, [], if task.Some? then Bucket(tasks, events, id) else [])
    case OfMessage(_) => Turn(key, None, [], [])
  }

  function WithMessage(tasks: seq<Task>, events: seq<Update>, turns: Entries<Key, Turn>, m: Message)
    : Entries<Key, Turn>
  {
    var known := Get(turns, KeyOf(m));
    var turn := if known.Some? then known.value else EmptyTurn(tasks, events, KeyOf(m));
    Put(turns, KeyOf(m), turn.(messages := turn.messages + [m]))
  }

  function Grouped(tasks: seq<Task>, events: seq<Update>, messages: seq<Message>): Entries<Key, Turn> {
    if messages == [] then []
    else WithMessage(tasks, events, Grouped(tasks, events, messages[..|messages| - 1]), messages[|messages| - 1])
  }

  function WithTask(tasks: seq<Task>, events: seq<Update>, turns: Entries<Key, Turn>, task: Task): Entries<Key, Turn> {
    var key := OfTask(task.taskId);
    if Get(turns, key).Some? then turns
    else Put(turns, key, Turn(key, Some(task), [], Bucket(tasks, events, task.taskId)))
  }

  /** The turns once the first n tasks have one. */
  function Completed(tasks: seq<Task>, events: seq<Update>, messages: seq<Message>, n: nat): Entries<Key, Turn>
    requires n <= |tasks|
  {
    if n == 0 then Grouped(tasks, events, messages)
    else WithTask(tasks, events, Completed(tasks, events, messages, n - 1), tasks[n - 1])
  }

  function OfKey(messages: seq<Message>, key: Key): seq<Message> {
    if messages == [] then []
    else
      var n := |messages| - 1;
      OfKey(messages[..n], key) + (if KeyOf(messages[n]) == key then [messages[n]] else [])
  }

  lemma {:induction false} GroupedTurns(tasks: seq<Task>, events: seq<Update>, messages: seq<Message>, key: Key)
    ensures var turns := Grouped(tasks, events, messages);
            && Unique(turns)
            && (Get(turns, key).Some? <==> OfKey(messages, key) != [])
            && (Get(turns, key).Some? ==>
                  Get(turns, key).value == EmptyTurn(tasks, events, key).(messages := OfKey(messages, key)))
  {
    if messages != [] {
      var n := |messages| - 1;
      var earlier, m := Grouped(tasks, events, messages[..n]), messages[n];
      GroupedTurns(tasks, events, messages[..n], key);
      var known := Get(earlier, KeyOf(m));
      var turn := if known.Some? then known.value else EmptyTurn(tasks, events, KeyOf(m));
      GetPut(earlier, KeyOf(m), turn.(messages := turn.messages + [m]), key);
    }
  }

  predicate Claimed(tasks: seq<Task>, key: Key) {
    key.OfTask? && TaskById(tasks, key.taskId).Some?
  }

  /** A turn holds the messages of its key, in order, and the updates released to its task. */
  ghost predicate TurnOf(tasks: seq<Task>, events: seq<Update>, messages: seq<Message>, key: Key, turn: Turn) {
    && turn.key == key && turn.messages == OfKey(messages, key)
    && (Claimed(tasks, key) ==>
          turn.updates == Bucket(tasks, events, key.taskId) && turn.task.Some? && turn.task.value.taskId == key.taskId)
    && (!Claimed(tasks, key) ==> turn.updates == [] && turn.task == None)
  }

  ghost predicate TurnMap(tasks: seq<Task>, events: seq<Update>, messages: seq<Message>, done: seq<Task>,
                          turns: Entries<Key, Turn>, key: Key)
  {
    && Unique(turns)
    && (Get(turns, key).Some? <==> OfKey(messages, key) != [] || Claimed(done, key))
    && (Get(turns, key).Some? ==> TurnOf(tasks, events, messages, key, Get(turns, key).value))
  }

  lemma TurnMapGrows(tasks: seq<Task>, events: seq<Update>, messages: seq<Message>, done: seq<Task>,
                     turns: Entries<Key, Turn>, task: Task, key: Key)
    requires task in tasks && TurnMap(tasks, events, messages, done, turns, key)
    ensures TurnMap(tasks, events, messages, done + [task], WithTask(tasks, events, turns, task), key)
  {
    hide WithTask, Bucket, OfKey, Unique, Get;
    TaskTurn(tasks, events, turns, task, key);
    TaskByIdFinds(tasks, task);
    assert (done + [task])[..|done|] == done;
  }

  lemma {:induction false} TurnsSoFar(tasks: seq<Task>, events: seq<Update>, messages: seq<Message>, n: nat, key: Key)
    requires n <= |tasks|
    ensures TurnMap(tasks, events, messages, tasks[..n], Completed(tasks, events, messages, n), key)
  {
    if n == 0 {
      GroupedTurns(tasks, events, messages, key);
    } else {
      TurnsSoFar(tasks, events, messages, n - 1, key);
      TurnMapGrows(tasks, events, messages, tasks[..n - 1], Completed(tasks, events, messages, n - 1), tasks[n - 1],
          key);
      assert tasks[..n] == tasks[..n - 1] + [tasks[n - 1]];
    }
  }

  /** Every message is in exactly one turn, in order - the turn of its key - and every task
      has exactly one turn, with its released updates; there are no other turns. */
  lemma TurnsPartition(tasks: seq<Task>, events: seq<Update>, messages: seq<Message>, key: Key)
    ensures var turns := Completed(tasks, events, messages, |tasks|);
            && Unique(turns)
            && (Get(turns, key).Some? <==>
                  (exists m <- messages :: KeyOf(m) == key) || (exists t <- tasks :: key == OfTask(t.taskId)))
            && (Get(turns, key).Some? ==> TurnOf(tasks, events, messages, key, Get(turns, key).value))
  {
    TurnsSoFar(tasks, events, messages, |tasks|, key);
    assert tasks[..|tasks|] == tasks;
    OfKeyMembers(messages, key);
    if OfKey(messages, key) != [] {
      assert OfKey(messages, key)[0] in messages;
    }
    if Claimed(tasks, key) {
      assert TaskById(tasks, key.taskId).value in tasks;
    }
    if t :| t in tasks && key == OfTask(t.taskId) {
      TaskByIdFinds(tasks, t);
    }
  }

  /** Two messages share a turn exactly when they name one task, or when neither names a task
      and they have one id. */
  lemma TogetherExactlyWhen(tasks: seq<Task>, events: seq<Update>, messages: seq<Message>, x: Message, y: Message)
    requires x in messages && y in messages
    ensures var turns := Completed(tasks, events, messages, |tasks|);
            (exists key :: Get(turns, key).Some? && x in Get(turns, key).value.messages
                           && y in Get(turns, key).value.messages)
            <==> x.taskId == y.taskId && (x.taskId == "" ==> x.messageId == y.messageId)
  {
    hide Completed, Get, OfKey;
    var turns := Completed(tasks, events, messages, |tasks|);
    forall key ensures Get(turns, key).Some? ==>
        forall m :: m in Get(turns, key).value.messages <==> m in messages && KeyOf(m) == key
    {
      TurnsPartition(tasks, events, messages, key);
      OfKeyMembers(messages, key);
    }
    TurnsPartition(tasks, events, messages, KeyOf(x));
  }

  lemma {:induction false} OfKeyMembers(messages: seq<Message>, key: Key)
    ensures forall m :: m in OfKey(messages, key) <==> m in messages && KeyOf(m) == key
  {
    if messages != [] {
      var n := |messages| - 1;
      OfKeyMembers(messages[..n], key);
      assert messages == messages[..n] + [messages[n]];
    }
  }

  lemma TaskTurn(tasks: seq<Task>, events: seq<Update>, turns: Entries<Key, Turn>, task: Task, key: Key)
    requires Unique(turns)
    ensures var after := WithTask(tasks, events, turns, task);
            && Unique(after)
            && Get(after, key) == if key == OfTask(task.taskId) && Get(turns, key).None?
                                  then Some(Turn(key, Some(task), [], Bucket(tasks, events, task.taskId)))
                                  else Get(turns, key)
  {
    var k := OfTask(task.taskId);
    if Get(turns, k).None? {
      GetPut(turns, k, Turn(k, Some(task), [], Bucket(tasks, events, task.taskId)), key);
    }
  }

  function Values<K, V>(m: Entries<K, V>): seq<V> {
    if m == [] then [] else [m[0].1] + Values(m[1..])
  }

  function Position(tasks: seq<Task>, turn: Turn): int {
    var byTask := if turn.task.Some? && TaskById(tasks, turn.task.value.taskId).Some?
                  then TaskById(tasks, turn.task.value.taskId).value.time else 0;
    if byTask != 0 then byTask else if turn.messages != [] then turn.messages[0].time else 0
  }

  function TurnOrder(ctx: Context, tasks: seq<Task>): (Turn, Turn) -> bool {
    (a, b) => Position(tasks, a) < Position(tasks, b)
              || (Position(tasks, a) == Position(tasks, b) && ctx.keyRank(a.key) <= ctx.keyRank(b.key))
  }

  datatype Projection = Projection(messages: seq<Message>, turns: seq<Turn>)

  function Project(ctx: Context, tasks: seq<Task>, events: seq<Update>, messages: seq<Message>): Projection {
    var ordered := Ordered(ctx, tasks, events, messages);
    Projection(ordered, Sort(Values(Completed(tasks, events, ordered, |tasks|)), TurnOrder(ctx, tasks)))
  }

  lemma AddedNext(ctx: Context, tasks: seq<Task>, events: seq<Update>, detail: seq<Message>, i: nat)
    requires i < |tasks|
    ensures var so := detail + Added(ctx, tasks, events, detail, i);
            detail + Added(ctx, tasks, events, detail, i + 1)
            == so + ForTask(ctx, so, tasks[i], Bucket(tasks, events, tasks[i].taskId))
  {
    var added := Added(ctx, tasks, events, detail, i);
    var more := ForTask(ctx, detail + added, tasks[i], Bucket(tasks, events, tasks[i].taskId));
    assert detail + (added + more) == detail + added + more;
  }

  method AddMessages(ctx: Context, tasks: seq<Task>, events: seq<Update>, detail: seq<Message>,
                     byTask: map<string, seq<Update>>)
    returns (messages: seq<Message>)
    requires forall t <- tasks :: t.taskId in byTask && byTask[t.taskId] == Bucket(tasks, events, t.taskId)
    ensures messages == detail + Added(ctx, tasks, events, detail, |tasks|)
  {
    messages := detail;
    for i := 0 to |tasks|
      invariant messages == detail + Added(ctx, tasks, events, detail, i)
    {
      AddedNext(ctx, tasks, events, detail, i);
      assert byTask[tasks[i].taskId] == Bucket(tasks, events, tasks[i].taskId);
      messages := messages + ForTask(ctx, messages, tasks[i], byTask[tasks[i].taskId]);
    }
  }

  method GroupTurns(tasks: seq<Task>, events: seq<Update>, messages: seq<Message>) returns (turns: Entries<Key, Turn>)
    ensures turns == Completed(tasks, events, messages, |tasks|)
  {
    turns := [];
    for i := 0 to |messages|
      invariant turns == Grouped(tasks, events, messages[..i])
    {
      assert messages[..i + 1][..i] == messages[..i];
      turns := WithMessage(tasks, events, turns, messages[i]);
    }
    assert messages[..|messages|] == messages;
    for i := 0 to |tasks|
      invariant turns == Completed(tasks, events, messages, i)
    {
      turns := WithTask(tasks, events, turns, tasks[i]);
    }
  }

  method ConversationProjection(ctx: Context, tasks: seq<Task>, events: seq<Update>, detail: seq<Message>)
    returns (p: Projection, byTask: map<string, seq<Update>>)
    ensures p == Project(ctx, tasks, events, detail)
    ensures byTask.Keys == TaskIds(tasks) && forall id <- byTask :: byTask[id] == Bucket(tasks, events, id)
  {
    byTask := BoundRunUpdates(tasks, events);
    assert forall t <- tasks :: t.taskId in byTask;
    var messages := AddMessages(ctx, tasks, events, detail, byTask);
    messages := Sort(messages, MessageOrder(ctx, tasks));
    var turns := GroupTurns(tasks, events, messages);
    p := Projection(messages, Sort(Values(turns), TurnOrder(ctx, tasks)));
  }

  /** Receiving the messages in any other order gives the same conversation: the same
      messages, and the same turns in the same order. */
  ghost predicate IgnoresArrival(ctx: Context, tasks: seq<Task>, events: seq<Update>, messages: seq<Message>) {
    forall permuted: seq<Message> | multiset(permuted) == multiset(messages) ::
      Project(ctx, tasks, events, permuted) == Project(ctx, tasks, events, messages)
  }

  /** That is so exactly when no two different messages received tie. */
  lemma ProjectionIgnoresOrder(ctx: Context, tasks: seq<Task>, events: seq<Update>, messages: seq<Message>)
    ensures IgnoresArrival(ctx, tasks, events, messages) <==> NoTies(messages, MessageOrder(ctx, tasks))
  {
    hide Ordered, Completed;
    if NoTies(messages, MessageOrder(ctx, tasks)) {
      forall permuted: seq<Message> | multiset(permuted) == multiset(messages)
        ensures Project(ctx, tasks, events, permuted) == Project(ctx, tasks, events, messages)
      {
        OrderedIgnoresOrder(ctx, tasks, events, messages, permuted);
      }
    } else {
      var x, y :| x in messages && y in messages && Tie(x, y, MessageOrder(ctx, tasks)) && x != y;
      var rest := Without(messages, x, y);
      var i := TiesShowArrival(ctx, tasks, events, x, y, rest);
      assert Project(ctx, tasks, events, [x, y] + rest).messages != Project(ctx, tasks, events, [y, x] + rest).messages;
    }
  }

  lemma Without(messages: seq<Message>, x: Message, y: Message) returns (rest: seq<Message>)
    requires x in messages && y in messages && x != y
    ensures multiset([x, y] + rest) == multiset(messages) == multiset([y, x] + rest)
  {
    var u, v := Around(messages, x);
    assert messages == u + [x] + v && y in u + v;
    var a, b := Around(u + v, y);
    rest := a + b;
  }

  lemma {:induction false} ValuesMembers(turns: Entries<Key, Turn>, turn: Turn)
    requires Unique(turns)
    ensures turn in Values(turns) ==> exists key :: Get(turns, key) == Some(turn)
    ensures forall key :: Get(turns, key) == Some(turn) ==> turn in Values(turns)
  {
    if turns != [] {
      ValuesMembers(turns[1..], turn);
      if turn in Values(turns) {
        if turns[0].1 == turn {
          assert Get(turns, turns[0].0) == Some(turn);
        } else {
          var key :| Get(turns[1..], key) == Some(turn);
          assert Get(turns, key) == Some(turn);
        }
      }
    }
  }

  /** The turns shown are those of the partition, each once, in their order. */
  lemma ShownTurns(ctx: Context, tasks: seq<Task>, events: seq<Update>, messages: seq<Message>, turn: Turn)
    ensures var p := Project(ctx, tasks, events, messages);
            var turns := Completed(tasks, events, p.messages, |tasks|);
            && Sorted(p.turns, TurnOrder(ctx, tasks))
            && multiset(p.turns) == multiset(Values(turns))
            && (turn in p.turns <==> Get(turns, turn.key) == Some(turn))
  {
    var p := Project(ctx, tasks, events, messages);
    var turns := Completed(tasks, events, p.messages, |tasks|);
    var values := Values(turns);
    TurnOrderIsTotal(ctx, tasks);
    SortSorted(values, TurnOrder(ctx, tasks));
    SortPermutes(values, TurnOrder(ctx, tasks));
    SortMembers(values, TurnOrder(ctx, tasks), turn);
    TurnsPartition(tasks, events, p.messages, turn.key);
    ValuesMembers(turns, turn);
    if turn in values {
      var key :| Get(turns, key) == Some(turn);
      TurnsPartition(tasks, events, p.messages, key);
    }
  }

  lemma TurnOrderIsTotal(ctx: Context, tasks: seq<Task>)
    ensures TotalPreorder(TurnOrder(ctx, tasks))
  {
  }

  /** Where a turn stands: at the time of its task, unless that is unknown, else at that of
      its first message. */
  function Standing(tasks: seq<Task>, turn: Turn): int {
    var task := if turn.task.Some? then TaskById(tasks, turn.task.value.taskId) else None;
    if task.Some? && task.value.time != 0 then task.value.time
    else if turn.messages != [] then turn.messages[0].time
    else 0
  }

  /** Turns are shown by their standing, then by the rank of their key. */
  lemma TurnsAreInOrder(ctx: Context, tasks: seq<Task>, events: seq<Update>, messages: seq<Message>, i: nat, j: nat)
    requires i < j < |Project(ctx, tasks, events, messages).turns|
    ensures var turns := Project(ctx, tasks, events, messages).turns;
            && Standing(tasks, turns[i]) <= Standing(tasks, turns[j])
            && (Standing(tasks, turns[i]) == Standing(tasks, turns[j]) ==>
                  ctx.keyRank(turns[i].key) <= ctx.keyRank(turns[j].key))
  {
    hide Ordered, Completed, TurnOf, OfKey, Get;
    var turns := Project(ctx, tasks, events, messages).turns;
    ShownTurns(ctx, tasks, events, messages, turns[i]);
    OrderOfTurns(ctx, tasks, turns[i], turns[j]);
  }

  lemma OrderOfTurns(ctx: Context, tasks: seq<Task>, a: Turn, b: Turn)
    ensures TurnOrder(ctx, tasks)(a, b)
       <==> || Standing(tasks, a) < Standing(tasks, b)
            || (Standing(tasks, a) == Standing(tasks, b) && ctx.keyRank(a.key) <= ctx.keyRank(b.key))
  {
  }
}
