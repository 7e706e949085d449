/** The Desktop queue of follow-up messages (apps/desktop/src/message-queue.ts) and the
    protocol that delivers it (apps/desktop/src/App.tsx). One list interleaves the queues
    of all threads. Between two awaits the protocol takes one step. */
module MessageQueue {
  import opened Wrappers

  const MAX_QUEUED_MESSAGES_PER_THREAD: nat := 8
  const MAX_QUEUED_MESSAGES_TOTAL: nat := 32

  datatype Thread = Thread(targetId: string, sessionId: string)

  /** Everything a submission sends besides its idempotency key. */
  datatype Payload = Payload(prompt: string, executionPrompt: Option<string>, options: string)

  datatype Failure = Failure(code: string, outcomeUnknown: bool)
  datatype MessageState = Pending | Sending | Failed

  datatype Message = Message(id: string, key: string, thread: Thread, payload: Payload,
                             state: MessageState, error: Option<Failure>)

  datatype Placement = Next | Last
  datatype Refusal = ThreadFull | QueueFull

  // ----- the list -----

  function ForThread(messages: seq<Message>, thread: Thread): (r: seq<Message>)
    ensures |r| <= |messages|
  {
    if messages == [] then []
    else if messages[0].thread == thread then [messages[0]] + ForThread(messages[1..], thread)
    else ForThread(messages[1..], thread)
  }

  function FirstOf(messages: seq<Message>, thread: Thread): (i: nat)
    ensures i <= |messages|
    ensures forall j :: 0 <= j < i ==> messages[j].thread != thread
    ensures i < |messages| ==> messages[i].thread == thread
  {
    if messages == [] || messages[0].thread == thread then 0 else 1 + FirstOf(messages[1..], thread)
  }

  function InsertionPoint(messages: seq<Message>, thread: Thread, placement: Placement): (i: nat)
    ensures i <= |messages|
  {
    if placement.Last? then |messages| else FirstOf(messages, thread)
  }

  function Enqueue(messages: seq<Message>, m: Message, placement: Placement): Result<seq<Message>, Refusal> {
    if |ForThread(messages, m.thread)| >= MAX_QUEUED_MESSAGES_PER_THREAD then Err(ThreadFull)
    else if |messages| >= MAX_QUEUED_MESSAGES_TOTAL then Err(QueueFull)
    else
      var i := InsertionPoint(messages, m.thread, placement);
      Ok(messages[..i] + [m] + messages[i..])
  }

  function UpdateMessage(messages: seq<Message>, id: string, f: Message -> Message): (r: seq<Message>)
    ensures |r| == |messages|
    ensures forall i :: 0 <= i < |messages| ==> r[i] == if messages[i].id == id then f(messages[i]) else messages[i]
  {
    seq(|messages|, i requires 0 <= i < |messages| => if messages[i].id == id then f(messages[i]) else messages[i])
  }

  function Remove(messages: seq<Message>, id: string): (r: seq<Message>)
    ensures forall m :: m in r <==> m in messages && m.id != id
    ensures |r| <= |messages|
  {
    if messages == [] then []
    else if messages[0].id != id then [messages[0]] + Remove(messages[1..], id)
    else Remove(messages[1..], id)
  }

  function NextPending(messages: seq<Message>, thread: Thread): (r: Option<Message>)
    ensures r.Some? ==> r.value in messages && r.value.thread == thread && r.value.state.Pending?
  {
    if messages == [] then None
    else if messages[0].thread == thread && messages[0].state.Pending? then Some(messages[0])
    else NextPending(messages[1..], thread)
  }

  // ----- one list, many queues -----

  lemma {:induction false} ForThreadAppend(a: seq<Message>, b: seq<Message>, thread: Thread)
    ensures ForThread(a + b, thread) == ForThread(a, thread) + ForThread(b, thread)
  {
    if a == [] {
      assert a + b == b;
    } else {
      assert (a + b)[1..] == a[1..] + b;
      ForThreadAppend(a[1..], b, thread);
    }
  }

  lemma {:induction false} NoneOfThread(messages: seq<Message>, thread: Thread)
    requires forall i :: 0 <= i < |messages| ==> messages[i].thread != thread
    ensures ForThread(messages, thread) == []
  {
    if messages != [] {
      NoneOfThread(messages[1..], thread);
    }
  }

  /** A message put between two parts of the list. */
  lemma InsertRefines(front: seq<Message>, m: Message, back: seq<Message>, thread: Thread)
    ensures ForThread(front + [m] + back, thread)
         == ForThread(front, thread) + (if thread == m.thread then [m] else []) + ForThread(back, thread)
    ensures ForThread(front + back, thread) == ForThread(front, thread) + ForThread(back, thread)
  {
    ForThreadAppend(front, back, thread);
    ForThreadAppend(front + [m], back, thread);
    ForThreadAppend(front, [m], thread);
    assert [m][1..] == [] && ForThread([m], thread) == (if thread == m.thread then [m] else []);
  }

  /** Enqueueing refines the queue of the message's own thread, at its front or its back,
      and no other; it is refused exactly when that queue or the whole list is full. */
  lemma EnqueueRefines(messages: seq<Message>, m: Message, placement: Placement, thread: Thread)
    ensures var own := ForThread(messages, m.thread);
            match Enqueue(messages, m, placement)
            case Err(ThreadFull) => |own| >= MAX_QUEUED_MESSAGES_PER_THREAD
            case Err(QueueFull) => |own| < MAX_QUEUED_MESSAGES_PER_THREAD && |messages| >= MAX_QUEUED_MESSAGES_TOTAL
            case Ok(r) =>
              && |own| < MAX_QUEUED_MESSAGES_PER_THREAD && |messages| < MAX_QUEUED_MESSAGES_TOTAL
              && |r| == |messages| + 1
              && ForThread(r, thread) == (if thread != m.thread then ForThread(messages, thread)
                                          else if placement.Last? then own + [m] else [m] + own)
  {
    InsertionRefines(messages, m, placement, thread);
  }

  lemma InsertionRefines(messages: seq<Message>, m: Message, placement: Placement, thread: Thread)
    ensures var i, own := InsertionPoint(messages, m.thread, placement), ForThread(messages, thread);
            ForThread(messages[..i] + [m] + messages[i..], thread)
            == if thread != m.thread then own else if placement.Last? then own + [m] else [m] + own
  {
    var i := InsertionPoint(messages, m.thread, placement);
    var front, back := messages[..i], messages[i..];
    assert messages == front + back;
    InsertRefines(front, m, back, thread);
    if thread == m.thread && placement.Last? {
      assert back == [] && ForThread(back, thread) == [];
    } else if thread == m.thread {
      NoneOfThread(front, thread);
    }
    EmptyParts(ForThread(front, thread), [m], ForThread(back, thread));
  }

  lemma EmptyParts<T>(a: seq<T>, x: seq<T>, b: seq<T>)
    ensures a + [] + b == a + b
    ensures b == [] ==> a + x + b == a + b + x
    ensures a == [] ==> a + x + b == x + (a + b)
  {
  }

  /** Removing and updating act on each thread's queue by itself. */
  lemma {:induction false} RemoveRefines(messages: seq<Message>, id: string, thread: Thread)
    ensures ForThread(Remove(messages, id), thread) == Remove(ForThread(messages, thread), id)
  {
    if messages != [] {
      RemoveRefines(messages[1..], id, thread);
      if messages[0].id != id {
        assert Remove(messages, id)[1..] == Remove(messages[1..], id);
      }
      if messages[0].thread == thread {
        assert ForThread(messages, thread)[1..] == ForThread(messages[1..], thread);
      }
    }
  }

  lemma {:induction false} UpdateRefines(messages: seq<Message>, id: string, f: Message -> Message, thread: Thread)
    requires forall m :: f(m).thread == m.thread
    ensures ForThread(UpdateMessage(messages, id, f), thread) == UpdateMessage(ForThread(messages, thread), id, f)
  {
    if messages != [] {
      assert UpdateMessage(messages, id, f)[1..] == UpdateMessage(messages[1..], id, f);
      UpdateRefines(messages[1..], id, f, thread);
    }
  }

  /** The next message of a thread is the first pending one of its own queue. */
  lemma {:induction false} NextIsOfOwnQueue(messages: seq<Message>, thread: Thread)
    ensures NextPending(messages, thread) == NextPending(ForThread(messages, thread), thread)
  {
    if messages != [] {
      NextIsOfOwnQueue(messages[1..], thread);
      if messages[0].thread == thread {
        assert ForThread(messages, thread)[1..] == ForThread(messages[1..], thread);
      }
    }
  }

  // ----- the delivery protocol -----

  datatype SubmissionResult = Accepted | Rejected(error: Failure) | Stale

  /** issued and known are all idempotency keys and message ids handed out; submitted are
      the requests sent, in order. */
  datatype QueueState = QueueState(queue: seq<Message>, delivering: Option<string>,
                                   submitted: seq<(string, Payload)>, issued: set<string>, known: set<string>)

  const EMPTY := QueueState([], None, [], {}, {})

  datatype Action =
    | EnqueueNew(id: string, key: string, thread: Thread, payload: Payload, placement: Placement)
    | Deliver(thread: Thread, sent: bool)  // sent: the request left before the route went stale
    | Finish(result: SubmissionResult)
    | EditPrompt(id: string, payload: Payload, key: string)
    | Delete(id: string)
    | Retry(id: string)

  /** Ids and keys are new random ones. */
  predicate FreshNames(s: QueueState, a: Action) {
    match a
    case EnqueueNew(id, key, _, _, _) => id !in s.known && key !in s.issued
    case EditPrompt(_, _, key) => key !in s.issued
    case _ => true
  }

  function Edited(payload: Payload, key: string): Message -> Message {
    (m: Message) => if m.state.Sending? || (m.error.Some? && m.error.value.outcomeUnknown) then m
                    else m.(payload := payload, key := key, state := Pending, error := None)
  }

  function WithState(state: MessageState, error: Option<Failure>): Message -> Message {
    (m: Message) => m.(state := state, error := error)
  }

  function Retried(): Message -> Message {
    (m: Message) => if m.state.Failed? then m.(state := Pending, error := None) else m
  }

  function Step(s: QueueState, a: Action): QueueState {
    match a
    case EnqueueNew(id, key, thread, payload, placement) =>
      (match Enqueue(s.queue, Message(id, key, thread, payload, Pending, None), placement)
       case Err(_) => s
       case Ok(queue) => s.(queue := queue, issued := s.issued + {key}, known := s.known + {id}))
    case Deliver(thread, sent) =>
      var next := NextPending(s.queue, thread);
      if s.delivering.Some? || next.None? then s
      else
        var m := next.value;
        s.(delivering := Some(m.id), queue := UpdateMessage(s.queue, m.id, WithState(Sending, None)),
           submitted := s.submitted + if sent then [(m.key, m.payload)] else [])
    case Finish(result) =>
      if s.delivering.None? then s
      else
        var id := s.delivering.value;
        s.(delivering := None,
           queue := match result
             case Accepted => Remove(s.queue, id)
             case Rejected(error) => UpdateMessage(s.queue, id, WithState(MessageState.Failed, Some(error)))
             case Stale => UpdateMessage(s.queue, id, WithState(Pending, None)))
    case EditPrompt(id, payload, key) =>
      s.(queue := UpdateMessage(s.queue, id, Edited(payload, key)), issued := s.issued + {key})
    case Delete(id) =>
      if exists m <- s.queue :: m.id == id && m.state.Sending? then s else s.(queue := Remove(s.queue, id))
    case Retry(id) => s.(queue := UpdateMessage(s.queue, id, Retried()))
  }

  // ----- invariants -----

  ghost predicate Named(s: QueueState) {
    && (forall m <- s.queue :: m.id in s.known && m.key in s.issued)
    && (forall e <- s.submitted :: e.0 in s.issued)
    && DistinctNames(s.queue)
  }

  ghost predicate DistinctNames(messages: seq<Message>) {
    forall i, j :: 0 <= i < j < |messages| ==> messages[i].id != messages[j].id && messages[i].key != messages[j].key
  }

  /** One idempotency key, one payload: among the requests sent, and between them and the
      messages that could be sent under the same key. */
  ghost predicate KeysArePayloads(s: QueueState) {
    && (forall e <- s.submitted, f <- s.submitted :: e.0 == f.0 ==> e.1 == f.1)
    && (forall e <- s.submitted, m <- s.queue :: e.0 == m.key ==> e.1 == m.payload)
  }

  /** The message being delivered, and no other, is marked as sending. */
  ghost predicate OneSending(s: QueueState) {
    && (forall m <- s.queue :: m.state.Sending? <==> s.delivering == Some(m.id))
    && (s.delivering.Some? ==> exists m <- s.queue :: m.id == s.delivering.value)
  }

  ghost predicate WithinCaps(s: QueueState) {
    && |s.queue| <= MAX_QUEUED_MESSAGES_TOTAL
    && forall thread :: |ForThread(s.queue, thread)| <= MAX_QUEUED_MESSAGES_PER_THREAD
  }

  ghost predicate Inv(s: QueueState) {
    Named(s) && KeysArePayloads(s) && OneSending(s) && WithinCaps(s)
  }

  lemma InsertMembers(messages: seq<Message>, i: nat, m: Message)
    requires i <= |messages|
    ensures forall x :: x in messages[..i] + [m] + messages[i..] <==> x == m || x in messages
  {
    assert messages == messages[..i] + messages[i..];
  }

  lemma InsertKeepsDistinct(messages: seq<Message>, i: nat, m: Message)
    requires DistinctNames(messages) && i <= |messages|
    requires forall x <- messages :: x.id != m.id && x.key != m.key
    ensures DistinctNames(messages[..i] + [m] + messages[i..])
  {
  }

  lemma InsertKeepsNames(s: QueueState, i: nat, m: Message)
    requires Named(s) && KeysArePayloads(s) && OneSending(s)
    requires i <= |s.queue| && m.id !in s.known && m.key !in s.issued && m.state.Pending?
    ensures var r := s.(queue := s.queue[..i] + [m] + s.queue[i..], issued := s.issued + {m.key},
            known := s.known + {m.id});
            Named(r) && KeysArePayloads(r) && OneSending(r)
  {
    InsertMembers(s.queue, i, m);
    InsertKeepsDistinct(s.queue, i, m);
    if s.delivering.Some? {
      var x :| x in s.queue && x.id == s.delivering.value;
      assert x in s.queue[..i] + [m] + s.queue[i..];
    }
  }

  lemma EnqueueKeeps(s: QueueState, a: Action)
    requires Inv(s) && a.EnqueueNew? && FreshNames(s, a)
    ensures Inv(Step(s, a))
  {
    var m := Message(a.id, a.key, a.thread, a.payload, Pending, None);
    match Enqueue(s.queue, m, a.placement) {
      case Err(_) =>
      case Ok(queue) =>
        InsertKeepsNames(s, InsertionPoint(s.queue, a.thread, a.placement), m);
        EnqueueRefines(s.queue, m, a.placement, a.thread);
        forall thread ensures |ForThread(queue, thread)| <= MAX_QUEUED_MESSAGES_PER_THREAD {
          EnqueueRefines(s.queue, m, a.placement, thread);
        }
    }
  }

  lemma UpdateKeepsCaps(s: QueueState, id: string, f: Message -> Message)
    requires WithinCaps(s) && forall m :: f(m).thread == m.thread
    ensures WithinCaps(s.(queue := UpdateMessage(s.queue, id, f)))
  {
    forall thread ensures |ForThread(UpdateMessage(s.queue, id, f), thread)| <= MAX_QUEUED_MESSAGES_PER_THREAD {
      UpdateRefines(s.queue, id, f, thread);
    }
  }

  /** A change of state alone. */
  ghost predicate KeepsContent(f: Message -> Message) {
    forall m :: f(m).id == m.id && f(m).key == m.key && f(m).thread == m.thread && f(m).payload == m.payload
  }

  lemma UpdateKeepsNames(s: QueueState, id: string, f: Message -> Message)
    requires Named(s) && KeysArePayloads(s) && WithinCaps(s) && KeepsContent(f)
    ensures var r := s.(queue := UpdateMessage(s.queue, id, f));
            Named(r) && KeysArePayloads(r) && WithinCaps(r)
  {
    var r := s.(queue := UpdateMessage(s.queue, id, f));
    UpdateKeepsCaps(s, id, f);
    forall i | 0 <= i < |r.queue|
      ensures r.queue[i].id == s.queue[i].id && r.queue[i].key == s.queue[i].key
              && r.queue[i].payload == s.queue[i].payload
    {
    }
    forall m | m in r.queue ensures exists o <- s.queue :: o.id == m.id && o.key == m.key && o.payload == m.payload {
      var i :| 0 <= i < |r.queue| && r.queue[i] == m;
      assert s.queue[i] in s.queue;
    }
  }

  lemma EditKeepsNames(s: QueueState, id: string, payload: Payload, key: string)
    requires Named(s) && KeysArePayloads(s) && WithinCaps(s) && key !in s.issued
    ensures var r := s.(queue := UpdateMessage(s.queue, id, Edited(payload, key)), issued := s.issued + {key});
            Named(r) && KeysArePayloads(r) && WithinCaps(r)
  {
    var r := s.(queue := UpdateMessage(s.queue, id, Edited(payload, key)), issued := s.issued + {key});
    UpdateKeepsCaps(s, id, Edited(payload, key));
    forall i | 0 <= i < |r.queue|
      ensures r.queue[i].id == s.queue[i].id
      ensures r.queue[i] == s.queue[i] || (r.queue[i].key == key && s.queue[i].id == id)
    {
    }
    forall m | m in r.queue ensures m in s.queue || (m.key == key && exists o <- s.queue :: o.id == m.id) {
      var i :| 0 <= i < |r.queue| && r.queue[i] == m;
      assert s.queue[i] in s.queue;
    }
    forall i, j | 0 <= i < j < |r.queue| ensures r.queue[i].id != r.queue[j].id && r.queue[i].key != r.queue[j].key {
      assert s.queue[i] in s.queue && s.queue[j] in s.queue;
    }
  }

  lemma {:induction false} RemoveKeepsDistinct(messages: seq<Message>, id: string)
    requires DistinctNames(messages)
    ensures DistinctNames(Remove(messages, id))
  {
    if messages != [] {
      var later, r := Remove(messages[1..], id), Remove(messages, id);
      RemoveKeepsDistinct(messages[1..], id);
      if messages[0].id == id {
        assert r == later;
      } else {
        assert r == [messages[0]] + later;
        forall j | 0 <= j < |later| ensures later[j].id != messages[0].id && later[j].key != messages[0].key {
          assert later[j] in messages[1..];
        }
      }
    }
  }

  lemma RemoveKeepsNames(s: QueueState, id: string)
    requires Named(s) && KeysArePayloads(s) && WithinCaps(s)
    ensures var r := s.(queue := Remove(s.queue, id));
            Named(r) && KeysArePayloads(r) && WithinCaps(r)
  {
    RemoveKeepsDistinct(s.queue, id);
    forall thread ensures |ForThread(Remove(s.queue, id), thread)| <= MAX_QUEUED_MESSAGES_PER_THREAD {
      RemoveRefines(s.queue, id, thread);
    }
  }

  /** What becomes of the message with an id, and of the others. */
  lemma Updated(s: QueueState, id: string, f: Message -> Message, m: Message)
    requires m in UpdateMessage(s.queue, id, f)
    ensures exists o <- s.queue :: m == if o.id == id then f(o) else o
  {
    var i :| 0 <= i < |s.queue| && UpdateMessage(s.queue, id, f)[i] == m;
    assert s.queue[i] in s.queue;
  }

  lemma UpdatesAll(s: QueueState, id: string, f: Message -> Message, o: Message)
    requires o in s.queue
    ensures (if o.id == id then f(o) else o) in UpdateMessage(s.queue, id, f)
  {
    var i :| 0 <= i < |s.queue| && s.queue[i] == o;
    assert UpdateMessage(s.queue, id, f)[i] in UpdateMessage(s.queue, id, f);
  }

  lemma DeliverKeeps(s: QueueState, a: Action)
    requires Inv(s) && a.Deliver?
    ensures Inv(Step(s, a))
  {
    hide ForThread, KeysArePayloads, UpdateMessage, DistinctNames;
    var next := NextPending(s.queue, a.thread);
    if s.delivering.None? && next.Some? {
      var m := next.value;
      var r := s.(queue := UpdateMessage(s.queue, m.id, WithState(Sending, None)));
      UpdateKeepsNames(s, m.id, WithState(Sending, None));
      NowSending(s, m);
      forall x | x in r.queue && x.key == m.key ensures x.payload == m.payload {
        SameKeySamePayload(s.queue, m, x);
      }
      RequestKeeps(s, r, m, if a.sent then [(m.key, m.payload)] else []);
    }
  }

  lemma SameKeySamePayload(messages: seq<Message>, m: Message, x: Message)
    requires DistinctNames(messages) && m in messages
    requires x in UpdateMessage(messages, m.id, WithState(Sending, None)) && x.key == m.key
    ensures x.payload == m.payload
  {
    var i :| 0 <= i < |messages| && UpdateMessage(messages, m.id, WithState(Sending, None))[i] == x;
    var j :| 0 <= j < |messages| && messages[j] == m;
  }

  lemma RequestKeeps(s: QueueState, r: QueueState, m: Message, sent: seq<(string, Payload)>)
    requires Named(s) && KeysArePayloads(s) && m in s.queue && (sent == [] || sent == [(m.key, m.payload)])
    requires Named(r) && KeysArePayloads(r) && r.submitted == s.submitted && r.issued == s.issued
    requires forall x <- r.queue :: x.key == m.key ==> x.payload == m.payload
    ensures var q := r.(delivering := Some(m.id), submitted := r.submitted + sent);
            Named(q) && KeysArePayloads(q)
  {
    hide DistinctNames;
  }

  lemma NowSending(s: QueueState, m: Message)
    requires OneSending(s) && s.delivering.None? && m in s.queue
    ensures OneSending(s.(delivering := Some(m.id), queue := UpdateMessage(s.queue, m.id, WithState(Sending, None))))
  {
    hide UpdateMessage;
    var f := WithState(Sending, None);
    forall x | x in UpdateMessage(s.queue, m.id, f) ensures x.state.Sending? <==> x.id == m.id {
      Updated(s, m.id, f, x);
    }
    UpdatesAll(s, m.id, f, m);
  }

  lemma FinishKeeps(s: QueueState, a: Action)
    requires Inv(s) && a.Finish?
    ensures Inv(Step(s, a))
  {
    if s.delivering.Some? {
      var id, r := s.delivering.value, Step(s, a);
      match a.result {
        case Accepted =>
          RemoveKeepsNames(s, id);
        case Rejected(error) =>
          UpdateKeepsNames(s, id, WithState(MessageState.Failed, Some(error)));
          forall x | x in r.queue ensures !x.state.Sending? {
            Updated(s, id, WithState(MessageState.Failed, Some(error)), x);
          }
        case Stale =>
          UpdateKeepsNames(s, id, WithState(Pending, None));
          forall x | x in r.queue ensures !x.state.Sending? {
            Updated(s, id, WithState(Pending, None), x);
          }
      }
    }
  }

  /** A change by the user never touches the message being sent. */
  lemma UserUpdateKeepsSending(s: QueueState, id: string, f: Message -> Message)
    requires OneSending(s)
    requires forall m ::
               f(m).id == m.id && (m.state.Sending? ==> f(m) == m) && (!m.state.Sending? ==> !f(m).state.Sending?)
    ensures OneSending(s.(queue := UpdateMessage(s.queue, id, f)))
  {
    forall x | x in UpdateMessage(s.queue, id, f) ensures x.state.Sending? <==> s.delivering == Some(x.id) {
      Updated(s, id, f, x);
    }
    if s.delivering.Some? {
      var o :| o in s.queue && o.id == s.delivering.value;
      UpdatesAll(s, id, f, o);
    }
  }

  lemma UserKeeps(s: QueueState, a: Action)
    requires Inv(s) && (a.EditPrompt? || a.Delete? || a.Retry?) && FreshNames(s, a)
    ensures Inv(Step(s, a))
  {
    match a {
      case EditPrompt(id, payload, key) =>
        EditKeepsNames(s, id, payload, key);
        UserUpdateKeepsSending(s, id, Edited(payload, key));
      case Delete(id) =>
        RemoveKeepsNames(s, id);
      case Retry(id) =>
        UpdateKeepsNames(s, id, Retried());
        UserUpdateKeepsSending(s, id, Retried());
    }
  }

  lemma StepKeepsInv(s: QueueState, a: Action)
    requires Inv(s) && FreshNames(s, a)
    ensures Inv(Step(s, a))
  {
    match a {
      case EnqueueNew(_, _, _, _, _) => EnqueueKeeps(s, a);
      case Deliver(_, _) => DeliverKeeps(s, a);
      case Finish(_) => FinishKeeps(s, a);
      case _ => UserKeeps(s, a);
    }
  }

  // ----- what becomes of a message -----

  /** The first pending message of a thread, by its place. */
  lemma {:induction false} NextIsTheFirst(messages: seq<Message>, thread: Thread, i: nat)
    requires i < |messages| && messages[i].thread == thread && messages[i].state.Pending?
    requires forall j :: 0 <= j < i ==> !(messages[j].thread == thread && messages[j].state.Pending?)
    ensures NextPending(messages, thread) == Some(messages[i])
  {
    if i > 0 {
      NextIsTheFirst(messages[1..], thread, i - 1);
    }
  }

  lemma {:induction false} NextUnlessNone(messages: seq<Message>, thread: Thread)
    ensures NextPending(messages, thread).None?
       <==> forall m <- messages :: m.thread != thread || !m.state.Pending?
  {
    if messages != [] {
      NextUnlessNone(messages[1..], thread);
      assert messages == [messages[0]] + messages[1..];
    }
  }

  /** What a step makes of one message. Delivery marks the next pending message of its
      thread; the end of a delivery removes it, fails it with its error, or makes it pending
      again; an edit renews what is not being sent and whose outcome is known; a retry makes
      a failed one pending; a deletion removes what is not being sent. */
  function Becomes(s: QueueState, a: Action, m: Message): Option<Message> {
    match a
    case Deliver(thread, _) =>
      if s.delivering.None? && NextPending(s.queue, thread).Some? && NextPending(s.queue, thread).value.id == m.id
      then Some(Message(m.id, m.key, m.thread, m.payload, Sending, None)) else Some(m)
    case Finish(result) =>
      if s.delivering != Some(m.id) then Some(m)
      else
        (match result
         case Accepted => None
         case Rejected(error) => Some(Message(m.id, m.key, m.thread, m.payload, MessageState.Failed, Some(error)))
         case Stale => Some(Message(m.id, m.key, m.thread, m.payload, Pending, None)))
    case EditPrompt(id, payload, key) =>
      if m.id != id || m.state.Sending? || (m.error.Some? && m.error.value.outcomeUnknown) then Some(m)
      else Some(Message(m.id, key, m.thread, payload, Pending, None))
    case Retry(id) =>
      if m.id != id || !m.state.Failed? then Some(m)
      else Some(Message(m.id, m.key, m.thread, m.payload, Pending, None))
    case Delete(id) => if m.id == id && !m.state.Sending? then None else Some(m)
    case EnqueueNew(_, _, _, _, _) => Some(m)
  }

  function BecomeAll(s: QueueState, a: Action, messages: seq<Message>): seq<Message> {
    if messages == [] then []
    else
      (match Becomes(s, a, messages[0]) case None => [] case Some(m) => [m]) + BecomeAll(s, a, messages[1..])
  }

  lemma {:induction false} UpdatesBecome(s: QueueState, a: Action, messages: seq<Message>, id: string,
                                         f: Message -> Message)
    requires forall m <- messages :: Becomes(s, a, m) == Some(if m.id == id then f(m) else m)
    ensures UpdateMessage(messages, id, f) == BecomeAll(s, a, messages)
  {
    hide Becomes;
    if messages != [] {
      UpdatesBecome(s, a, messages[1..], id, f);
      assert Becomes(s, a, messages[0]) == Some(if messages[0].id == id then f(messages[0]) else messages[0]);
      assert UpdateMessage(messages, id, f)
          == [if messages[0].id == id then f(messages[0]) else messages[0]] + UpdateMessage(messages[1..], id, f);
    }
  }

  lemma {:induction false} RemovedBecome(s: QueueState, a: Action, messages: seq<Message>, id: string)
    requires forall m <- messages :: Becomes(s, a, m) == if m.id == id then None else Some(m)
    ensures Remove(messages, id) == BecomeAll(s, a, messages)
  {
    hide Becomes;
    if messages != [] {
      assert Becomes(s, a, messages[0]) == if messages[0].id == id then None else Some(messages[0]);
      RemovedBecome(s, a, messages[1..], id);
    }
  }

  lemma {:induction false} AllStay(s: QueueState, a: Action, messages: seq<Message>)
    requires forall m <- messages :: Becomes(s, a, m) == Some(m)
    ensures BecomeAll(s, a, messages) == messages
  {
    hide Becomes;
    if messages != [] {
      assert Becomes(s, a, messages[0]) == Some(messages[0]);
      AllStay(s, a, messages[1..]);
    }
  }

  /** A step does to every message what becomes of it, in place; it sends a request exactly
      when a delivery begins and gets as far as that, for the message it marks. */
  lemma StepByMessage(s: QueueState, a: Action)
    requires Inv(s) && !a.EnqueueNew?
    ensures Step(s, a).queue == BecomeAll(s, a, s.queue)
    ensures a.Deliver? ==>
              var r, next := Step(s, a), NextPending(s.queue, a.thread);
              if s.delivering.Some? || next.None? then r == s
              else
                && r.delivering == Some(next.value.id)
                && r.submitted == s.submitted + (if a.sent then [(next.value.key, next.value.payload)] else [])
    ensures !a.Deliver? ==> Step(s, a).submitted == s.submitted
    ensures !a.Deliver? ==> Step(s, a).delivering == if a.Finish? then None else s.delivering
  {
    hide KeysArePayloads, WithinCaps, UpdateMessage, Remove, ForThread;
    match a {
      case Deliver(thread, sent) =>
        var next := NextPending(s.queue, thread);
        if s.delivering.None? && next.Some? {
          UpdatesBecome(s, a, s.queue, next.value.id, WithState(Sending, None));
        } else {
          AllStay(s, a, s.queue);
        }
      case Finish(result) =>
        if s.delivering.None? {
          AllStay(s, a, s.queue);
        } else {
          match result {
            case Accepted => RemovedBecome(s, a, s.queue, s.delivering.value);
            case Rejected(error) =>
              UpdatesBecome(s, a, s.queue, s.delivering.value, WithState(MessageState.Failed, Some(error)));
            case Stale => UpdatesBecome(s, a, s.queue, s.delivering.value, WithState(Pending, None));
          }
        }
      case EditPrompt(id, payload, key) => UpdatesBecome(s, a, s.queue, id, Edited(payload, key));
      case Retry(id) => UpdatesBecome(s, a, s.queue, id, Retried());
      case Delete(id) =>
        if exists m <- s.queue :: m.id == id && m.state.Sending? {
          DeletedIsSending(s, id);
          AllStay(s, a, s.queue);
        } else {
          RemovedBecome(s, a, s.queue, id);
        }
    }
  }

  lemma DeletedIsSending(s: QueueState, id: string)
    requires Inv(s) && exists m <- s.queue :: m.id == id && m.state.Sending?
    ensures forall m <- s.queue :: m.id == id ==> m.state.Sending?
  {
    var x :| x in s.queue && x.id == id && x.state.Sending?;
  }

  function Run(actions: seq<Action>): QueueState {
    if actions == [] then EMPTY else Step(Run(actions[..|actions| - 1]), actions[|actions| - 1])
  }

  ghost predicate AllFresh(actions: seq<Action>) {
    forall i :: 0 <= i < |actions| ==> FreshNames(Run(actions[..i]), actions[i])
  }

  /** Over every run: at most one message is being sent; two requests under one idempotency
      key carry the same payload, whatever is retried or edited in between; no thread has
      more than 8 messages and the queue no more than 32. */
  lemma {:induction false} QueueIsSafe(actions: seq<Action>)
    requires AllFresh(actions)
    ensures var s := Run(actions);
            && Inv(s)
            && (forall i, j :: 0 <= i < |s.submitted| && 0 <= j < |s.submitted| && s.submitted[i].0 == s.submitted[j].0
                  ==> s.submitted[i].1 == s.submitted[j].1)
            && (forall i, j :: 0 <= i < j < |s.queue| ==> !(s.queue[i].state.Sending? && s.queue[j].state.Sending?))
  {
    if actions != [] {
      var n := |actions| - 1;
      forall i | 0 <= i < n ensures FreshNames(Run(actions[..n][..i]), actions[..n][i]) {
        assert actions[..n][..i] == actions[..i];
      }
      QueueIsSafe(actions[..n]);
      StepKeepsInv(Run(actions[..n]), actions[n]);
    }
    var s := Run(actions);
    forall i, j | 0 <= i < j < |s.queue| ensures !(s.queue[i].state.Sending? && s.queue[j].state.Sending?) {
      assert s.queue[i] in s.queue && s.queue[j] in s.queue;
    }
    forall i, j | 0 <= i < |s.submitted| && 0 <= j < |s.submitted| && s.submitted[i].0 == s.submitted[j].0
      ensures s.submitted[i].1 == s.submitted[j].1
    {
      assert s.submitted[i] in s.submitted && s.submitted[j] in s.submitted;
    }
  }
}
