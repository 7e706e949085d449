/** The Go SDK's durable run watch (sdk/go/watch.go): it turns an interruptible,
    at-least-once stream into an exactly-once contiguous feed. The outside world is a
    script of turns, one for each iteration of the receive loop. */
module RunWatcher {
  import opened Wrappers

  const MAX_UINT64 := 0xFFFF_FFFF_FFFF_FFFF
  const MAX_INT64 := 0x7FFF_FFFF_FFFF_FFFF
  const MILLISECOND := 1_000_000

  type uint64 = x: int | 0 <= x <= MAX_UINT64
  type int64 = x: int | -MAX_INT64 - 1 <= x <= MAX_INT64

  datatype Item<V> = Item(runId: string, sequence: uint64, value: V)

  /** An error, as IsRetryable classifies it. */
  datatype Fault = Fault(retryable: bool)

  datatype OpenReply = Opened | NilStream | OpenFailed(fault: Fault)
  datatype RecvReply<V> = Received(item: Item<V>) | EndOfStream | RecvFailed(fault: Fault)
  datatype ReconcileReply =
    | Reconciled(runId: string, lastSequence: uint64, terminal: bool)
    | ReconcileFailed(fault: Fault)

  /** The answers one iteration gets if it asks; `slept` says that Sleep returned nil. */
  datatype Turn<V> = Turn(cancelled: bool, open: OpenReply, recv: RecvReply<V>,
                          reconcile: ReconcileReply, slept: bool)

  datatype Outcome<V> =
    | Delivered(item: Item<V>)
    | Finished
    | Gap
    | WrongRun
    | Unreconciled
    | NoStream
    | Cancelled
    | Failed(fault: Fault)
    | SleepInterrupted

  datatype Options<!V> = Options(runId: string, after: uint64, isTerminal: V -> bool,
                                 initialBackoff: int64, maximumBackoff: int64)
  {
    predicate Valid() {
      runId != "" && 0 < initialBackoff <= maximumBackoff
    }
  }

  datatype State = State(cursor: uint64, backoff: int64, open: bool, done: bool)

  // ----- one iteration of the loop -----

  /** reconnect: drop the stream, sleep, double the backoff up to the maximum. */
  function Retry<V>(o: Options<V>, s: State, fault: Fault, slept: bool): (State, Option<Outcome<V>>)
    requires o.Valid() && 0 < s.backoff <= o.maximumBackoff
  {
    if !fault.retryable then (s, Some(Failed(fault)))
    else if !slept then (s.(open := false), Some(SleepInterrupted))
    else
      var next := if s.backoff <= o.maximumBackoff / 2 then s.backoff * 2 else o.maximumBackoff;
      (s.(open := false, backoff := next), None)
  }

  /** What Recv does with one turn: the new state, and what it returns if it returns. */
  function Iterate<V>(o: Options<V>, s: State, turn: Turn<V>): (State, Option<Outcome<V>>)
    requires o.Valid() && 0 < s.backoff <= o.maximumBackoff
  {
    if s.done then (s, Some(Finished))
    else if turn.cancelled then (s, Some(Cancelled))
    else if !s.open && turn.open.OpenFailed? then Retry(o, s, turn.open.fault, turn.slept)
    else if !s.open && turn.open.NilStream? then (s, Some(NoStream))
    else
      var s := s.(open := true);
      match turn.recv
      case RecvFailed(fault) => Retry(o, s, fault, turn.slept)
      case EndOfStream =>
        (match turn.reconcile
         case ReconcileFailed(fault) => Retry(o, s, fault, turn.slept)
         case Reconciled(runId, last, terminal) =>
           if runId != o.runId || last != s.cursor || !terminal then (s, Some(Unreconciled))
           else (s.(done := true), Some(Finished)))
      case Received(item) =>
        if item.runId != o.runId then (s, Some(WrongRun))
        else if item.sequence <= s.cursor then (s, None)
        else if s.cursor == MAX_UINT64 || item.sequence != s.cursor + 1 then (s, Some(Gap))
        else (s.(cursor := item.sequence, backoff := o.initialBackoff, done := o.isTerminal(item.value)),
              Some(Delivered(item)))
  }

  // ----- which answers lead to which outcome -----

  /** The watcher asks at all: it is not done and its context is not cancelled. */
  predicate Asks<V>(s: State, turn: Turn<V>) {
    !s.done && !turn.cancelled
  }

  /** It reads from a stream, an open one or one that this turn opens. */
  predicate Reads<V>(s: State, turn: Turn<V>) {
    Asks(s, turn) && (s.open || turn.open.Opened?)
  }

  /** The error this turn meets, if any: of opening, of reading, or of reconciling after
      the end of the stream. */
  function Met<V>(s: State, turn: Turn<V>): Option<Fault> {
    if Asks(s, turn) && !s.open && turn.open.OpenFailed? then Some(turn.open.fault)
    else if Reads(s, turn) && turn.recv.RecvFailed? then Some(turn.recv.fault)
    else if Reads(s, turn) && turn.recv.EndOfStream? && turn.reconcile.ReconcileFailed? then Some(turn.reconcile.fault)
    else None
  }

  /** The turn makes Recv return x. */
  predicate Gives<V(==)>(o: Options<V>, s: State, turn: Turn<V>, x: Outcome<V>) {
    match x
    case Delivered(item) =>
      Reads(s, turn) && turn.recv == Received(item) && item.runId == o.runId && item.sequence == s.cursor + 1
    case Gap =>
      && Reads(s, turn) && turn.recv.Received?
      && turn.recv.item.runId == o.runId && turn.recv.item.sequence > s.cursor + 1
    case WrongRun => Reads(s, turn) && turn.recv.Received? && turn.recv.item.runId != o.runId
    case Finished =>
      s.done || (Reads(s, turn) && turn.recv.EndOfStream? && turn.reconcile == Reconciled(o.runId, s.cursor, true))
    case Unreconciled =>
      && Reads(s, turn) && turn.recv.EndOfStream? && turn.reconcile.Reconciled?
      && turn.reconcile != Reconciled(o.runId, s.cursor, true)
    case NoStream => Asks(s, turn) && !s.open && turn.open.NilStream?
    case Cancelled => !s.done && turn.cancelled
    case Failed(fault) => Met(s, turn) == Some(fault) && !fault.retryable
    case SleepInterrupted => Met(s, turn).Some? && Met(s, turn).value.retryable && !turn.slept
  }

  /** The turn only repeats what has been delivered. */
  predicate Repeats<V>(o: Options<V>, s: State, turn: Turn<V>) {
    Reads(s, turn) && turn.recv.Received? && turn.recv.item.runId == o.runId && turn.recv.item.sequence <= s.cursor
  }

  /** The turn is an interruption that has been slept over. */
  predicate Interrupts<V>(s: State, turn: Turn<V>) {
    Met(s, turn).Some? && Met(s, turn).value.retryable && turn.slept
  }

  /** What Recv returns for a turn, it returns for its reason; it goes on exactly after a
      repetition or an interruption. */
  ghost predicate Explained<V(!new)>(o: Options<V>, s: State, turn: Turn<V>, outcome: Option<Outcome<V>>) {
    && (forall x: Outcome<V> :: outcome == Some(x) <==> Gives(o, s, turn, x))
    && (outcome == None <==> Repeats(o, s, turn) || Interrupts(s, turn))
  }

  /** What a call asks of the world. */
  datatype Call = OpenAfter(runId: string, cursor: uint64) | ReconcileAt(runId: string, cursor: uint64)
    | SleepFor(backoff: int64)

  /** The calls of one turn, in order. */
  function Calls<V>(o: Options<V>, s: State, turn: Turn<V>): seq<Call> {
    (if Asks(s, turn) && !s.open then [OpenAfter(o.runId, s.cursor)] else [])
    + (if Reads(s, turn) && turn.recv.EndOfStream? then [ReconcileAt(o.runId, s.cursor)] else [])
    + (if Met(s, turn).Some? && Met(s, turn).value.retryable then [SleepFor(s.backoff)] else [])
  }

  class RunWatcher<V(!new, ==)> {
    const options: Options<V>
    var cursor: uint64
    var backoff: int64
    var open: bool  // the stream is not nil
    var done: bool

    function View(): State
      reads this
    {
      State(cursor, backoff, open, done)
    }

    predicate Valid()
      reads this
    {
      options.Valid() && 0 < backoff <= options.maximumBackoff
    }

    constructor (options: Options<V>)
      requires options.Valid()
      ensures Valid() && this.options == options && View() == Start(options)
    {
      this.options := options;
      cursor, backoff, open, done := options.after, options.initialBackoff, false, false;
    }

    method Reconnect(fault: Fault, slept: bool) returns (outcome: Option<Outcome<V>>, calls: seq<Call>)
      requires Valid()
      modifies this
      ensures Valid()
      ensures (View(), outcome) == Retry(options, old(View()), fault, slept)
      ensures outcome == if !fault.retryable then Some(Failed(fault))
                         else if !slept then Some(SleepInterrupted) else None
      ensures calls == (if fault.retryable then [SleepFor(old(backoff))] else [])
    {
      calls := [];
      if !fault.retryable {
        return Some(Failed(fault)), calls;
      }
      open := false;
      calls := calls + [SleepFor(backoff)];
      if !slept {
        return Some(SleepInterrupted), calls;
      }
      if backoff <= options.maximumBackoff / 2 {
        backoff := backoff * 2;
      } else {
        backoff := options.maximumBackoff;
      }
      return None, calls;
    }

    /** One iteration of the receive loop, and the calls it makes. */
    method Once(turn: Turn<V>) returns (outcome: Option<Outcome<V>>, calls: seq<Call>)
      requires Valid() && !done
      modifies this
      ensures Valid()
      ensures (View(), outcome) == Iterate(options, old(View()), turn)
      ensures Explained(options, old(View()), turn, outcome)
      ensures calls == Calls(options, old(View()), turn)
    {
      hide Explained;
      ghost var s := View();
      OutcomesExactlyWhen(options, s, turn);
      calls := [];
      if turn.cancelled {
        return Some(Cancelled), calls;
      }
      if !open {
        calls := calls + [OpenAfter(options.runId, cursor)];
        match turn.open {
          case OpenFailed(fault) =>
            var slept;
            outcome, slept := Reconnect(fault, turn.slept);
            return outcome, calls + slept;
          case NilStream =>
            return Some(NoStream), calls;
          case Opened =>
            open := true;
        }
      }
      match turn.recv {
        case EndOfStream =>
          calls := calls + [ReconcileAt(options.runId, cursor)];
          match turn.reconcile {
            case ReconcileFailed(fault) =>
              var slept;
              outcome, slept := Reconnect(fault, turn.slept);
              return outcome, calls + slept;
            case Reconciled(runId, last, terminal) =>
              if runId != options.runId || last != cursor || !terminal {
                return Some(Unreconciled), calls;
              }
              done := true;
              return Some(Finished), calls;
          }
        case RecvFailed(fault) =>
          var slept;
          outcome, slept := Reconnect(fault, turn.slept);
          return outcome, calls + slept;
        case Received(item) =>
          if item.runId != options.runId {
            return Some(WrongRun), calls;
          }
          if item.sequence <= cursor {
            return None, calls;
          }
          if cursor == MAX_UINT64 || item.sequence != cursor + 1 {
            return Some(Gap), calls;
          }
          cursor := item.sequence;
          backoff := options.initialBackoff;
          if options.isTerminal(item.value) {
            done := true;
          }
          return Some(Delivered(item)), calls;
      }
    }

    /** Recv against the turns to come; None means that it is still waiting after all of them. */
    method Recv(turns: seq<Turn<V>>) returns (outcome: Option<Outcome<V>>, used: nat, calls: seq<Call>)
      requires Valid()
      modifies this
      ensures Valid() && used <= |turns|
      ensures old(done) ==> outcome == Some(Finished) && used == 0 && View() == old(View())
      ensures !old(done) ==>
                var t := Exec(options, Trace(old(View()), [], 0), turns[..used]);
                t.state == View() && t.outcomes == (if outcome.Some? then [outcome.value] else [])
      ensures outcome.None? ==> used == |turns|
      ensures calls == CallsOf(options, Trace(old(View()), [], 0), turns[..used])
    {
      hide Explained, Calls;
      outcome, used, calls := None, 0, [];
      if done {
        return Some(Finished), 0, [];
      }
      ghost var start := Trace(View(), [], 0);
      while outcome.None? && used < |turns|
        invariant Valid() && (outcome.None? ==> !done) && used <= |turns|
        invariant var t := Exec(options, start, turns[..used]);
                  t.state == View() && t.outcomes == (if outcome.Some? then [outcome.value] else [])
        invariant calls == CallsOf(options, start, turns[..used])
        decreases |turns| - used, outcome.None?
      {
        ExecSnoc(options, start, turns[..used], turns[used]);
        assert turns[..used + 1] == turns[..used] + [turns[used]];
        var asked;
        outcome, asked := Once(turns[used]);
        used, calls := used + 1, calls + asked;
      }
    }
  }

  datatype ConfigError = EmptyRunId | MissingFunctions | InvalidBackoff

  /** NewRunWatcher: zero backoffs mean the defaults; `functions` says that the open,
      reconcile and terminal functions are all set. */
  function Configure<V>(runId: string, after: uint64, functions: bool, isTerminal: V -> bool,
                        initialBackoff: int64, maximumBackoff: int64): (r: Result<Options<V>, ConfigError>)
    ensures r.Ok? <==> runId != "" && functions && initialBackoff >= 0
                       && (if initialBackoff == 0 then 250 * MILLISECOND else initialBackoff)
                          <= (if maximumBackoff == 0 then 5000 * MILLISECOND else maximumBackoff)
    ensures r.Ok? ==> r.value.Valid() && r.value.after == after && r.value.runId == runId
  {
    if runId == "" then Err(EmptyRunId)
    else if !functions then Err(MissingFunctions)
    else
      var initial: int64 := if initialBackoff == 0 then 250 * MILLISECOND else initialBackoff;
      var maximum: int64 := if maximumBackoff == 0 then 5000 * MILLISECOND else maximumBackoff;
      if initial < 0 || maximum < initial then Err(InvalidBackoff)
      else Ok(Options(runId, after, isTerminal, initial, maximum))
  }

  // ----- whole runs -----

  function Start<V>(o: Options<V>): State {
    State(o.after, o.initialBackoff, false, false)
  }

  /** A run: the state, what Recv returned so far, and how many reconnections have
      succeeded since the last delivery. A call of Recv begins where one returned. */
  datatype Trace<V> = Trace(state: State, outcomes: seq<Outcome<V>>, retries: nat)

  function Advance<V>(o: Options<V>, t: Trace<V>, turn: Turn<V>): (r: Trace<V>)
    requires o.Valid() && 0 < t.state.backoff <= o.maximumBackoff
    ensures 0 < r.state.backoff <= o.maximumBackoff
  {
    var (s, out) := Iterate(o, t.state, turn);
    match out
    case Some(Delivered(item)) => Trace(s, t.outcomes + [Delivered(item)], 0)
    case Some(other) => Trace(s, t.outcomes + [other], t.retries)
    case None => Trace(s, t.outcomes, if s.open then t.retries else t.retries + 1)
  }

  function Exec<V>(o: Options<V>, t: Trace<V>, turns: seq<Turn<V>>): (r: Trace<V>)
    requires o.Valid() && 0 < t.state.backoff <= o.maximumBackoff
    ensures 0 < r.state.backoff <= o.maximumBackoff
    decreases |turns|
  {
    if turns == [] then t else Exec(o, Advance(o, t, turns[0]), turns[1..])
  }

  function Run<V>(o: Options<V>, turns: seq<Turn<V>>): Trace<V>
    requires o.Valid()
  {
    Exec(o, Trace(Start(o), [], 0), turns)
  }

  lemma {:induction false} ExecSnoc<V>(o: Options<V>, t: Trace<V>, turns: seq<Turn<V>>, turn: Turn<V>)
    requires o.Valid() && 0 < t.state.backoff <= o.maximumBackoff
    ensures Exec(o, t, turns + [turn]) == Advance(o, Exec(o, t, turns), turn)
    decreases |turns|
  {
    if turns == [] {
      assert [turn][1..] == [];
      assert turns + [turn] == [turn];
    } else {
      assert (turns + [turn])[1..] == turns[1..] + [turn];
      ExecSnoc(o, Advance(o, t, turns[0]), turns[1..], turn);
    }
  }

  /** The items delivered, in order. */
  function Deliveries<V>(outcomes: seq<Outcome<V>>): seq<Item<V>> {
    if outcomes == [] then []
    else
      var n := |outcomes| - 1;
      Deliveries(outcomes[..n]) + (if outcomes[n].Delivered? then [outcomes[n].item] else [])
  }

  function Pow2(k: nat): (p: nat)
    ensures p > 0
  {
    if k == 0 then 1 else 2 * Pow2(k - 1)
  }

  /** The calls made over a script of turns. */
  function CallsOf<V>(o: Options<V>, t: Trace<V>, turns: seq<Turn<V>>): seq<Call>
    requires o.Valid() && 0 < t.state.backoff <= o.maximumBackoff
  {
    if turns == [] then []
    else
      var n := |turns| - 1;
      CallsOf(o, t, turns[..n]) + Calls(o, Exec(o, t, turns[..n]).state, turns[n])
  }

  // ----- outcomes -----

  /** Every turn gives one outcome for one reason, or none: then it repeats what has been
      delivered or is an interruption slept over. The stream is open afterwards unless an
      interruption closed it, and a terminal item or proof ends the watch. */
  lemma OutcomesExactlyWhen<V(!new)>(o: Options<V>, s: State, turn: Turn<V>)
    requires o.Valid() && 0 < s.backoff <= o.maximumBackoff
    ensures var (r, out) := Iterate(o, s, turn);
            && Explained(o, s, turn, out)
            && (r.open <==> (s.open || Reads(s, turn)) && !(Met(s, turn).Some? && Met(s, turn).value.retryable))
  {
    var (_, out) := Iterate(o, s, turn);
    forall x: Outcome<V> ensures out == Some(x) <==> Gives(o, s, turn, x) {
      OutcomeExactlyWhen(o, s, turn, x);
    }
  }

  lemma OutcomeExactlyWhen<V>(o: Options<V>, s: State, turn: Turn<V>, x: Outcome<V>)
    requires o.Valid() && 0 < s.backoff <= o.maximumBackoff
    ensures Iterate(o, s, turn).1 == Some(x) <==> Gives(o, s, turn, x)
  {
  }

  /** The same of a whole run: the turn after it returns x exactly for the reason of x. */
  lemma RunsGiveExactlyWhen<V(!new)>(o: Options<V>, turns: seq<Turn<V>>, turn: Turn<V>, x: Outcome<V>)
    requires o.Valid()
    ensures var t, r := Run(o, turns), Run(o, turns + [turn]);
            && (r.outcomes == t.outcomes + [x] <==> Gives(o, t.state, turn, x))
            && (r.outcomes == t.outcomes <==> Repeats(o, t.state, turn) || Interrupts(t.state, turn))
  {
    var t := Run(o, turns);
    ExecSnoc(o, Trace(Start(o), [], 0), turns, turn);
    OutcomesExactlyWhen(o, t.state, turn);
    var (_, out) := Iterate(o, t.state, turn);
    if out.Some? {
      assert (t.outcomes + [out.value])[|t.outcomes|] == out.value;
      assert t.outcomes + [out.value] == t.outcomes + [x] ==> out.value == (t.outcomes + [x])[|t.outcomes|] == x;
    }
  }

  // ----- progress -----

  /** From the k-th update on, with the stream open or not, the turns offer the log in
      order up to the m-th, among replays and interruptions that are slept over. */
  predicate Offers<V(==)>(o: Options<V>, log: seq<V>, k: uint64, m: nat, open: bool, turns: seq<Turn<V>>)
    requires |log| <= MAX_UINT64
    decreases |turns|
  {
    if turns == [] then k == m
    else
      var s, turn := State(k, 1, open, false), turns[0];
      if Interrupts(s, turn) then Offers(o, log, k, m, false, turns[1..])
      else if Repeats(o, s, turn) then Offers(o, log, k, m, true, turns[1..])
      else
        && Reads(s, turn) && k < |log| && turn.recv == Received(Item(o.runId, k + 1, log[k]))
        && Offers(o, log, k + 1, m, true, turns[1..])
  }

  lemma {:induction false} OffersRise<V>(o: Options<V>, log: seq<V>, k: uint64, m: nat, open: bool, turns: seq<Turn<V>>)
    requires |log| <= MAX_UINT64 && k <= |log| && Offers(o, log, k, m, open, turns)
    ensures k <= m <= |log|
    decreases |turns|
  {
    hide Reads, Repeats, Interrupts;
    if turns != [] {
      var s, turn := State(k, 1, open, false), turns[0];
      var k': uint64 := if Interrupts(s, turn) || Repeats(o, s, turn) then k else k + 1;
      OffersRise(o, log, k', m, !Interrupts(s, turn), turns[1..]);
    }
  }

  /** A turn that offers the next update, repeats one or interrupts leads the watcher where
      it leads the offer. */
  lemma OfferedTurn<V(!new)>(o: Options<V>, log: seq<V>, t: Trace<V>, turn: Turn<V>)
    requires o.Valid() && 0 < t.state.backoff <= o.maximumBackoff && |log| <= MAX_UINT64 && !t.state.done
    requires var s := State(t.state.cursor, 1, t.state.open, false);
             || Interrupts(s, turn) || Repeats(o, s, turn)
             || (&& Reads(s, turn) && s.cursor < |log|
                 && turn.recv == Received(Item(o.runId, s.cursor + 1, log[s.cursor])))
    ensures var s, r := State(t.state.cursor, 1, t.state.open, false), Advance(o, t, turn);
            && (r.state.open <==> !Interrupts(s, turn))
            && if Interrupts(s, turn) || Repeats(o, s, turn) then
                 r.outcomes == t.outcomes && r.state.cursor == s.cursor && !r.state.done
               else
                 && r.outcomes == t.outcomes + [Delivered(Item(o.runId, s.cursor + 1, log[s.cursor]))]
                 && r.state.cursor == s.cursor + 1 && (r.state.done <==> o.isTerminal(log[s.cursor]))
  {
    OutcomesExactlyWhen(o, t.state, turn);
  }

  lemma {:induction false} FinishedDeliversNothing<V>(o: Options<V>, t: Trace<V>, turns: seq<Turn<V>>)
    requires o.Valid() && 0 < t.state.backoff <= o.maximumBackoff && t.state.done
    ensures Deliveries(Exec(o, t, turns).outcomes) == Deliveries(t.outcomes) && Exec(o, t, turns).state == t.state
    decreases |turns|
  {
    if turns != [] {
      DeliveriesSnoc(t.outcomes, Finished);
      FinishedDeliversNothing(o, Advance(o, t, turns[0]), turns[1..]);
    }
  }

  lemma {:induction false} OffersAreTaken<V(!new)>(o: Options<V>, log: seq<V>, t: Trace<V>, m: nat, turns: seq<Turn<V>>)
    requires o.Valid() && 0 < t.state.backoff <= o.maximumBackoff && |log| <= MAX_UINT64 && TerminalIsLast(o, log)
    requires t.state.cursor <= |log| && (t.state.done ==> t.state.cursor == |log|)
    requires Offers(o, log, t.state.cursor, m, t.state.open, turns)
    ensures t.state.cursor <= m <= |log|
    ensures var r := Exec(o, t, turns);
            && r.state.cursor == m
            && Values(Deliveries(r.outcomes)) == Values(Deliveries(t.outcomes)) + log[t.state.cursor..m]
            && (r.state.done <==> t.state.done || (t.state.cursor < m && o.isTerminal(log[m - 1])))
    decreases |turns|
  {
    hide Iterate, Reads, Repeats, Interrupts, Deliveries, Values;
    var k := t.state.cursor;
    OffersRise(o, log, k, m, t.state.open, turns);
    assert Values(Deliveries(t.outcomes)) + [] == Values(Deliveries(t.outcomes));
    if t.state.done {
      FinishedDeliversNothing(o, t, turns);
    } else if turns != [] {
      var turn, next := turns[0], Advance(o, t, turns[0]);
      OfferedTurn(o, log, t, turn);
      OffersAreTaken(o, log, next, m, turns[1..]);
      if next.state.cursor > k {
        var item := Item(o.runId, k + 1, log[k]);
        DeliveriesSnoc(t.outcomes, Delivered(item));
        ValuesOfSnoc(Deliveries(t.outcomes), item);
        assert log[k..m] == [log[k]] + log[k + 1..m];
      }
    }
  }

  lemma ValuesOfSnoc<V>(items: seq<Item<V>>, item: Item<V>)
    ensures Values(items + [item]) == Values(items) + [item.value]
  {
  }

  /** Progress: a script that offers the log in order up to its m-th update, among any
      replays and any interruptions that are slept over, has had all of it delivered, and
      the watch is done exactly if that ends the run. */
  lemma OffersAreDelivered<V(!new)>(o: Options<V>, log: seq<V>, m: nat, turns: seq<Turn<V>>)
    requires o.Valid() && o.after <= |log| <= MAX_UINT64 && TerminalIsLast(o, log)
    requires Offers(o, log, o.after, m, false, turns)
    ensures o.after <= m <= |log|
    ensures Values(Deliveries(Run(o, turns).outcomes)) == log[o.after..m] && Run(o, turns).state.cursor == m
    ensures Run(o, turns).state.done <==> o.after < m && o.isTerminal(log[m - 1])
  {
    OffersAreTaken(o, log, Trace(Start(o), [], 0), m, turns);
    assert Values<V>([]) == [] && [] + log[o.after..m] == log[o.after..m];
  }

  // ----- calls -----

  /** Every stream is opened, and every end of one reconciled, for the watched run after
      exactly what has been delivered; and every sleep lasts the initial backoff doubled
      once for each reconnection since the last delivery, capped. */
  lemma CallsKnowTheCursor<V>(o: Options<V>, turns: seq<Turn<V>>, turn: Turn<V>)
    requires o.Valid()
    ensures var t := Run(o, turns);
            var cursor := o.after + |Deliveries(t.outcomes)|;
            forall c <- Calls(o, t.state, turn) ::
              match c
              case OpenAfter(runId, after) => runId == o.runId && after == cursor
              case ReconcileAt(runId, at) => runId == o.runId && at == cursor
              case SleepFor(backoff) => backoff == Min(o.initialBackoff * Pow2(t.retries), o.maximumBackoff)
  {
    RunIsContiguous(o, turns);
  }

  /** A call of each kind is made exactly when it is due: a stream is opened when there is
      none, a clean end is reconciled, and only a retryable error is slept over. */
  lemma CallsExactlyWhen<V>(o: Options<V>, s: State, turn: Turn<V>)
    ensures var calls := Calls(o, s, turn);
            && ((exists c <- calls :: c.OpenAfter?) <==> !s.done && !turn.cancelled && !s.open)
            && ((exists c <- calls :: c.ReconcileAt?)
                <==> !s.done && !turn.cancelled && (s.open || turn.open.Opened?) && turn.recv.EndOfStream?)
            && ((exists c <- calls :: c.SleepFor?) <==> Met(s, turn).Some? && Met(s, turn).value.retryable)
            && |calls| <= 3
  {
    var opens := if Asks(s, turn) && !s.open then [OpenAfter(o.runId, s.cursor)] else [];
    var ends := if Reads(s, turn) && turn.recv.EndOfStream? then [ReconcileAt(o.runId, s.cursor)] else [];
    var sleeps := if Met(s, turn).Some? && Met(s, turn).value.retryable then [SleepFor(s.backoff)] else [];
    assert Calls(o, s, turn) == opens + ends + sleeps;
    assert forall c :: c in opens + ends + sleeps <==> c in opens || c in ends || c in sleeps;
    assert opens != [] ==> opens[0] in opens;
    assert ends != [] ==> ends[0] in ends;
    assert sleeps != [] ==> sleeps[0] in sleeps;
  }

  // ----- exactly-once -----

  /** Whatever any server does, the items delivered are of the watched run and numbered
      without gap or repetition from the exclusive cursor; and after k reconnections
      since the last delivery the backoff is the initial one doubled k times, capped. */
  ghost predicate Contiguous<V>(o: Options<V>, t: Trace<V>) {
    var items := Deliveries(t.outcomes);
    && t.state.cursor == o.after + |items|
    && (forall i :: 0 <= i < |items| ==> items[i].runId == o.runId && items[i].sequence == o.after + 1 + i)
  }

  ghost predicate BackoffExact<V>(o: Options<V>, t: Trace<V>) {
    t.state.backoff == Min(o.initialBackoff * Pow2(t.retries), o.maximumBackoff)
  }

  /** The comparison with half the maximum computes the capped double and never leaves
      the 64-bit range. */
  lemma BackoffDoubles(initial: int64, maximum: int64, k: nat)
    requires 0 < initial <= maximum
    ensures var b := Min(initial * Pow2(k), maximum);
            && Min(initial * Pow2(k + 1), maximum) == (if b <= maximum / 2 then b * 2 else maximum)
            && (b <= maximum / 2 ==> b * 2 <= MAX_INT64)
  {
    assert initial * Pow2(k + 1) == 2 * (initial * Pow2(k));
  }

  lemma AdvanceKeepsBackoff<V>(o: Options<V>, t: Trace<V>, turn: Turn<V>)
    requires o.Valid() && 0 < t.state.backoff <= o.maximumBackoff && BackoffExact(o, t)
    ensures BackoffExact(o, Advance(o, t, turn))
  {
    BackoffDoubles(o.initialBackoff, o.maximumBackoff, t.retries);
    assert o.initialBackoff * Pow2(0) == o.initialBackoff;
  }

  lemma IterateNumbers<V>(o: Options<V>, s: State, turn: Turn<V>)
    requires o.Valid() && 0 < s.backoff <= o.maximumBackoff
    ensures var (r, out) := Iterate(o, s, turn);
            if out.Some? && out.value.Delivered? then
              r.cursor == s.cursor + 1 == out.value.item.sequence && out.value.item.runId == o.runId
            else r.cursor == s.cursor
  {
  }

  lemma AdvanceKeepsContiguity<V>(o: Options<V>, t: Trace<V>, turn: Turn<V>)
    requires o.Valid() && 0 < t.state.backoff <= o.maximumBackoff && Contiguous(o, t)
    ensures Contiguous(o, Advance(o, t, turn))
  {
    hide Iterate, Deliveries;
    IterateNumbers(o, t.state, turn);
    var (_, out) := Iterate(o, t.state, turn);
    if out.Some? {
      DeliveriesSnoc(t.outcomes, out.value);
    }
  }

  lemma {:induction false} RunIsContiguous<V>(o: Options<V>, turns: seq<Turn<V>>)
    requires o.Valid()
    ensures Contiguous(o, Run(o, turns)) && BackoffExact(o, Run(o, turns))
    decreases |turns|
  {
    if turns == [] {
      assert o.initialBackoff * Pow2(0) == o.initialBackoff;
    } else {
      var n := |turns| - 1;
      assert turns == turns[..n] + [turns[n]];
      RunIsContiguous(o, turns[..n]);
      ExecSnoc(o, Trace(Start(o), [], 0), turns[..n], turns[n]);
      AdvanceKeepsContiguity(o, Run(o, turns[..n]), turns[n]);
      AdvanceKeepsBackoff(o, Run(o, turns[..n]), turns[n]);
    }
  }

  /** The server sends updates of the log under their sequence numbers, repeated or
      out of order as it may, and confirms a terminal run only at the end of the log. */
  ghost predicate Honest<V>(o: Options<V>, log: seq<V>, turn: Turn<V>) {
    && (turn.recv.Received? && turn.recv.item.runId == o.runId ==>
          1 <= turn.recv.item.sequence <= |log| && turn.recv.item.value == log[turn.recv.item.sequence - 1])
    && (turn.reconcile.Reconciled? && turn.reconcile.runId == o.runId && turn.reconcile.terminal ==>
          turn.reconcile.lastSequence == |log|)
  }

  /** Only the last update of a run is a terminal one. */
  ghost predicate TerminalIsLast<V>(o: Options<V>, log: seq<V>) {
    forall i :: 0 <= i < |log| && o.isTerminal(log[i]) ==> i == |log| - 1
  }

  function Values<V>(items: seq<Item<V>>): seq<V> {
    seq(|items|, i requires 0 <= i < |items| => items[i].value)
  }

  /** What has been delivered is the log between the first cursor and the present one, and
      a watch is done only at the end of the log. */
  ghost predicate Tracks<V>(o: Options<V>, log: seq<V>, t: Trace<V>) {
    && o.after <= t.state.cursor <= |log|
    && Values(Deliveries(t.outcomes)) == log[o.after..t.state.cursor]
    && (t.state.done ==> t.state.cursor == |log|)
  }

  lemma IterateOnLog<V>(o: Options<V>, log: seq<V>, s: State, turn: Turn<V>)
    requires o.Valid() && 0 < s.backoff <= o.maximumBackoff && TerminalIsLast(o, log) && Honest(o, log, turn)
    requires s.done ==> s.cursor == |log|
    ensures var (r, out) := Iterate(o, s, turn);
            && (r.done ==> r.cursor == |log|)
            && (if out.Some? && out.value.Delivered? then
                  r.cursor == s.cursor + 1 <= |log| && out.value.item.value == log[s.cursor]
                else r.cursor == s.cursor)
  {
  }

  lemma AdvanceTracks<V>(o: Options<V>, log: seq<V>, t: Trace<V>, turn: Turn<V>)
    requires o.Valid() && 0 < t.state.backoff <= o.maximumBackoff && TerminalIsLast(o, log)
    requires Tracks(o, log, t) && Honest(o, log, turn)
    ensures Tracks(o, log, Advance(o, t, turn))
  {
    IterateOnLog(o, log, t.state, turn);
    var (s, out) := Iterate(o, t.state, turn);
    if out.Some? {
      TracksOn(o, log, t, s, out.value);
    }
  }

  lemma TracksOn<V>(o: Options<V>, log: seq<V>, t: Trace<V>, s: State, x: Outcome<V>)
    requires Tracks(o, log, t) && (s.done ==> s.cursor == |log|)
    requires if x.Delivered? then s.cursor == t.state.cursor + 1 <= |log| && x.item.value == log[t.state.cursor]
             else s.cursor == t.state.cursor
    ensures forall retries: nat :: Tracks(o, log, Trace(s, t.outcomes + [x], retries))
  {
    DeliveriesSnoc(t.outcomes, x);
    if x.Delivered? {
      ValuesSnoc(Deliveries(t.outcomes), x.item, log, o.after, t.state.cursor);
    }
  }

  lemma DeliveriesSnoc<V>(outcomes: seq<Outcome<V>>, x: Outcome<V>)
    ensures Deliveries(outcomes + [x]) == if x.Delivered? then Deliveries(outcomes) + [x.item] else Deliveries(outcomes)
  {
    assert (outcomes + [x])[..|outcomes|] == outcomes;
  }

  lemma ValuesSnoc<V>(items: seq<Item<V>>, item: Item<V>, log: seq<V>, from: nat, to: nat)
    requires from <= to < |log| && Values(items) == log[from..to] && item.value == log[to]
    ensures Values(items + [item]) == log[from..to + 1]
  {
    assert Values(items + [item]) == Values(items) + [item.value];
  }

  /** Exactly once from at least once: for every script of open failures, stream errors,
      replays and ends of stream from an honest server, what Recv has returned is the log
      between the first cursor and the present one; and a finished watch missed nothing. */
  lemma {:induction false} ExactlyOnce<V>(o: Options<V>, log: seq<V>, turns: seq<Turn<V>>)
    requires o.Valid() && o.after <= |log| && TerminalIsLast(o, log)
    requires forall i :: 0 <= i < |turns| ==> Honest(o, log, turns[i])
    ensures Tracks(o, log, Run(o, turns))
    decreases |turns|
  {
    if turns != [] {
      var n := |turns| - 1;
      assert turns == turns[..n] + [turns[n]];
      ExactlyOnce(o, log, turns[..n]);
      ExecSnoc(o, Trace(Start(o), [], 0), turns[..n], turns[n]);
      AdvanceTracks(o, log, Run(o, turns[..n]), turns[n]);
    }
  }

  /** A watch is done only by delivering a terminal item or by proof that the same run is
      terminal at the exact cursor, and it never stops being done. */
  lemma DoneExactlyWhen<V>(o: Options<V>, t: Trace<V>, turn: Turn<V>)
    requires o.Valid() && 0 < t.state.backoff <= o.maximumBackoff
    ensures var r := Advance(o, t, turn);
            var delivered := |r.outcomes| > 0 && r.outcomes != t.outcomes && r.outcomes[|r.outcomes| - 1].Delivered?
                             && o.isTerminal(r.outcomes[|r.outcomes| - 1].item.value);
            var proved := && !turn.cancelled && (t.state.open || turn.open.Opened?)
                          && turn.recv.EndOfStream?
                          && turn.reconcile == Reconciled(o.runId, t.state.cursor, true);
            r.state.done <==> t.state.done || delivered || proved
  {
    var (s, out) := Iterate(o, t.state, turn);
    if out.Some? {
      var r := Advance(o, t, turn);
      assert r.outcomes[|r.outcomes| - 1] == out.value;
    }
  }

  /** A turn that only replays what has been delivered, on a stream that is open or that
      it opens. */
  predicate Replay<V>(o: Options<V>, s: State, turn: Turn<V>) {
    && !s.done && !turn.cancelled && (s.open || turn.open.Opened?)
    && turn.recv.Received? && turn.recv.item.runId == o.runId && turn.recv.item.sequence <= s.cursor
  }

  /** The trace with its stream closed again, if it is owed. */
  function Closed<V>(t: Trace<V>, owed: bool): Trace<V> {
    t.(state := t.state.(open := t.state.open && !owed))
  }

  /** The same script without the replays. When a replay has opened the stream, the
      opening is owed: the next turn that opens one does it instead. */
  function WithoutReplays<V>(o: Options<V>, t: Trace<V>, turns: seq<Turn<V>>, owed: bool): (seq<Turn<V>>, bool)
    requires o.Valid() && 0 < t.state.backoff <= o.maximumBackoff
    decreases |turns|
  {
    if turns == [] then ([], owed)
    else
      var turn, next := turns[0], Advance(o, t, turns[0]);
      if Replay(o, t.state, turn) then WithoutReplays(o, next, turns[1..], owed || !t.state.open)
      else
        var (rest, still) := WithoutReplays(o, next, turns[1..], owed && (t.state.done || turn.cancelled));
        ([if owed then turn.(open := Opened) else turn] + rest, still)
  }

  lemma OwedTurn<V>(o: Options<V>, t: Trace<V>, turn: Turn<V>)
    requires o.Valid() && 0 < t.state.backoff <= o.maximumBackoff && t.state.open
    ensures Advance(o, Closed(t, true), turn.(open := Opened))
         == Closed(Advance(o, t, turn), t.state.done || turn.cancelled)
  {
  }

  lemma ReplayTurn<V>(o: Options<V>, t: Trace<V>, turn: Turn<V>)
    requires o.Valid() && 0 < t.state.backoff <= o.maximumBackoff && Replay(o, t.state, turn)
    ensures Advance(o, t, turn) == t.(state := t.state.(open := true))
  {
  }

  /** Replays taken out of the streams, at any point, change neither what Recv returns nor
      the state it is left in, except that a stream opened for nothing but replays is not
      open. */
  lemma {:induction false} ReplaysAreInvisible<V>(o: Options<V>, t: Trace<V>, turns: seq<Turn<V>>, owed: bool)
    requires o.Valid() && 0 < t.state.backoff <= o.maximumBackoff && (owed ==> t.state.open)
    ensures var (kept, still) := WithoutReplays(o, t, turns, owed);
            Exec(o, Closed(t, owed), kept) == Closed(Exec(o, t, turns), still)
    decreases |turns|
  {
    hide Iterate, Advance;
    if turns != [] {
      var turn := turns[0];
      if Replay(o, t.state, turn) {
        ReplayTurn(o, t, turn);
        assert Closed(Advance(o, t, turn), owed || !t.state.open) == Closed(t, owed);
        ReplaysAreInvisible(o, Advance(o, t, turn), turns[1..], owed || !t.state.open);
      } else {
        var next, still := Advance(o, t, turn), owed && (t.state.done || turn.cancelled);
        var rest := WithoutReplays(o, next, turns[1..], still).0;
        var kept := if owed then turn.(open := Opened) else turn;
        StaysOpen(o, t, turn);
        if owed {
          OwedTurn(o, t, turn);
        }
        assert Closed(t, false) == t && Closed(next, false) == next;
        assert ([kept] + rest)[1..] == rest;
        ReplaysAreInvisible(o, next, turns[1..], still);
      }
    }
  }

  lemma StaysOpen<V>(o: Options<V>, t: Trace<V>, turn: Turn<V>)
    requires o.Valid() && 0 < t.state.backoff <= o.maximumBackoff
    ensures t.state.open && (t.state.done || turn.cancelled) ==> Advance(o, t, turn).state.open
  {
  }

  lemma {:induction false} ExecAppend<V>(o: Options<V>, t: Trace<V>, a: seq<Turn<V>>, b: seq<Turn<V>>)
    requires o.Valid() && 0 < t.state.backoff <= o.maximumBackoff
    ensures Exec(o, t, a + b) == Exec(o, Exec(o, t, a), b)
    decreases |a|
  {
    if a == [] {
      assert a + b == b;
    } else {
      assert (a + b)[1..] == a[1..] + b;
      ExecAppend(o, Advance(o, t, a[0]), a[1..], b);
    }
  }

  lemma ReplayThenTurn<V>(o: Options<V>, t: Trace<V>, turn: Turn<V>, item: Item<V>)
    requires o.Valid() && 0 < t.state.backoff <= o.maximumBackoff
    requires Replay(o, t.state, turn.(recv := Received(item)))
    ensures Exec(o, t, [turn.(recv := Received(item)), turn]) == Exec(o, t, [turn])
  {
    ReplayTurn(o, t, turn.(recv := Received(item)));
    assert [turn.(recv := Received(item)), turn][1..] == [turn] && [turn][1..] == [];
  }

  /** A replay put in front of anything a watcher receives, on an open stream or as the
      first item of a new one, changes nothing at all. */
  lemma InsertedReplayIsInvisible<V>(o: Options<V>, before: seq<Turn<V>>, turn: Turn<V>, item: Item<V>,
                                     later: seq<Turn<V>>)
    requires o.Valid() && Replay(o, Run(o, before).state, turn.(recv := Received(item)))
    ensures Run(o, before + [turn.(recv := Received(item)), turn] + later) == Run(o, before + [turn] + later)
  {
    var start, more := Trace(Start(o), [], 0), [turn.(recv := Received(item)), turn];
    ExecAppend(o, start, before + more, later);
    ExecAppend(o, start, before, more);
    ExecAppend(o, start, before + [turn], later);
    ExecAppend(o, start, before, [turn]);
    ReplayThenTurn(o, Run(o, before), turn, item);
  }
}
