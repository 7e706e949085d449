/** DictationController of apps/desktop/src/dictation.ts: ordered native replies, the
    current draft, and the speech buffered behind a send. Between two awaits a method is
    one step; a reply carries the generation it was asked for in. */
module DictationController {
  import opened Wrappers
  import opened Utf16
  import opened ComposerPaste
  import opened Dictation

  datatype Phase = Idle | Starting | Recording | Paused | Stopped | Failed

  datatype Event =
    | Level(level: int)
    | PhaseChange(phase: Phase)
    | Transcript(turn: int, update: Update)
    | Boundary(turn: int)
    | NativeFailure(code: string)

  datatype Problem =
    | Speech(fault: Fault)
    | BadLevel
    | Native(code: string)
    | BadBoundary
    | UnexpectedTurn
    | DraftTooLong

  datatype Buffer = Buffer(draft: Draft, cursor: Cursor)

  const EMPTY := Buffer(ComposerDraft([]), FRESH)

  datatype Config = Config(format: Formatter, punctuation: bool, byteLimit: nat)

  datatype State = State(cursor: Cursor, turn: int, sendTurn: Option<int>, pending: Buffer, generation: nat,
                         phase: Phase, session: Option<string>, busy: bool, sending: bool)

  const INITIAL := State(FRESH, 1, None, EMPTY, 0, Idle, None, false, false)

  // ----- one event -----

  /** Speech of a turn after the one being sent goes to the buffer. */
  predicate Buffers(s: State, turn: int) {
    s.sendTurn.Some? && turn > s.sendTurn.value
  }

  function Handle(cfg: Config, d: Draft, s: State, e: Event): Result<(Draft, State), Problem>
    requires WellBehaved(cfg.format)
  {
    match e
    case Level(level) => if 0 <= level <= 255 then Ok((d, s)) else Err(BadLevel)
    case PhaseChange(phase) => Ok((d, s.(phase := phase, session := if phase.Stopped? then None else s.session)))
    case NativeFailure(code) => Err(Native(code))
    case Boundary(turn) =>
      if turn != s.turn + 1 then Err(BadBoundary)
      else Ok((d, s.(turn := turn, cursor := if s.sendTurn.None? then FRESH else s.cursor)))
    case Transcript(turn, update) =>
      if turn != s.turn then Err(UnexpectedTurn)
      else
        var target := if Buffers(s, turn) then s.pending else Buffer(d, s.cursor);
        match TranscribeDraft(cfg.format, target.draft, target.cursor, update, cfg.punctuation)
        case Err(fault) => Err(Speech(fault))
        case Ok((draft, cursor)) =>
          if Utf8Length(Expand(draft)) > cfg.byteLimit then Err(DraftTooLong)
          else if Buffers(s, turn) then Ok((d, s.(pending := Buffer(draft, cursor))))
          else Ok((draft, s.(cursor := cursor)))
  }

  /** apply: events in order, up to the first that throws. */
  function HandleAll(cfg: Config, d: Draft, s: State, events: seq<Event>): (Draft, State, Option<Problem>)
    requires WellBehaved(cfg.format)
    decreases |events|
  {
    if events == [] then (d, s, None)
    else
      match Handle(cfg, d, s, events[0])
      case Err(problem) => (d, s, Some(problem))
      case Ok((d', s')) => HandleAll(cfg, d', s', events[1..])
  }

  // ----- the controller's steps -----

  datatype Op =
    | UserWrites(draft: Draft)
    | Ask(starting: bool)  // start or control goes out; its reply is one of the next two
    | StartReply(generation: nat, session: string)
    | Reply(generation: nat, events: seq<Event>, settles: bool)
    | BeginSend
    | EndSend
    | Reset

  function FailState(s: State): State {
    s.(phase := Failed, busy := false, session := None)
  }

  function EndSendDraft(d: Draft, pending: Draft): Draft {
    if pending.display != [] then Edit(d, Joined(d.display, pending.display), None) else d
  }

  function Step(cfg: Config, d: Draft, s: State, op: Op): (Draft, State)
    requires WellBehaved(cfg.format)
  {
    match op
    case UserWrites(draft) => (draft, s)
    case Ask(starting) =>
      if s.busy || starting == s.session.Some? then (d, s)
      else (d, s.(busy := true, phase := if starting then Starting else s.phase))
    case StartReply(generation, session) =>
      if generation != s.generation then (d, s)
      else (d, s.(cursor := FRESH, turn := 1, session := Some(session), busy := false))
    case Reply(generation, events, settles) =>
      if generation != s.generation then (d, s)
      else
        var (d', s', problem) := HandleAll(cfg, d, s, events);
        var s'' := if problem.Some? then FailState(s') else s';
        (d', if settles then s''.(busy := false) else s'')
    case BeginSend =>
      if s.sending || s.busy then (d, s)
      else (d, s.(sending := true, sendTurn := Some(s.turn), pending := EMPTY))
    case EndSend =>
      if s.sendTurn.None? then (d, s)
      else (EndSendDraft(d, s.pending.draft),
            s.(cursor := Rebase(d.display, s.pending.draft.display, s.pending.cursor),
               sendTurn := None, pending := EMPTY, sending := false))
    case Reset => (d, State(FRESH, 1, None, EMPTY, s.generation + 1, Idle, None, false, false))
  }

  class DraftPort {
    var draft: Draft

    constructor (draft: Draft)
      ensures this.draft == draft
    {
      this.draft := draft;
    }
  }

  class DictationController {
    const config: Config
    const port: DraftPort
    var cursor: Cursor
    var turn: int
    var sendTurn: Option<int>
    var pending: Buffer
    var generation: nat
    var phase: Phase
    var session: Option<string>
    var busy: bool
    var sending: bool

    function View(): State
      reads this
    {
      State(cursor, turn, sendTurn, pending, generation, phase, session, busy, sending)
    }

    constructor (config: Config, port: DraftPort)
      requires WellBehaved(config.format)
      ensures this.config == config && this.port == port && View() == INITIAL
    {
      this.config, this.port := config, port;
      cursor, turn, sendTurn, pending, generation := FRESH, 1, None, EMPTY, 0;
      phase, session, busy, sending := Idle, None, false, false;
    }

    method Apply(events: seq<Event>) returns (problem: Option<Problem>)
      requires WellBehaved(config.format)
      modifies this, port
      ensures (port.draft, View(), problem) == HandleAll(config, old(port.draft), old(View()), events)
    {
      for i := 0 to |events|
        invariant HandleAll(config, old(port.draft), old(View()), events)
               == HandleAll(config, port.draft, View(), events[i..])
      {
        assert events[i..][1..] == events[i + 1..];
        match events[i] {
          case Level(level) =>
            if !(0 <= level <= 255) {
              return Some(BadLevel);
            }
          case PhaseChange(next) =>
            phase := next;
            if next.Stopped? {
              session := None;
            }
          case NativeFailure(code) =>
            return Some(Native(code));
          case Boundary(next) =>
            if next != turn + 1 {
              return Some(BadBoundary);
            }
            turn := next;
            if sendTurn.None? {
              cursor := FRESH;
            }
          case Transcript(spoken, update) =>
            if spoken != turn {
              return Some(UnexpectedTurn);
            }
            var buffered := sendTurn.Some? && spoken > sendTurn.value;
            var current := if buffered then pending else Buffer(port.draft, cursor);
            match TranscribeDraft(config.format, current.draft, current.cursor, update, config.punctuation) {
              case Err(fault) =>
                return Some(Speech(fault));
              case Ok((draft, next)) =>
                if Utf8Length(Expand(draft)) > config.byteLimit {
                  return Some(DraftTooLong);
                }
                if buffered {
                  pending := Buffer(draft, next);
                } else {
                  cursor := next;
                  port.draft := draft;
                }
            }
        }
      }
      return None;
    }

    /** What poll, control and beginSend do with the events they are answered. */
    method Receive(asked: nat, events: seq<Event>, settles: bool)
      requires WellBehaved(config.format)
      modifies this, port
      ensures (port.draft, View()) == Step(config, old(port.draft), old(View()), Reply(asked, events, settles))
    {
      if asked != generation {
        return;
      }
      var problem := Apply(events);
      if problem.Some? {
        phase, busy, session := Failed, false, None;
      }
      if settles {
        busy := false;
      }
    }

    /** start and control, up to their first await. */
    method Ask(starting: bool)
      requires WellBehaved(config.format)
      modifies this
      ensures (port.draft, View()) == Step(config, old(port.draft), old(View()), Op.Ask(starting))
    {
      if busy || (starting && session.Some?) || (!starting && session.None?) {
        return;
      }
      busy := true;
      if starting {
        phase := Starting;
      }
    }

    method Started(asked: nat, id: string)
      requires WellBehaved(config.format)
      modifies this
      ensures (port.draft, View()) == Step(config, old(port.draft), old(View()), StartReply(asked, id))
    {
      if asked == generation {
        cursor, turn, session, busy := FRESH, 1, Some(id), false;
      }
    }

    method BeginSend() returns (begun: bool)
      requires WellBehaved(config.format)
      modifies this
      ensures (port.draft, View()) == Step(config, old(port.draft), old(View()), Op.BeginSend)
      ensures begun == !(old(sending) || old(busy))
    {
      if sending || busy {
        return false;
      }
      sending, sendTurn, pending := true, Some(turn), EMPTY;
      return true;
    }

    method EndSend()
      requires WellBehaved(config.format)
      modifies this, port
      ensures (port.draft, View()) == Step(config, old(port.draft), old(View()), Op.EndSend)
    {
      if sendTurn.None? {
        return;
      }
      var base := port.draft;
      var speech := pending.draft.display;
      if speech != [] {
        var joined := EditComposerDraft(base, Joined(base.display, speech), None);
        port.draft := joined;
      }
      cursor := Rebase(base.display, speech, pending.cursor);
      sendTurn, pending, sending := None, EMPTY, false;
    }

    method Reset()
      requires WellBehaved(config.format)
      modifies this
      ensures (port.draft, View()) == Step(config, old(port.draft), old(View()), Op.Reset)
    {
      generation := generation + 1;
      cursor, turn, sendTurn, pending := FRESH, 1, None, EMPTY;
      session, phase, busy, sending := None, Idle, false, false;
    }
  }

  // ----- what events do -----

  /** An event fails exactly for one of these reasons: a level out of range, a failure of the
      native side, a boundary that is not the next turn's, a transcript of another turn,
      speech that cannot be written, or a draft that would be too long in full. */
  lemma FailsExactlyWhen(cfg: Config, d: Draft, s: State, e: Event, problem: Problem)
    requires WellBehaved(cfg.format)
    ensures var later := e.Transcript? && s.sendTurn.Some? && e.turn > s.sendTurn.value;
            var target := if later then s.pending else Buffer(d, s.cursor);
            Handle(cfg, d, s, e) == Err(problem)
            <==> match problem
                 case BadLevel => e.Level? && (e.level < 0 || e.level > 255)
                 case Native(code) => e == NativeFailure(code)
                 case BadBoundary => e.Boundary? && e.turn != s.turn + 1
                 case UnexpectedTurn => e.Transcript? && e.turn != s.turn
                 case Speech(fault) =>
                   && e.Transcript? && e.turn == s.turn
                   && TranscribeDraft(cfg.format, target.draft, target.cursor, e.update, cfg.punctuation) == Err(fault)
                 case DraftTooLong =>
                   && e.Transcript? && e.turn == s.turn
                   && var r := TranscribeDraft(cfg.format, target.draft, target.cursor, e.update, cfg.punctuation);
                      r.Ok? && |Encode(Expand(r.value.0))| > cfg.byteLimit
  {
    hide TranscribeDraft, Expand;
    if e.Transcript? {
      var target := if Buffers(s, e.turn) then s.pending else Buffer(d, s.cursor);
      var r := TranscribeDraft(cfg.format, target.draft, target.cursor, e.update, cfg.punctuation);
      if r.Ok? {
        Utf8LengthIsExact(Expand(r.value.0));
      }
    }
  }

  /** The turns that events begin. */
  function TurnsBegun(events: seq<Event>): nat {
    if events == [] then 0 else (if events[0].Boundary? then 1 else 0) + TurnsBegun(events[1..])
  }

  /** Levels in range, no failure, each boundary the next turn's and each transcript of the
      present turn. */
  predicate InSequence(turn: int, events: seq<Event>)
    decreases |events|
  {
    events == [] ||
    match events[0]
    case Level(level) => 0 <= level <= 255 && InSequence(turn, events[1..])
    case NativeFailure(_) => false
    case Boundary(next) => next == turn + 1 && InSequence(next, events[1..])
    case Transcript(spoken, _) => spoken == turn && InSequence(turn, events[1..])
    case PhaseChange(_) => InSequence(turn, events[1..])
  }

  function LastPhase(phase: Phase, events: seq<Event>): Phase
    decreases |events|
  {
    if events == [] then phase
    else LastPhase(if events[0].PhaseChange? then events[0].phase else phase, events[1..])
  }

  /** Events that all go through were in sequence; the turn has gone on by those begun, the
      phase is the last one reported, and the session is over if one of them stopped it.
      Events in sequence fail only for what is said in them. */
  lemma {:induction false} EventsInSequence(cfg: Config, d: Draft, s: State, events: seq<Event>)
    requires WellBehaved(cfg.format)
    ensures var (_, s', problem) := HandleAll(cfg, d, s, events);
            && (problem.None? ==>
                  && InSequence(s.turn, events)
                  && s'.turn == s.turn + TurnsBegun(events) && s'.phase == LastPhase(s.phase, events)
                  && s'.session == (if PhaseChange(Stopped) in events then None else s.session))
            && (problem.Some? && InSequence(s.turn, events) ==> problem.value.Speech? || problem.value.DraftTooLong?)
            && s'.generation == s.generation && s'.busy == s.busy && s'.sending == s.sending
            && s'.sendTurn == s.sendTurn
    decreases |events|
  {
    hide TranscribeDraft, Expand;
    if events != [] {
      assert events == [events[0]] + events[1..];
      match Handle(cfg, d, s, events[0]) {
        case Err(_) =>
        case Ok((d', s')) => EventsInSequence(cfg, d', s', events[1..]);
      }
    }
  }

  /** What events write while nothing is being sent: each transcript into the draft, behind a
      fresh cursor after every boundary. */
  function Dictated(cfg: Config, b: Buffer, events: seq<Event>): Result<Buffer, Fault>
    requires WellBehaved(cfg.format)
    decreases |events|
  {
    if events == [] then Ok(b)
    else
      match events[0]
      case Transcript(_, update) =>
        var r := TranscribeDraft(cfg.format, b.draft, b.cursor, update, cfg.punctuation);
        if r.Ok? then Dictated(cfg, Buffer(r.value.0, r.value.1), events[1..]) else Err(r.error)
      case Boundary(_) => Dictated(cfg, b.(cursor := FRESH), events[1..])
      case _ => Dictated(cfg, b, events[1..])
  }

  lemma {:induction false} SpeechGoesToTheDraft(cfg: Config, d: Draft, s: State, events: seq<Event>)
    requires WellBehaved(cfg.format) && s.sendTurn.None? && HandleAll(cfg, d, s, events).2.None?
    ensures var (d', s', _) := HandleAll(cfg, d, s, events);
            Dictated(cfg, Buffer(d, s.cursor), events) == Ok(Buffer(d', s'.cursor)) && s'.pending == s.pending
    decreases |events|
  {
    hide TranscribeDraft, Expand;
    if events != [] {
      match Handle(cfg, d, s, events[0]) {
        case Err(_) =>
        case Ok((d', s')) => SpeechGoesToTheDraft(cfg, d', s', events[1..]);
      }
    }
  }

  /** A reply that fails leaves the controller failed and without a session, with the draft
      and the buffer the events before it have made; one of another generation does nothing. */
  lemma RepliesFailSafely(cfg: Config, d: Draft, s: State, generation: nat, events: seq<Event>, settles: bool)
    requires WellBehaved(cfg.format)
    ensures var (d', s') := Step(cfg, d, s, Reply(generation, events, settles));
            var (e, t, problem) := HandleAll(cfg, d, s, events);
            if generation != s.generation then d' == d && s' == s
            else
              && d' == e && s'.pending == t.pending && s'.cursor == t.cursor && s'.turn == t.turn
              && (if problem.Some? then s'.phase == Failed && s'.session == None && !s'.busy
                  else s'.phase == t.phase && s'.session == t.session && s'.busy == (s.busy && !settles))
  {
    hide Handle;
    EventsInSequence(cfg, d, s, events);
  }

  /** A request goes out exactly when none is under way and it fits the session: a start when
      there is none, a control when there is one. A start that is answered begins the first
      turn afresh. A send begins exactly when none is under way, for the present turn, with
      an empty buffer. A reset forgets everything but the draft. */
  lemma ControlsExactlyWhen(cfg: Config, d: Draft, s: State, op: Op)
    requires WellBehaved(cfg.format)
    ensures var (d', s') := Step(cfg, d, s, op);
            && (op.Ask? ==>
                  && d' == d
                  && (s' != s ==> !s.busy && (op.starting <==> s.session.None?))
                  && (!s.busy && (op.starting <==> s.session.None?) ==>
                        && s'.busy && (op.starting ==> s'.phase == Starting)
                        && s' == s.(busy := true, phase := s'.phase) && (!op.starting ==> s'.phase == s.phase)))
            && (op.StartReply? && op.generation == s.generation ==>
                  && d' == d && s'.turn == 1 && s'.session == Some(op.session) && !s'.busy
                  && s'.cursor == Cursor(0, 0, true, None, None)
                  && s'.pending == s.pending && s'.sendTurn == s.sendTurn && s'.generation == s.generation)
            && (op.BeginSend? ==>
                  && d' == d
                  && (if s.sending || s.busy then s' == s
                      else
                        && s'.sending && s'.sendTurn == Some(s.turn)
                        && s'.pending.draft == Draft([], []) && s'.pending.cursor == Cursor(0, 0, true, None, None)
                        && s'.cursor == s.cursor && s'.turn == s.turn && s'.session == s.session))
            && (op.Reset? ==>
                  && d' == d && s'.generation == s.generation + 1 && s'.turn == 1 && s'.sendTurn == None
                  && s'.session == None && !s'.busy && !s'.sending && s'.phase == Idle
                  && s'.cursor == Cursor(0, 0, true, None, None) && s'.pending == EMPTY)
            && (op.UserWrites? ==> d' == op.draft && s' == s)
  {
    hide HandleAll, Rebase, EndSendDraft;
  }

  /** Ending a send joins the buffered speech to the draft, spaced, and empties the buffer;
      without a send it does nothing. */
  lemma EndSendJoins(cfg: Config, d: Draft, s: State)
    requires WellBehaved(cfg.format)
    ensures var (d', s') := Step(cfg, d, s, EndSend);
            if s.sendTurn.None? then d' == d && s' == s
            else
              && d'.display == Spaced(d.display, s.pending.draft.display)
              && s'.pending == EMPTY && s'.sendTurn == None && !s'.sending
              && s'.turn == s.turn && s'.session == s.session && s'.phase == s.phase && s'.busy == s.busy
  {
    hide Edit, Rebase, Joined, HandleAll, IsSpace;
    var speech := s.pending.draft.display;
    JoinedIsSpaced(d.display, speech);
    EditShows(d, Joined(d.display, speech), None);
    if speech == [] {
      assert d.display + [] == d.display;
    }
  }

  // ----- stale replies -----

  function StepAll(cfg: Config, d: Draft, s: State, ops: seq<Op>): (Draft, State)
    requires WellBehaved(cfg.format)
  {
    if ops == [] then (d, s)
    else
      var (d', s') := StepAll(cfg, d, s, ops[..|ops| - 1]);
      Step(cfg, d', s', ops[|ops| - 1])
  }

  lemma {:induction false} EventsKeepGeneration(cfg: Config, d: Draft, s: State, events: seq<Event>)
    requires WellBehaved(cfg.format)
    ensures HandleAll(cfg, d, s, events).1.generation == s.generation
    decreases |events|
  {
    if events != [] {
      match Handle(cfg, d, s, events[0]) {
        case Err(_) =>
        case Ok((d', s')) => EventsKeepGeneration(cfg, d', s', events[1..]);
      }
    }
  }

  lemma {:induction false} GenerationsRise(cfg: Config, d: Draft, s: State, ops: seq<Op>)
    requires WellBehaved(cfg.format)
    ensures StepAll(cfg, d, s, ops).1.generation >= s.generation
  {
    if ops != [] {
      GenerationsRise(cfg, d, s, ops[..|ops| - 1]);
      var (d', s') := StepAll(cfg, d, s, ops[..|ops| - 1]);
      var op := ops[|ops| - 1];
      if op.Reply? {
        EventsKeepGeneration(cfg, d', s', op.events);
      }
    }
  }

  /** After a reset, whatever else happens, a reply asked for before it changes nothing:
      neither the draft nor any state. */
  lemma StaleRepliesAreIgnored(cfg: Config, d: Draft, s: State, later: seq<Op>, reply: Op)
    requires WellBehaved(cfg.format)
    requires (reply.Reply? || reply.StartReply?) && reply.generation <= s.generation
    ensures var (d0, s0) := Step(cfg, d, s, Reset);
            var (d1, s1) := StepAll(cfg, d0, s0, later);
            Step(cfg, d1, s1, reply) == (d1, s1)
  {
    var (d0, s0) := Step(cfg, d, s, Reset);
    GenerationsRise(cfg, d0, s0, later);
  }

  // ----- the buffer -----

  ghost predicate BufferIntact(s: State) {
    && s.pending.draft.pastes == []
    && Buffered(s.pending.draft.display, s.pending.cursor)
  }

  lemma EventKeepsBuffer(cfg: Config, d: Draft, s: State, e: Event)
    requires WellBehaved(cfg.format) && BufferIntact(s)
    ensures match Handle(cfg, d, s, e)
            case Ok((_, s')) => BufferIntact(s')
            case Err(problem) => e.Transcript? && Buffers(s, e.turn) ==> problem != Speech(DraftChanged)
  {
    hide Speak, Edit, InPlace;
    if e.Transcript? && Buffers(s, e.turn) {
      var p := s.pending;
      EndSendCommutesWithSpeech(cfg.format, [], p.draft.display, p.cursor, e.update, cfg.punctuation);
      match Speak(cfg.format, p.draft.display, p.cursor, e.update, cfg.punctuation) {
        case Ok((display, _)) => EditWithoutPastes(p.draft, display);
        case Err(_) =>
      }
    }
  }

  lemma EditWithoutPastes(d: Draft, next: Text)
    requires d.pastes == []
    ensures Edit(d, next, None) == Draft(next, [])
  {
    EditShows(d, next, None);
  }

  lemma {:induction false} EventsKeepBuffer(cfg: Config, d: Draft, s: State, events: seq<Event>)
    requires WellBehaved(cfg.format) && BufferIntact(s)
    ensures BufferIntact(HandleAll(cfg, d, s, events).1)
    decreases |events|
  {
    if events != [] {
      EventKeepsBuffer(cfg, d, s, events[0]);
      match Handle(cfg, d, s, events[0]) {
        case Err(_) =>
        case Ok((d', s')) => EventsKeepBuffer(cfg, d', s', events[1..]);
      }
    }
  }

  /** In every reachable state the buffer is plain speech with its slots at its end, so
      writing to it never finds the draft changed. */
  lemma {:induction false} BufferStaysIntact(cfg: Config, d: Draft, ops: seq<Op>)
    requires WellBehaved(cfg.format)
    ensures BufferIntact(StepAll(cfg, d, INITIAL, ops).1)
  {
    if ops != [] {
      BufferStaysIntact(cfg, d, ops[..|ops| - 1]);
      var (d', s') := StepAll(cfg, d, INITIAL, ops[..|ops| - 1]);
      var op := ops[|ops| - 1];
      if op.Reply? {
        EventsKeepBuffer(cfg, d', s', op.events);
      }
    }
  }

  lemma {:induction false} EventsKeepOrdered(cfg: Config, d: Draft, s: State, events: seq<Event>)
    requires WellBehaved(cfg.format) && Ordered(s.cursor)
    ensures Ordered(HandleAll(cfg, d, s, events).1.cursor)
    decreases |events|
  {
    hide Ordered, Speak, Edit;
    if events != [] {
      if events[0].Transcript? {
        SpeakingKeepsOrdered(cfg.format, d.display, s.cursor, events[0].update, cfg.punctuation);
      }
      FreshIsOrdered();
      match Handle(cfg, d, s, events[0]) {
        case Err(_) =>
        case Ok((d', s')) => EventsKeepOrdered(cfg, d', s', events[1..]);
      }
    }
  }

  lemma FreshIsOrdered()
    ensures Ordered(FRESH)
  {
  }

  /** In every reachable state no slot of the cursor ends before its start. */
  lemma {:induction false} CursorStaysOrdered(cfg: Config, d: Draft, ops: seq<Op>)
    requires WellBehaved(cfg.format)
    ensures Ordered(StepAll(cfg, d, INITIAL, ops).1.cursor)
  {
    hide HandleAll, Rebase, Edit;
    if ops != [] {
      CursorStaysOrdered(cfg, d, ops[..|ops| - 1]);
      BufferStaysIntact(cfg, d, ops[..|ops| - 1]);
      var (d', s') := StepAll(cfg, d, INITIAL, ops[..|ops| - 1]);
      var op := ops[|ops| - 1];
      if op.Reply? {
        EventsKeepOrdered(cfg, d', s', op.events);
      } else if op.EndSend? {
        RebasingKeepsOrdered(d'.display, s'.pending.draft.display, s'.pending.cursor);
      }
    }
  }

  // ----- what a send does to speech -----

  /** The updates of transcripts up to a turn, or after it. */
  function Spoken(events: seq<Event>, turn: int, after: bool): seq<Update> {
    if events == [] then []
    else
      var rest := Spoken(events[1..], turn, after);
      if events[0].Transcript? && (events[0].turn > turn) == after then [events[0].update] + rest else rest
  }

  function WriteAll(cfg: Config, b: Buffer, updates: seq<Update>): Result<Buffer, Fault>
    requires WellBehaved(cfg.format)
    decreases |updates|
  {
    if updates == [] then Ok(b)
    else
      match TranscribeDraft(cfg.format, b.draft, b.cursor, updates[0], cfg.punctuation)
      case Err(fault) => Err(fault)
      case Ok((draft, cursor)) => WriteAll(cfg, Buffer(draft, cursor), updates[1..])
  }

  lemma EventSplits(cfg: Config, d: Draft, s: State, e: Event)
    requires WellBehaved(cfg.format) && s.sendTurn.Some? && Handle(cfg, d, s, e).Ok?
    ensures var (d', s') := Handle(cfg, d, s, e).value;
            var own, next := Buffer(d, s.cursor), s.pending;
            && s'.sendTurn == s.sendTurn
            && (if e.Transcript? && e.turn <= s.sendTurn.value then
                  TranscribeDraft(cfg.format, d, s.cursor, e.update, cfg.punctuation) == Ok((d', s'.cursor))
                else d' == d && s'.cursor == s.cursor)
            && (if e.Transcript? && e.turn > s.sendTurn.value then
                  TranscribeDraft(cfg.format, next.draft, next.cursor, e.update, cfg.punctuation)
                  == Ok((s'.pending.draft, s'.pending.cursor))
                else s'.pending == s.pending)
  {
  }

  /** While a turn is being sent, the events handled - all of them, or those before one that
      throws - write its own speech to the draft, and the speech of later turns to the
      buffer and nowhere else. */
  lemma {:induction false} SendSplitsSpeech(cfg: Config, d: Draft, s: State, events: seq<Event>) returns (n: nat)
    requires WellBehaved(cfg.format) && s.sendTurn.Some?
    ensures n <= |events|
    ensures var (d', s', problem) := HandleAll(cfg, d, s, events);
            var turn := s.sendTurn.value;
            && (if problem.None? then n == |events|
                else n < |events| && Handle(cfg, d', s', events[n]) == Err(problem.value))
            && s'.sendTurn == s.sendTurn
            && WriteAll(cfg, Buffer(d, s.cursor), Spoken(events[..n], turn, false)) == Ok(Buffer(d', s'.cursor))
            && WriteAll(cfg, s.pending, Spoken(events[..n], turn, true)) == Ok(s'.pending)
    decreases |events|
  {
    hide Handle, Spoken, WriteAll, TranscribeDraft;
    n := 0;
    var turn := s.sendTurn.value;
    SpokenNone(turn);
    WriteNone(cfg, Buffer(d, s.cursor));
    WriteNone(cfg, s.pending);
    assert events[..0] == [];
    if events != [] && Handle(cfg, d, s, events[0]).Ok? {
      var e := events[0];
      var (d1, s1) := Handle(cfg, d, s, e).value;
      EventSplits(cfg, d, s, e);
      var m := SendSplitsSpeech(cfg, d1, s1, events[1..]);
      n := m + 1;
      SpokenFirst(events, m, turn, false);
      SpokenFirst(events, m, turn, true);
      if e.Transcript? && e.turn > turn {
        WriteFirst(cfg, s.pending, e.update, Spoken(events[1..][..m], turn, true));
      } else if e.Transcript? {
        WriteFirst(cfg, Buffer(d, s.cursor), e.update, Spoken(events[1..][..m], turn, false));
      }
    }
  }

  lemma SpokenNone(turn: int)
    ensures Spoken([], turn, false) == Spoken([], turn, true) == []
  {
  }

  lemma WriteNone(cfg: Config, b: Buffer)
    requires WellBehaved(cfg.format)
    ensures WriteAll(cfg, b, []) == Ok(b)
  {
  }

  lemma SpokenFirst(events: seq<Event>, m: nat, turn: int, after: bool)
    requires m < |events|
    ensures var e, rest := events[0], Spoken(events[1..][..m], turn, after);
            Spoken(events[..m + 1], turn, after)
            == if e.Transcript? && (e.turn > turn) == after then [e.update] + rest else rest
  {
    assert events[..m + 1][1..] == events[1..][..m];
  }

  lemma WriteFirst(cfg: Config, b: Buffer, u: Update, rest: seq<Update>)
    requires WellBehaved(cfg.format)
    ensures var r := TranscribeDraft(cfg.format, b.draft, b.cursor, u, cfg.punctuation);
            WriteAll(cfg, b, [u] + rest)
            == if r.Ok? then WriteAll(cfg, Buffer(r.value.0, r.value.1), rest) else Err(r.error)
  {
    assert ([u] + rest)[1..] == rest;
  }

  /** Buffering is invisible: the later speech, buffered and then appended when the send
      ends, reads - and goes on - as if it had been spoken into the draft itself. */
  lemma {:induction false} BufferingIsInvisible(format: Formatter, base: Text, speech: Text, c: Cursor,
                                                updates: seq<Update>, punctuation: bool)
    requires WellBehaved(format) && Buffered(speech, c)
    ensures var direct := SpeakAll(format, Joined(base, speech), Rebase(base, speech, c), updates, punctuation);
            match SpeakAll(format, speech, c, updates, punctuation)
            case Err(fault) => direct == Err(fault)
            case Ok((speech', c')) => direct == Ok((Joined(base, speech'), Rebase(base, speech', c')))
    decreases |updates|
  {
    if updates != [] {
      EndSendCommutesWithSpeech(format, base, speech, c, updates[0], punctuation);
      match Speak(format, speech, c, updates[0], punctuation) {
        case Err(_) =>
        case Ok((speech', c')) => BufferingIsInvisible(format, base, speech', c', updates[1..], punctuation);
      }
    }
  }

  /** endSend appends all of the buffered speech and loses nothing of the draft: neither
      its visible text nor what its placeholders hide; and both slots are in place. */
  lemma EndSendConserves(cfg: Config, d: Draft, s: State)
    requires WellBehaved(cfg.format) && WellFormed(d) && BufferIntact(s) && s.sendTurn.Some?
    ensures var (d', s') := Step(cfg, d, s, EndSend);
            var speech := s.pending.draft.display;
            && d'.display == Joined(d.display, speech)
            && PlainText(d') == PlainText(d) + Gap(d.display, speech) + speech
            && WellFormed(d') && InPlace(d'.display, s'.cursor) && s'.pending == EMPTY
  {
    hide InPlace, Rebase, Gap, PlainText, WellFormed;
    RebaseKeepsSlots(d.display, s.pending.draft.display, s.pending.cursor);
    EndSendMeans(d, s.pending.draft);
  }

  lemma EndSendMeans(d: Draft, pending: Draft)
    requires WellFormed(d)
    ensures var e := EndSendDraft(d, pending);
            && e.display == Joined(d.display, pending.display) && WellFormed(e)
            && PlainText(e) == PlainText(d) + Gap(d.display, pending.display) + pending.display
  {
    if pending.display != [] {
      AppendBoth(d, Gap(d.display, pending.display), pending.display);
    }
  }

  lemma AppendBoth(d: Draft, gap: Text, speech: Text)
    requires WellFormed(d) && speech != []
    ensures var e := Edit(d, d.display + gap + speech, None);
            e.display == d.display + gap + speech && WellFormed(e) && PlainText(e) == PlainText(d) + gap + speech
  {
    AppendMeans(d, gap + speech);
    assert d.display + (gap + speech) == d.display + gap + speech;
    assert PlainText(d) + (gap + speech) == PlainText(d) + gap + speech;
  }

  lemma AppendMeans(d: Draft, more: Text)
    requires WellFormed(d) && more != []
    ensures var e := Edit(d, d.display + more, None);
            e.display == d.display + more && WellFormed(e) && PlainText(e) == PlainText(d) + more
  {
    var next, n := d.display + more, |d.display|;
    EditKeepsUntouched(d, next, None);
    EditRefinesPlainText(d, next, None);
    LongPrefix(d.display, next, n, 0);
    assert Hunk(d, next) == (n, n);
    assert next[n..] == more;
    assert Spared(d.pastes, None) == d.pastes by { NothingSpared(d.pastes); }
  }
}
