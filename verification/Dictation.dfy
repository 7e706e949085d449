/** Speech written into a draft (apps/desktop/src/dictation.ts): one partial slot that is
    revised in place, and its rebasing across a send boundary. The punctuation formatter
    is a parameter; its tail lies within its text. */
module Dictation {
  import opened Wrappers
  import opened Utf16
  import opened ComposerPaste
  import opened SlotEdits

  const MAX_SAFE_INTEGER := 0x1F_FFFF_FFFF_FFFF
  const MAX_UPDATE_BYTES := 8192

  datatype FormattedTail = FormattedTail(raw: Text, offset: nat)
  datatype Formatted = Formatted(text: Text, tail: Option<FormattedTail>)
  type Formatter = Text -> Formatted

  ghost predicate WellBehaved(format: Formatter) {
    forall raw :: format(raw).tail.Some? ==> format(raw).tail.value.offset <= |format(raw).text|
  }

  datatype Update = Update(segment: int, revision: int, final: bool, text: Text)

  datatype Partial = Partial(start: nat, end: nat, text: Text, separator: Text, rawPrefix: Text)
  datatype PunctuationTail = PunctuationTail(start: nat, end: nat, text: Text, raw: Text)
  datatype Cursor = Cursor(segment: int, revision: int, final: bool,
                           partial: Option<Partial>, tail: Option<PunctuationTail>)

  const FRESH := Cursor(0, 0, true, None, None)

  datatype Fault = InvalidUpdate | NotFinalized | DraftChanged

  predicate EndsInSpace(t: Text) {
    t != [] && IsSpace(t[|t| - 1])
  }

  /** The text begins with a line feed or one of . , ? ! : ; */
  predicate StartsTight(t: Text) {
    t != [] && t[0] in [LF, 46, 44, 63, 33, 58, 59]
  }

  function Separator(before: Text): Text {
    if before != [] && !EndsInSpace(before) then SPACE else []
  }

  predicate Invalid(u: Update) {
    !(1 <= u.segment <= MAX_SAFE_INTEGER) || !(1 <= u.revision <= MAX_SAFE_INTEGER)
        || Utf8Length(u.text) > MAX_UPDATE_BYTES
  }

  predicate Outdated(c: Cursor, u: Update) {
    u.segment < c.segment || (u.segment == c.segment && (c.final || u.revision <= c.revision))
  }

  /** Where an accepted update writes, and what it continues. */
  datatype Slot = Slot(start: nat, end: nat, separator: Text, rawPrefix: Text)

  function SlotFor(display: Text, c: Cursor, segment: int, punctuation: bool): Slot {
    if segment == c.segment && c.partial.Some? then
      var p := c.partial.value;
      Slot(p.start, p.end, p.separator, p.rawPrefix)
    else
      var tail := if punctuation && c.tail.Some? && c.tail.value.end == |display|
                     && Slice(display, c.tail.value.start, c.tail.value.end) == c.tail.value.text then c.tail else None;
      match tail
      case None => Slot(|display|, |display|, Separator(display), [])
      case Some(t) => Slot(t.start, t.end, Separator(Slice(display, 0, t.start)), t.raw)
  }

  function Recognised(rawPrefix: Text, text: Text): Text {
    var spoken := Trim(text);
    if rawPrefix != [] then rawPrefix + (if spoken != [] then SPACE + spoken else []) else spoken
  }

  function Formatting(format: Formatter, punctuation: bool, raw: Text): Formatted {
    if punctuation then format(raw) else Formatted(raw, None)
  }

  function Join(f: Formatted, separator: Text): Text {
    if StartsTight(f.text) then [] else separator
  }

  function Written(f: Formatted, separator: Text): Text {
    if f.text != [] then Join(f, separator) + f.text else []
  }

  function NextCursor(u: Update, slot: Slot, f: Formatted): Cursor
    requires f.tail.Some? ==> f.tail.value.offset <= |f.text|
  {
    var join, text := Join(f, slot.separator), Written(f, slot.separator);
    var end := slot.start + |text|;
    Cursor(u.segment, u.revision, u.final,
           if u.final then None else Some(Partial(slot.start, end, text, slot.separator, slot.rawPrefix)),
           if !u.final || f.tail.None? then None
           else
             var offset := f.tail.value.offset;
             Some(PunctuationTail(
               slot.start + (if offset == 0 then 0 else |join| + offset), end,
               if offset == 0 then text else f.text[offset..],
               f.tail.value.raw)))
  }

  /** Put the formatted speech into the slot. */
  function Write(format: Formatter, display: Text, slot: Slot, u: Update, punctuation: bool): (Text, Cursor)
    requires WellBehaved(format)
  {
    var f := Formatting(format, punctuation, Recognised(slot.rawPrefix, u.text));
    (Slice(display, 0, slot.start) + Written(f, slot.separator) + Slice(display, slot.end, |display|),
     NextCursor(u, slot, f))
  }

  /** transcribeDraft on the display alone. */
  function Speak(format: Formatter, display: Text, c: Cursor, u: Update, punctuation: bool)
    : Result<(Text, Cursor), Fault>
    requires WellBehaved(format)
  {
    if Invalid(u) then Err(InvalidUpdate)
    else if Outdated(c, u) then Ok((display, c))
    else if u.segment > c.segment && c.partial.Some? then Err(NotFinalized)
    else
      var slot := SlotFor(display, c, u.segment, punctuation);
      if u.segment == c.segment && c.partial.Some? && Slice(display, slot.start, slot.end) != c.partial.value.text then
        Err(DraftChanged)
      else Ok(Write(format, display, slot, u, punctuation))
  }

  function TranscribeDraft(format: Formatter, d: Draft, c: Cursor, u: Update, punctuation: bool)
    : Result<(Draft, Cursor), Fault>
    requires WellBehaved(format)
  {
    match Speak(format, d.display, c, u, punctuation)
    case Err(fault) => Err(fault)
    case Ok((display, cursor)) =>
      if Outdated(c, u) then Ok((d, c)) else Ok((Edit(d, display, None), cursor))
  }

  // ----- the slots -----

  predicate Shows(display: Text, start: nat, end: nat, text: Text) {
    start <= end <= |display| && display[start..end] == text
  }

  /** The partial and the punctuation tail are where the cursor says they are. */
  ghost predicate InPlace(display: Text, c: Cursor) {
    && (c.partial.Some? ==> Shows(display, c.partial.value.start, c.partial.value.end, c.partial.value.text))
    && (c.tail.Some? ==> Shows(display, c.tail.value.start, c.tail.value.end, c.tail.value.text))
  }

  /** What was before a slot is still before it, what was behind it still at the end. */
  ghost predicate OnlySlot(display: Text, after: Text, slot: Slot) {
    && slot.start <= slot.end <= |display|
    && |after| >= slot.start + (|display| - slot.end)
    && after[..slot.start] == display[..slot.start]
    && after[|after| - (|display| - slot.end)..] == display[slot.end..]
  }

  lemma Placed(head: Text, text: Text, tail: Text, k: nat)
    requires k <= |text|
    ensures Shows(head + text + tail, |head| + k, |head| + |text|, text[k..])
    ensures (head + text + tail)[..|head|] == head && (head + text + tail)[|head| + |text|..] == tail
  {
  }

  lemma CursorInPlace(head: Text, tail: Text, slot: Slot, u: Update, f: Formatted)
    requires f.tail.Some? ==> f.tail.value.offset <= |f.text|
    requires slot.start == |head|
    ensures InPlace(head + Written(f, slot.separator) + tail, NextCursor(u, slot, f))
  {
    var text := Written(f, slot.separator);
    Placed(head, text, tail, 0);
    assert text[0..] == text;
    if u.final && f.tail.Some? && f.tail.value.offset > 0 {
      var join := Join(f, slot.separator);
      Placed(head, text, tail, |join| + f.tail.value.offset);
      assert text[|join| + f.tail.value.offset..] == f.text[f.tail.value.offset..];
    }
  }

  lemma WriteOwnsItsSlot(format: Formatter, display: Text, slot: Slot, u: Update, punctuation: bool)
    requires WellBehaved(format) && slot.start <= slot.end <= |display|
    ensures var (after, c') := Write(format, display, slot, u, punctuation);
            InPlace(after, c') && OnlySlot(display, after, slot)
  {
    var f := Formatting(format, punctuation, Recognised(slot.rawPrefix, u.text));
    CursorInPlace(display[..slot.start], display[slot.end..], slot, u, f);
    Placed(display[..slot.start], Written(f, slot.separator), display[slot.end..], 0);
  }

  /** An update that is neither invalid nor outdated, and does not leave a segment open. */
  predicate Accepted(c: Cursor, u: Update) {
    !Invalid(u) && !Outdated(c, u) && (u.segment > c.segment ==> c.partial.None?)
  }

  lemma SpeakWrites(format: Formatter, display: Text, c: Cursor, u: Update, punctuation: bool)
    requires WellBehaved(format) && InPlace(display, c) && Accepted(c, u)
    ensures var slot := SlotFor(display, c, u.segment, punctuation);
            && slot.start <= slot.end <= |display|
            && Speak(format, display, c, u, punctuation) == Ok(Write(format, display, slot, u, punctuation))
  {
  }

  lemma SpeakRejects(format: Formatter, display: Text, c: Cursor, u: Update, punctuation: bool)
    requires WellBehaved(format) && !Accepted(c, u)
    ensures Speak(format, display, c, u, punctuation)
         == if Invalid(u) then Err(InvalidUpdate) else if Outdated(c, u) then Ok((display, c)) else Err(NotFinalized)
  {
  }

  /** An update writes its own slot and nothing else, leaves the slots in place, and moves
      the cursor forward - or it is outdated and changes nothing. */
  lemma SpeakOwnsItsSlot(format: Formatter, display: Text, c: Cursor, u: Update, punctuation: bool)
    requires WellBehaved(format) && InPlace(display, c)
    ensures match Speak(format, display, c, u, punctuation)
            case Err(fault) => fault != DraftChanged
            case Ok((after, c')) =>
              if Outdated(c, u) then after == display && c' == c
              else
                && InPlace(after, c')
                && OnlySlot(display, after, SlotFor(display, c, u.segment, punctuation))
                && (c'.segment > c.segment || (c'.segment == c.segment && c'.revision > c.revision))
  {
    if Accepted(c, u) {
      SpeakWrites(format, display, c, u, punctuation);
      WriteOwnsItsSlot(format, display, SlotFor(display, c, u.segment, punctuation), u, punctuation);
    } else {
      SpeakRejects(format, display, c, u, punctuation);
    }
  }

  // ----- what is written -----

  /** The update is not outdated, and is written. */
  predicate Takes(format: Formatter, display: Text, c: Cursor, u: Update, punctuation: bool)
    requires WellBehaved(format)
  {
    !Outdated(c, u) && Speak(format, display, c, u, punctuation).Ok?
  }

  /** No slot ends before its start: so it is with every cursor that comes about. */
  predicate Ordered(c: Cursor) {
    && (c.partial.Some? ==> c.partial.value.start <= c.partial.value.end)
    && (c.tail.Some? ==> c.tail.value.start <= c.tail.value.end)
  }

  lemma SliceClamps(t: Text, i: nat)
    ensures Slice(t, 0, i) == t[..Min(i, |t|)] && Slice(t, i, |t|) == t[Min(i, |t|)..]
  {
  }

  /** An update is refused, dropped or written; which of them, exactly. */
  lemma RefusedExactlyWhen(format: Formatter, display: Text, c: Cursor, u: Update, punctuation: bool)
    requires WellBehaved(format)
    ensures var r := Speak(format, display, c, u, punctuation);
            var invalid := u.segment < 1 || u.segment > 0x1F_FFFF_FFFF_FFFF || u.revision < 1
                           || u.revision > 0x1F_FFFF_FFFF_FFFF || |Encode(u.text)| > 8192;
            var late := u.segment < c.segment
                        || (u.segment == c.segment && (c.final || u.revision <= c.revision));
            && (r == Err(InvalidUpdate) <==> invalid)
            && (!invalid && late ==> r == Ok((display, c)))
            && (r == Err(NotFinalized) <==> !invalid && !late && u.segment > c.segment && c.partial.Some?)
            && (r == Err(DraftChanged)
                <==> !invalid && !late && u.segment == c.segment && c.partial.Some?
                     && Slice(display, c.partial.value.start, c.partial.value.end) != c.partial.value.text)
  {
    hide Write, Formatting, Recognised;
    Utf8LengthIsExact(u.text);
  }

  /** The speech goes to the end of a text: behind one space, unless that text is empty or
      ends in a space, or the speech begins with a line feed or one of . , ? ! : ; */
  function Spaced(before: Text, spoken: Text): Text {
    if spoken == [] || before == [] || IsSpace(before[|before| - 1]) || spoken[0] in [10, 46, 44, 63, 33, 58, 59]
    then before + spoken
    else before + [32] + spoken
  }

  /** What is recognised: the trimmed speech, behind what it continues and a space. */
  function Continued(before: Text, speech: Text): Text {
    if before == [] || Trim(speech) == [] then before + Trim(speech) else before + [32] + Trim(speech)
  }

  /** The tail of the last punctuation still stands at the end of the display. */
  predicate TailStands(display: Text, c: Cursor) {
    && c.tail.Some? && c.tail.value.end == |display| && c.tail.value.start <= |display|
    && display[c.tail.value.start..] == c.tail.value.text
  }

  /** Speech that begins a slot is appended to the draft, or to what stands before the
      punctuation tail it continues, spaced; a blank update writes nothing. The slot it
      leaves open is what it wrote. */
  lemma SpeechIsAppended(format: Formatter, display: Text, c: Cursor, u: Update, punctuation: bool)
    requires WellBehaved(format) && Ordered(c) && Takes(format, display, c, u, punctuation)
    requires c.partial.None? || u.segment != c.segment
    ensures var continues := punctuation && TailStands(display, c);
            var before := if continues then display[..c.tail.value.start] else display;
            var raw := Continued(if continues then c.tail.value.raw else [], u.text);
            var spoken := if punctuation then format(raw).text else raw;
            var after := Spaced(before, spoken);
            var c' := Speak(format, display, c, u, punctuation).value.1;
            && Speak(format, display, c, u, punctuation).value.0 == after
            && c'.segment == u.segment && c'.revision == u.revision && c'.final == u.final
            && c'.partial == (if u.final then None
                              else
                                Some(Partial(|before|, |after|, after[|before|..],
                                             if before == [] || IsSpace(before[|before| - 1]) then [] else [32],
                                             if continues then c.tail.value.raw else [])))
  {
    hide Speak, Takes, SlotFor, Recognised, Continued, Written, Separator, Spaced, IsSpace;
    var slot := SlotFor(display, c, u.segment, punctuation);
    var f := Formatting(format, punctuation, Recognised(slot.rawPrefix, u.text));
    SpokenSlot(display, c, u.segment, punctuation);
    TakenIsWritten(format, display, c, u, punctuation);
    RecognisedIs(slot.rawPrefix, u.text);
    WrittenIs(display[..slot.start], f);
    Placed(display[..slot.start], Written(f, slot.separator), [], 0);
    assert display[|display|..] == [] && display[..|display|] == display;
    var before, after := display[..slot.start], Speak(format, display, c, u, punctuation).value.0;
    assert after == Spaced(before, f.text) && after[|before|..] == Written(f, slot.separator);
  }

  /** What is taken is written into its slot. */
  lemma TakenIsWritten(format: Formatter, display: Text, c: Cursor, u: Update, punctuation: bool)
    requires WellBehaved(format) && Ordered(c) && Takes(format, display, c, u, punctuation)
    ensures var slot := SlotFor(display, c, u.segment, punctuation);
            var f := Formatting(format, punctuation, Recognised(slot.rawPrefix, u.text));
            Speak(format, display, c, u, punctuation)
            == Ok((display[..Min(slot.start, |display|)] + Written(f, slot.separator)
                   + display[Min(slot.end, |display|)..], NextCursor(u, slot, f)))
  {
    hide SlotFor, Recognised, Written, NextCursor;
    var slot := SlotFor(display, c, u.segment, punctuation);
    SliceClamps(display, slot.start);
    SliceClamps(display, slot.end);
  }

  lemma SpokenSlot(display: Text, c: Cursor, segment: int, punctuation: bool)
    requires Ordered(c) && (c.partial.None? || segment != c.segment)
    ensures var slot, continues := SlotFor(display, c, segment, punctuation), punctuation && TailStands(display, c);
            && slot.start <= slot.end == |display|
            && slot.start == (if continues then c.tail.value.start else |display|)
            && slot.rawPrefix == (if continues then c.tail.value.raw else [])
            && slot.separator == Separator(display[..slot.start])
  {
    assert display[..|display|] == display;
    if c.tail.Some? && c.tail.value.end == |display| {
      assert Slice(display, c.tail.value.start, |display|) == display[c.tail.value.start..];
    }
  }

  lemma RecognisedIs(before: Text, speech: Text)
    ensures Recognised(before, speech) == Continued(before, speech)
  {
    assert before + (SPACE + Trim(speech)) == before + [32] + Trim(speech);
  }

  lemma WrittenIs(before: Text, f: Formatted)
    ensures before + Written(f, Separator(before)) + [] == Spaced(before, f.text)
    ensures Separator(before) == if before == [] || IsSpace(before[|before| - 1]) then [] else [32]
  {
    if Join(f, Separator(before)) != [] {
      assert before + ([32] + f.text) == before + [32] + f.text;
    }
  }

  /** A revision replaces its slot by the speech in its new form, behind the space its slot
      began with unless it begins with one of the marks; the slot stays where it began. */
  lemma RevisionIsReplaced(format: Formatter, display: Text, c: Cursor, u: Update, punctuation: bool)
    requires WellBehaved(format) && Ordered(c) && Takes(format, display, c, u, punctuation)
    requires c.partial.Some? && u.segment == c.segment && c.partial.value.end <= |display|
    ensures var p := c.partial.value;
            var raw := Continued(p.rawPrefix, u.text);
            var spoken := if punctuation then format(raw).text else raw;
            var shown := if spoken == [] || spoken[0] in [10, 46, 44, 63, 33, 58, 59] then spoken
                         else p.separator + spoken;
            var c' := Speak(format, display, c, u, punctuation).value.1;
            && display[p.start..p.end] == p.text
            && Speak(format, display, c, u, punctuation).value.0 == display[..p.start] + shown + display[p.end..]
            && c'.segment == u.segment && c'.revision == u.revision && c'.final == u.final
            && c'.partial == (if u.final then None else Some(p.(end := p.start + |shown|, text := shown)))
  {
    hide Speak, Takes, Recognised, Continued, Written;
    var p := c.partial.value;
    var f := Formatting(format, punctuation, Recognised(p.rawPrefix, u.text));
    TakenIsWritten(format, display, c, u, punctuation);
    RecognisedIs(p.rawPrefix, u.text);
    PartialStands(format, display, c, u, punctuation);
    ShownIs(f, p.separator);
  }

  lemma ShownIs(f: Formatted, separator: Text)
    ensures Written(f, separator)
         == if f.text == [] || f.text[0] in [10, 46, 44, 63, 33, 58, 59] then f.text else separator + f.text
  {
    assert [] + f.text == f.text;
  }

  lemma PartialStands(format: Formatter, display: Text, c: Cursor, u: Update, punctuation: bool)
    requires WellBehaved(format) && Ordered(c) && Takes(format, display, c, u, punctuation)
    requires c.partial.Some? && u.segment == c.segment && c.partial.value.end <= |display|
    ensures display[c.partial.value.start..c.partial.value.end] == c.partial.value.text
  {
    hide Write;
  }

  /** A final update leaves the tail of its punctuation to be continued: the end of what was
      written from the offset on, or all of it, the space included, if the tail is all of it. */
  lemma TailIsLeft(format: Formatter, display: Text, c: Cursor, u: Update, punctuation: bool)
    requires WellBehaved(format) && Ordered(c) && Takes(format, display, c, u, punctuation)
    ensures var slot := SlotFor(display, c, u.segment, punctuation);
            var f := format(Continued(slot.rawPrefix, u.text));
            var (after, c') := Speak(format, display, c, u, punctuation).value;
            var written := |after| - (|display| - Min(slot.end, |display|)) - Min(slot.start, |display|);
            && (c'.tail.Some? <==> u.final && punctuation && f.tail.Some?)
            && (c'.tail.Some? ==>
                  && c'.tail.value.raw == f.tail.value.raw && c'.tail.value.end == slot.start + written
                  && c'.tail.value.start == (if f.tail.value.offset == 0 then slot.start
                                             else c'.tail.value.end - (|f.text| - f.tail.value.offset)))
  {
    hide Speak, Takes, SlotFor, Recognised, Continued, IsSpace;
    var slot := SlotFor(display, c, u.segment, punctuation);
    var f := Formatting(format, punctuation, Recognised(slot.rawPrefix, u.text));
    TakenIsWritten(format, display, c, u, punctuation);
    RecognisedIs(slot.rawPrefix, u.text);
    SlotIsOrdered(display, c, u.segment, punctuation);
  }

  lemma SlotIsOrdered(display: Text, c: Cursor, segment: int, punctuation: bool)
    requires Ordered(c)
    ensures var slot := SlotFor(display, c, segment, punctuation); slot.start <= slot.end
  {
  }

  // ----- what the placeholders hide -----

  /** The range of the display an update replaces, and what it puts there. */
  function Target(format: Formatter, display: Text, c: Cursor, u: Update, punctuation: bool): (nat, nat, Text)
    requires WellBehaved(format)
  {
    var slot := SlotFor(display, c, u.segment, punctuation);
    var f := Formatting(format, punctuation, Recognised(slot.rawPrefix, u.text));
    (Min(slot.start, |display|), Min(slot.end, |display|), Written(f, slot.separator))
  }

  lemma TranscribingIsAnEdit(format: Formatter, d: Draft, c: Cursor, u: Update, punctuation: bool)
    requires WellBehaved(format) && Ordered(c) && Takes(format, d.display, c, u, punctuation)
    ensures var (a, b, text) := Target(format, d.display, c, u, punctuation);
            var r := TranscribeDraft(format, d, c, u, punctuation);
            && a <= b <= |d.display|
            && r.Ok? && r.value.0 == Edit(d, Slotted(d.display, a, b, text), None)
  {
    hide Edit, NextCursor, Written, Formatting, Recognised, Invalid;
    var slot := SlotFor(d.display, c, u.segment, punctuation);
    SliceClamps(d.display, slot.start);
    SliceClamps(d.display, slot.end);
  }

  /** Every update that is written replaces, in the plain text, what its slot means by what
      was recognised, whatever the placeholders hide - exactly when every placeholder lies
      before the slot or beyond the reach of the change. */
  lemma SpeechReplacesItsSlotExactlyWhen(format: Formatter, d: Draft, c: Cursor, u: Update, punctuation: bool)
    requires WellBehaved(format) && WellFormed(d) && Ordered(c) && Takes(format, d.display, c, u, punctuation)
    ensures var (a, b, text) := Target(format, d.display, c, u, punctuation);
            && a <= b <= |d.display|
            && ((forall mask: PendingPaste -> Text ::
                   var r := TranscribeDraft(format, Hiding(d, mask), c, u, punctuation);
                   r.Ok? && PlainText(r.value.0) == SlotText(Hiding(d, mask), a, b, text))
                <==> forall p <- d.pastes :: Safe(d, a, b, text, p))
  {
    hide Edit, PlainText, SlotText, Target, Takes, TranscribeDraft, Safe, Slotted, Hidden, WellFormed;
    var (a, b, text) := Target(format, d.display, c, u, punctuation);
    TranscribingIsAnEdit(format, d, c, u, punctuation);
    forall mask: PendingPaste -> Text
      ensures var r := TranscribeDraft(format, Hiding(d, mask), c, u, punctuation);
              r.Ok? && r.value.0 == Edit(Hiding(d, mask), Slotted(d.display, a, b, text), None)
    {
      TranscribingIsAnEdit(format, Hiding(d, mask), c, u, punctuation);
    }
    SlotMeansExactlyWhen(d, a, b, text);
  }

  /** In particular for what they do hide. */
  lemma SpeechReplacesItsSlot(format: Formatter, d: Draft, c: Cursor, u: Update, punctuation: bool)
    requires WellBehaved(format) && WellFormed(d) && Ordered(c) && Takes(format, d.display, c, u, punctuation)
    requires var (a, b, text) := Target(format, d.display, c, u, punctuation);
             a <= b <= |d.display| && forall p <- d.pastes :: Safe(d, a, b, text, p)
    ensures var (a, b, text) := Target(format, d.display, c, u, punctuation);
            var r := TranscribeDraft(format, d, c, u, punctuation);
            r.Ok? && PlainText(r.value.0) == Meaning(d, 0, a) + text + Meaning(d, b, |d.display|)
  {
    hide Edit, PlainText, Meaning, Target, Takes, TranscribeDraft, Safe, Slotted, WellFormed;
    var (a, b, text) := Target(format, d.display, c, u, punctuation);
    TranscribingIsAnEdit(format, d, c, u, punctuation);
    SlotMeans(d, a, b, text);
  }

  /** A placeholder outside the slot, in front of it or behind it, keeps its hidden text at
      its place if it lies beyond the reach of the change; and only then, if its name is its
      own, as it is in every draft that can come about. */
  lemma PlaceholderStaysExactlyWhen(format: Formatter, d: Draft, c: Cursor, u: Update, punctuation: bool,
                                    p: PendingPaste)
    requires WellBehaved(format) && WellFormed(d) && Ordered(c) && Takes(format, d.display, c, u, punctuation)
    requires p in d.pastes
    requires var (a, b, _) := Target(format, d.display, c, u, punctuation); Clear(p, a, b)
    ensures var (a, b, text) := Target(format, d.display, c, u, punctuation);
            var r := TranscribeDraft(format, d, c, u, punctuation);
            && a <= b <= |d.display|
            && r.Ok? && WellFormed(r.value.0)
            && (Safe(d, a, b, text, p) ==> Moved(p, a, b, |text|) in r.value.0.pastes)
            && (DistinctPlaceholders(d.pastes) && Moved(p, a, b, |text|) in r.value.0.pastes ==>
                  Safe(d, a, b, text, p))
  {
    hide Edit, Target, Takes, TranscribeDraft, Safe, Slotted, WellFormed, DistinctPlaceholders;
    var (a, b, text) := Target(format, d.display, c, u, punctuation);
    TranscribingIsAnEdit(format, d, c, u, punctuation);
    EditIsWellFormed(d, Slotted(d.display, a, b, text), None);
    PasteStaysExactlyWhen(d, a, b, text, p);
  }

  // ----- hidden text lost -----

  lemma BlankUpdate(format: Formatter)
    requires WellBehaved(format)
    ensures TranscribeDraft(format, ComposerDraft([]), FRESH, Update(1, 1, false, []), false)
         == Ok((ComposerDraft([]), Cursor(1, 1, false, Some(Partial(0, 0, [], [], [])), None)))
  {
  }

  lemma PasteIntoNothing(text: Text)
    requires CodePoints(NormalizeNewlines(text)) > LARGE_PASTE_CHAR_THRESHOLD
    ensures var normalized := NormalizeNewlines(text);
            var placeholder := Base(CodePoints(normalized));
            && PasteInto(ComposerDraft([]), text, 0, 0).0
               == Draft(placeholder, [Paste(placeholder, normalized, 0, |placeholder|)])
            && PlainText(PasteInto(ComposerDraft([]), text, 0, 0).0) == normalized
  {
    hide NormalizeNewlines, Base;
    PasteRefinesPlainText(ComposerDraft([]), text, 0, 0);
  }

  lemma BracketsUpdate(format: Formatter, display: Text)
    requires WellBehaved(format)
    ensures var c, u := Cursor(1, 1, false, Some(Partial(0, 0, [], [], [])), None), Update(1, 2, false, Ascii("[]"));
            Target(format, display, c, u, false) == (0, 0, Ascii("[]")) && Takes(format, display, c, u, false)
  {
    var t: Text := [91, 93];
    assert Ascii("[]") == t && Trim(t) == t;
    assert t[1..] == [93] && Utf8Length(t) == 2;
    assert [] + t == t;
  }

  lemma BracketReaches(charCount: nat)
    ensures var placeholder := Base(charCount);
            Reach([], Ascii("[]"), placeholder) == 1 && |placeholder| > 1
  {
    var placeholder, typed := Base(charCount), Ascii("[]") + Base(charCount);
    assert placeholder[0] == typed[0] == 91 && placeholder[1] == 80 && typed[1] == 93;
    assert CommonPrefix(placeholder, typed, 1) == 1;
    assert Ascii("[]")[0..] == Ascii("[]");
  }

  /** The family that fails: speech opens an empty slot, as the blank first revision of a
      segment does, a large paste goes behind it, and the next revision begins like a
      placeholder. The hunk reaches into the placeholder: it is still displayed, and what it
      hid is lost. */
  lemma HiddenTextIsLost(format: Formatter, text: Text)
    requires WellBehaved(format) && CodePoints(NormalizeNewlines(text)) > LARGE_PASTE_CHAR_THRESHOLD
    ensures var blank := TranscribeDraft(format, ComposerDraft([]), FRESH, Update(1, 1, false, []), false);
            && blank.Ok?
            && var d, c := PasteInto(blank.value.0, text, 0, 0).0, blank.value.1;
               var r := TranscribeDraft(format, d, c, Update(1, 2, false, Ascii("[]")), false);
               && PlainText(d) == NormalizeNewlines(text)
               && r.Ok? && r.value.0 == Draft(Ascii("[]") + d.display, [])
               && PlainText(r.value.0) == Ascii("[]") + d.display
  {
    hide TranscribeDraft, PasteInto, NormalizeNewlines, Base, PlainText, Edit, Target, Takes;
    var charCount := CodePoints(NormalizeNewlines(text));
    var c, u := Cursor(1, 1, false, Some(Partial(0, 0, [], [], [])), None), Update(1, 2, false, Ascii("[]"));
    var d := PasteInto(ComposerDraft([]), text, 0, 0).0;
    BlankUpdate(format);
    PasteIntoNothing(text);
    BracketsUpdate(format, d.display);
    TranscribingIsAnEdit(format, d, c, u, false);
    BracketReaches(charCount);
    assert d.display[0..0] == [] && d.display[0..] == d.display;
    TouchedFirst(d, Ascii("[]"));
    WholeAsShown(Draft(Ascii("[]") + d.display, []));
  }

  // ----- partials are invisible -----

  function SpeakAll(format: Formatter, display: Text, c: Cursor, updates: seq<Update>, punctuation: bool)
    : Result<(Text, Cursor), Fault>
    requires WellBehaved(format)
    decreases |updates|
  {
    if updates == [] then Ok((display, c))
    else
      match Speak(format, display, c, updates[0], punctuation)
      case Err(fault) => Err(fault)
      case Ok((after, c')) => SpeakAll(format, after, c', updates[1..], punctuation)
  }

  lemma Overwrites(format: Formatter, display: Text, slot: Slot, p: Update, u: Update, punctuation: bool)
    requires WellBehaved(format) && slot.start <= slot.end <= |display| && !p.final
    ensures var (after, c') := Write(format, display, slot, p, punctuation);
            var partial := c'.partial.value;
            var again := Slot(partial.start, partial.end, partial.separator, partial.rawPrefix);
            && c'.partial.Some? && again.end <= |after| && Slice(after, again.start, again.end) == partial.text
            && Write(format, after, again, u, punctuation) == Write(format, display, slot, u, punctuation)
  {
    var f := Formatting(format, punctuation, Recognised(slot.rawPrefix, p.text));
    var text := Written(f, slot.separator);
    var head, tail := display[..slot.start], display[slot.end..];
    var after := head + text + tail;
    var end := slot.start + |text|;
    assert Write(format, display, slot, p, punctuation).0 == after;
    assert Slice(after, 0, slot.start) == head == Slice(display, 0, slot.start);
    assert Slice(after, end, |after|) == tail == Slice(display, slot.end, |display|);
    assert Slice(after, slot.start, end) == text;
    NextCursorKeepsStart(u, slot, slot.(end := end));
  }

  lemma NextCursorKeepsStart(u: Update, slot: Slot, again: Slot)
    requires again == slot.(end := again.end)
    ensures forall f: Formatted :: (f.tail.Some? ==> f.tail.value.offset <= |f.text|) ==>
            NextCursor(u, again, f) == NextCursor(u, slot, f)
  {
  }

  /** A revision leaves no trace once a later revision of the same segment is written. */
  lemma RevisionIsInvisible(format: Formatter, display: Text, c: Cursor, p: Update, u: Update, punctuation: bool)
    requires WellBehaved(format) && InPlace(display, c) && Accepted(c, p) && !p.final
    requires u.segment == p.segment && u.revision > p.revision
    ensures var first := Speak(format, display, c, p, punctuation);
            && first.Ok? && InPlace(first.value.0, first.value.1)
            && first.value.1.segment == p.segment && first.value.1.revision == p.revision && !first.value.1.final
            && Speak(format, first.value.0, first.value.1, u, punctuation) == Speak(format, display, c, u, punctuation)
  {
    var slot := SlotFor(display, c, p.segment, punctuation);
    SpeakWrites(format, display, c, p, punctuation);
    WriteOwnsItsSlot(format, display, slot, p, punctuation);
    Overwrites(format, display, slot, p, u, punctuation);
    var (after, c') := Write(format, display, slot, p, punctuation);
    if Accepted(c, u) {
      SpeakWrites(format, display, c, u, punctuation);
      SpeakWrites(format, after, c', u, punctuation);
    } else {
      SpeakRejects(format, display, c, u, punctuation);
      SpeakRejects(format, after, c', u, punctuation);
    }
  }

  /** Valid partial revisions of a segment, each later than the one before, all of them
      between two given revisions. */
  predicate Revisions(partials: seq<Update>, segment: int, low: int, high: int) {
    partials == [] ||
    var p := partials[0];
    && !Invalid(p) && !p.final && p.segment == segment && low < p.revision < high
    && Revisions(partials[1..], segment, p.revision, high)
  }

  lemma SpeakNext(format: Formatter, display: Text, c: Cursor, p: Update, later: seq<Update>, last: Update,
                  punctuation: bool)
    requires WellBehaved(format)
    ensures SpeakAll(format, display, c, [p] + later + [last], punctuation)
         == match Speak(format, display, c, p, punctuation)
            case Err(fault) => Err(fault)
            case Ok((after, c')) => SpeakAll(format, after, c', later + [last], punctuation)
  {
    assert ([p] + later + [last])[1..] == later + [last];
  }

  lemma SpeakOne(format: Formatter, display: Text, c: Cursor, u: Update, punctuation: bool)
    requires WellBehaved(format)
    ensures SpeakAll(format, display, c, [] + [u], punctuation) == Speak(format, display, c, u, punctuation)
  {
    assert [] + [u] == [u] && [u][1..] == [];
  }

  /** For any formatter, the partial revisions of a segment and then its last one leave
      the same display and the same cursor as the last one alone. */
  lemma {:induction false} PartialsAreInvisible(format: Formatter, display: Text, c: Cursor, partials: seq<Update>,
                                                last: Update, punctuation: bool)
    requires WellBehaved(format) && InPlace(display, c) && c.partial.None? && last.segment > c.segment
    requires Revisions(partials, last.segment, 0, last.revision)
    ensures SpeakAll(format, display, c, partials + [last], punctuation) == Speak(format, display, c, last, punctuation)
  {
    if partials == [] {
      SpeakOne(format, display, c, last, punctuation);
    } else {
      RevisionsAreInvisible(format, display, c, partials[0], partials[1..], last, punctuation);
      assert partials == [partials[0]] + partials[1..];
    }
  }

  /** The same from any revision on that the cursor accepts. */
  lemma {:induction false} RevisionsAreInvisible(format: Formatter, display: Text, c: Cursor, p: Update,
                                                 later: seq<Update>, last: Update, punctuation: bool)
    requires WellBehaved(format) && InPlace(display, c) && Accepted(c, p)
    requires !p.final && p.segment == last.segment && p.revision < last.revision
    requires Revisions(later, last.segment, p.revision, last.revision)
    ensures SpeakAll(format, display, c, [p] + later + [last], punctuation)
            == Speak(format, display, c, last, punctuation)
    decreases |later|
  {
    hide Speak, SpeakAll, InPlace, Invalid;
    RevisionIsInvisible(format, display, c, p, last, punctuation);
    var (after, c') := Speak(format, display, c, p, punctuation).value;
    SpeakNext(format, display, c, p, later, last, punctuation);
    if later == [] {
      SpeakOne(format, after, c', last, punctuation);
    } else {
      assert Accepted(c', later[0]);
      RevisionsAreInvisible(format, after, c', later[0], later[1..], last, punctuation);
      assert later == [later[0]] + later[1..];
    }
  }

  // ----- the send boundary -----

  /** What endSend puts between the draft left behind and the buffered speech. */
  function Gap(base: Text, speech: Text): Text {
    if speech != [] && !StartsTight(speech) then Separator(base) else []
  }

  function Joined(base: Text, speech: Text): Text {
    base + Gap(base, speech) + speech
  }

  function RebasePartial(base: Text, gap: Text, p: Partial): Partial {
    var offset := |base| + |gap|;
    if p.start == 0 then p.(start := |base|, end := p.end + offset, text := gap + p.text, separator := Separator(base))
    else p.(start := p.start + offset, end := p.end + offset)
  }

  function RebaseTail(base: Text, gap: Text, t: PunctuationTail): PunctuationTail {
    var offset := |base| + |gap|;
    if t.start == 0 then t.(start := |base|, end := t.end + offset, text := gap + t.text)
    else t.(start := t.start + offset, end := t.end + offset)
  }

  /** endSend: the cursor of the buffered speech, moved behind the draft. */
  function Rebase(base: Text, speech: Text, c: Cursor): Cursor {
    var gap := Gap(base, speech);
    c.(partial := if c.partial.Some? then Some(RebasePartial(base, gap, c.partial.value)) else None,
       tail := if c.tail.Some? then Some(RebaseTail(base, gap, c.tail.value)) else None)
  }

  /** Speech is joined to a draft as speech is appended to it. */
  lemma JoinedIsSpaced(base: Text, speech: Text)
    ensures Joined(base, speech) == Spaced(base, speech)
  {
    assert base + [] == base;
    assert base + [] + speech == base + speech;
  }

  lemma SpeakingKeepsOrdered(format: Formatter, display: Text, c: Cursor, u: Update, punctuation: bool)
    requires WellBehaved(format) && Ordered(c)
    ensures var r := Speak(format, display, c, u, punctuation); r.Ok? ==> Ordered(r.value.1)
  {
    hide Recognised, Invalid;
  }

  lemma RebasingKeepsOrdered(base: Text, speech: Text, c: Cursor)
    requires Ordered(c)
    ensures Ordered(Rebase(base, speech, c))
  {
  }

  /** After rebasing both slots are in place again. */
  lemma RebaseKeepsSlots(base: Text, speech: Text, c: Cursor)
    requires InPlace(speech, c)
    ensures InPlace(Joined(base, speech), Rebase(base, speech, c))
  {
    var gap := Gap(base, speech);
    if c.partial.Some? {
      RebasedPartial(base, gap, speech, c.partial.value);
    }
    if c.tail.Some? {
      RebasedTail(base, gap, speech, c.tail.value);
    }
  }

  lemma RebasedPartial(base: Text, gap: Text, speech: Text, p: Partial)
    requires Shows(speech, p.start, p.end, p.text)
    ensures var r := RebasePartial(base, gap, p); Shows(base + gap + speech, r.start, r.end, r.text)
  {
    Rebased(base, gap, speech, p.start, p.end, p.text);
  }

  lemma RebasedTail(base: Text, gap: Text, speech: Text, t: PunctuationTail)
    requires Shows(speech, t.start, t.end, t.text)
    ensures var r := RebaseTail(base, gap, t); Shows(base + gap + speech, r.start, r.end, r.text)
  {
    Rebased(base, gap, speech, t.start, t.end, t.text);
  }

  lemma Rebased(base: Text, gap: Text, speech: Text, start: nat, end: nat, text: Text)
    requires Shows(speech, start, end, text)
    ensures var whole, offset := base + gap + speech, |base| + |gap|;
            && Shows(whole, start + offset, end + offset, text)
            && (start == 0 ==> Shows(whole, |base|, end + offset, gap + text))
  {
    var whole, offset := base + gap + speech, |base| + |gap|;
    assert whole[start + offset..end + offset] == text;
    if start == 0 {
      assert whole[|base|..end + offset] == gap + text;
    }
  }

  /** Buffered speech is written by nobody else, so its slots are at its end. */
  ghost predicate Buffered(speech: Text, c: Cursor) {
    && InPlace(speech, c)
    && (c.partial.Some? ==> c.partial.value.end == |speech|
                            && (c.partial.value.start == 0 ==> c.partial.value.separator == []))
    && (c.tail.Some? ==> c.tail.value.end == |speech|)
  }

  /** The slot an update takes in the buffered speech, and the slot it takes once that has
      been appended to a draft, are one and the same place. */
  ghost predicate Corresponding(base: Text, speech: Text, slot: Slot, moved: Slot) {
    var offset := |base| + |Gap(base, speech)|;
    && slot.start <= slot.end == |speech|
    && moved.end == |speech| + offset && moved.rawPrefix == slot.rawPrefix
    && (slot.start > 0 ==> moved.start == slot.start + offset && moved.separator == slot.separator)
    && (slot.start == 0 ==> moved.start == |base| && moved.separator == Separator(base) && slot.separator == [])
  }

  lemma SeparatorBehind(base: Text, gap: Text, speech: Text, start: nat)
    requires start <= |speech|
    ensures start > 0 ==>
              Separator(Slice(base + gap + speech, 0, start + |base| + |gap|)) == Separator(Slice(speech, 0, start))
    ensures Slice(base + gap + speech, 0, |base|) == base
  {
    assert Slice(base + gap + speech, 0, start + |base| + |gap|) == base + gap + speech[..start];
  }

  lemma SlotsAtTheTail(base: Text, speech: Text, c: Cursor, segment: int)
    requires Buffered(speech, c) && c.partial.None? && c.tail.Some?
    ensures Corresponding(base, speech, SlotFor(speech, c, segment, true),
                          SlotFor(Joined(base, speech), Rebase(base, speech, c), segment, true))
  {
    var gap := Gap(base, speech);
    RebasedTail(base, gap, speech, c.tail.value);
    SeparatorBehind(base, gap, speech, c.tail.value.start);
  }

  lemma SlotsAtTheEnd(base: Text, speech: Text, c: Cursor, segment: int, punctuation: bool)
    requires Buffered(speech, c) && c.partial.None? && !(punctuation && c.tail.Some?)
    ensures Corresponding(base, speech, SlotFor(speech, c, segment, punctuation),
                          SlotFor(Joined(base, speech), Rebase(base, speech, c), segment, punctuation))
  {
    var whole := Joined(base, speech);
    SeparatorBehind(base, Gap(base, speech), speech, |speech|);
    assert Slice(speech, 0, |speech|) == speech && Slice(whole, 0, |whole|) == whole;
  }

  lemma SlotsCorrespond(base: Text, speech: Text, c: Cursor, segment: int, punctuation: bool)
    requires Buffered(speech, c) && (c.partial.None? || segment == c.segment)
    ensures Corresponding(base, speech, SlotFor(speech, c, segment, punctuation),
                          SlotFor(Joined(base, speech), Rebase(base, speech, c), segment, punctuation))
  {
    if c.partial.None? {
      if punctuation && c.tail.Some? {
        SlotsAtTheTail(base, speech, c, segment);
      } else {
        SlotsAtTheEnd(base, speech, c, segment, punctuation);
      }
    }
  }

  lemma WrittenFirst(f: Formatted, base: Text)
    ensures Written(f, []) == f.text
    ensures Written(f, Separator(base)) == Gap(base, f.text) + f.text
    ensures f.text != [] ==> Join(f, Separator(base)) == Gap(base, f.text) && Join(f, []) == []
  {
  }

  lemma CursorAtTheStart(base: Text, slot: Slot, moved: Slot, u: Update, f: Formatted)
    requires f.tail.Some? ==> f.tail.value.offset <= |f.text|
    requires slot.start == 0 && slot.separator == [] && moved.start == |base| && moved.separator == Separator(base)
    requires moved.rawPrefix == slot.rawPrefix
    ensures NextCursor(u, moved, f) == Rebase(base, f.text, NextCursor(u, slot, f))
  {
    WrittenFirst(f, base);
    var c, m := NextCursor(u, slot, f), NextCursor(u, moved, f);
    if !u.final {
      assert m.partial.value == Rebase(base, f.text, c).partial.value;
    } else if f.tail.Some? {
      var r := Rebase(base, f.text, c).tail.value;
      assert m.tail.value.start == r.start && m.tail.value.end == r.end;
      assert m.tail.value.text == r.text;
    }
  }

  lemma CursorBehind(base: Text, speech: Text, slot: Slot, moved: Slot, u: Update, f: Formatted)
    requires f.tail.Some? ==> f.tail.value.offset <= |f.text|
    requires slot.start > 0 && moved.start == slot.start + |base| + |Gap(base, speech)|
    requires moved.separator == slot.separator && moved.rawPrefix == slot.rawPrefix
    ensures NextCursor(u, moved, f) == Rebase(base, speech, NextCursor(u, slot, f))
  {
  }

  lemma TextAtTheStart(base: Text, speech: Text, f: Formatted)
    ensures var speech', whole := Slice(speech, 0, 0) + Written(f, []) + Slice(speech, |speech|, |speech|),
            Joined(base, speech);
            && speech' == f.text
            && Slice(whole, 0, |base|) + Written(f, Separator(base)) + Slice(whole, |whole|, |whole|)
                == Joined(base, f.text)
  {
    WrittenFirst(f, base);
    PlacedFirst(base, speech, Written(f, []), Written(f, Separator(base)));
  }

  lemma WritingAtTheStart(format: Formatter, base: Text, speech: Text, slot: Slot, moved: Slot, u: Update,
                          punctuation: bool)
    requires WellBehaved(format) && Corresponding(base, speech, slot, moved) && slot.start == 0
    ensures var (speech', c') := Write(format, speech, slot, u, punctuation);
            Write(format, Joined(base, speech), moved, u, punctuation)
                == (Joined(base, speech'), Rebase(base, speech', c'))
  {
    var f := Formatting(format, punctuation, Recognised(slot.rawPrefix, u.text));
    assert slot.separator == [] && slot.end == |speech| && moved.end == |Joined(base, speech)|;
    TextAtTheStart(base, speech, f);
    CursorAtTheStart(base, slot, moved, u, f);
    assert Write(format, speech, slot, u, punctuation) == (f.text, NextCursor(u, slot, f));
  }

  lemma PlacedFirst(base: Text, speech: Text, t: Text, w: Text)
    requires w == Gap(base, t) + t
    ensures Slice(speech, 0, 0) + t + Slice(speech, |speech|, |speech|) == t
    ensures var whole := Joined(base, speech);
            Slice(whole, 0, |base|) + w + Slice(whole, |whole|, |whole|) == Joined(base, t)
  {
    assert [] + t + [] == t;
    var gap := Gap(base, t);
    SeparatorBehind(base, Gap(base, speech), speech, 0);
    assert base + (gap + t) + [] == base + gap + t;
  }

  lemma WritingBehind(format: Formatter, base: Text, speech: Text, slot: Slot, moved: Slot, u: Update,
                      punctuation: bool)
    requires WellBehaved(format) && Corresponding(base, speech, slot, moved) && slot.start > 0
    ensures var (speech', c') := Write(format, speech, slot, u, punctuation);
            Write(format, Joined(base, speech), moved, u, punctuation)
                == (Joined(base, speech'), Rebase(base, speech', c'))
  {
    hide Recognised, Written, NextCursor, Separator;
    var whole, gap := Joined(base, speech), Gap(base, speech);
    var f := Formatting(format, punctuation, Recognised(slot.rawPrefix, u.text));
    var (speech', c') := Write(format, speech, slot, u, punctuation);
    var head, text := speech[..slot.start], Written(f, slot.separator);
    assert speech' == head + text && speech'[0] == speech[0];
    assert Gap(base, speech') == gap;
    assert Slice(whole, 0, moved.start) == base + gap + head && Slice(whole, |whole|, |whole|) == [];
    assert base + gap + head + text + [] == base + gap + (head + text);
    CursorBehind(base, speech', slot, moved, u, f);
  }

  lemma WritingStaysBuffered(format: Formatter, speech: Text, slot: Slot, u: Update, punctuation: bool)
    requires WellBehaved(format) && slot.start <= slot.end == |speech| && (slot.start == 0 ==> slot.separator == [])
    ensures var (speech', c') := Write(format, speech, slot, u, punctuation); Buffered(speech', c')
  {
    var f := Formatting(format, punctuation, Recognised(slot.rawPrefix, u.text));
    var head, text := speech[..slot.start], Written(f, slot.separator);
    CursorInPlace(head, [], slot, u, f);
    assert Write(format, speech, slot, u, punctuation).0 == head + text + [];
  }

  lemma WritingCommutes(format: Formatter, base: Text, speech: Text, slot: Slot, moved: Slot, u: Update,
                        punctuation: bool)
    requires WellBehaved(format) && Corresponding(base, speech, slot, moved)
    ensures var (speech', c') := Write(format, speech, slot, u, punctuation);
            && Write(format, Joined(base, speech), moved, u, punctuation)
                == (Joined(base, speech'), Rebase(base, speech', c'))
            && Buffered(speech', c')
  {
    WritingStaysBuffered(format, speech, slot, u, punctuation);
    if slot.start == 0 {
      WritingAtTheStart(format, base, speech, slot, moved, u, punctuation);
    } else {
      WritingBehind(format, base, speech, slot, moved, u, punctuation);
    }
  }

  /** The send boundary does not show in the speech: ending the send before an update is
      written, or after it, leaves the same draft and the same cursor. */
  lemma EndSendCommutesWithSpeech(format: Formatter, base: Text, speech: Text, c: Cursor, u: Update, punctuation: bool)
    requires WellBehaved(format) && Buffered(speech, c)
    ensures var ended := Speak(format, Joined(base, speech), Rebase(base, speech, c), u, punctuation);
            match Speak(format, speech, c, u, punctuation)
            case Err(fault) => ended == Err(fault) && fault != DraftChanged
            case Ok((speech', c')) =>
              ended == Ok((Joined(base, speech'), Rebase(base, speech', c'))) && Buffered(speech', c')
  {
    hide Speak, Write, SlotFor, Joined, InPlace, Invalid;
    var whole, moved := Joined(base, speech), Rebase(base, speech, c);
    RebaseKeepsSlots(base, speech, c);
    if Accepted(c, u) {
      SpeakWrites(format, speech, c, u, punctuation);
      SpeakWrites(format, whole, moved, u, punctuation);
      SlotsCorrespond(base, speech, c, u.segment, punctuation);
      WritingCommutes(format, base, speech, SlotFor(speech, c, u.segment, punctuation),
                      SlotFor(whole, moved, u.segment, punctuation), u, punctuation);
    } else {
      SpeakRejects(format, speech, c, u, punctuation);
      SpeakRejects(format, whole, moved, u, punctuation);
    }
  }
}
