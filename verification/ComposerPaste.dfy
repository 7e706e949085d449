/** The condensed draft of apps/desktop/src/composer-paste.ts: a display text in which
    large pastes are hidden behind placeholders at tracked ranges. */
module ComposerPaste {
  import opened Wrappers
  import opened Utf16
  import opened StableSort

  const LARGE_PASTE_CHAR_THRESHOLD: nat := 1_000

  datatype TrackedPaste = Paste(placeholder: Text, text: Text, start: nat, end: nat)
  type PendingPaste = p: TrackedPaste | p.start <= p.end witness Paste([], [], 0, 0)

  datatype Draft = Draft(display: Text, pastes: seq<PendingPaste>)

  /** The selection of a textarea edit; the flags say whether inputType includes
      "Backward" and "Forward". */
  datatype Intent = Intent(start: int, end: int, backward: bool, forward: bool)

  function ComposerDraft(display: Text): Draft {
    Draft(display, [])
  }

  // ----- placeholders -----

  function Base(charCount: nat): Text {
    Ascii("[Pasted Content ") + Decimal(charCount) + Ascii(" chars]")
  }

  function Prefix(charCount: nat): Text {
    Ascii("[Pasted Content ") + Decimal(charCount) + Ascii(" chars #")
  }

  /** The number a placeholder takes among those of the same size; 0 if it has another size. */
  function SuffixNumber(placeholder: Text, charCount: nat): nat {
    var prefix := Prefix(charCount);
    if placeholder == Base(charCount) then 1
    else if prefix < placeholder then
      var suffix := ParseDecimal(placeholder[|prefix|..|placeholder| - 1]);
      if suffix.Some? then suffix.value else 0
    else 0
  }

  function MaxSuffix(pastes: seq<PendingPaste>, charCount: nat): nat {
    if pastes == [] then 0
    else
      var n := |pastes| - 1;
      Max(MaxSuffix(pastes[..n], charCount), SuffixNumber(pastes[n].placeholder, charCount))
  }

  lemma {:induction false} MaxSuffixBounds(pastes: seq<PendingPaste>, charCount: nat, p: PendingPaste)
    requires p in pastes
    ensures SuffixNumber(p.placeholder, charCount) <= MaxSuffix(pastes, charCount)
  {
    var n := |pastes| - 1;
    assert pastes == pastes[..n] + [pastes[n]];
    if p != pastes[n] {
      MaxSuffixBounds(pastes[..n], charCount, p);
    }
  }

  function Placeholder(pastes: seq<PendingPaste>, charCount: nat): Text {
    var m := MaxSuffix(pastes, charCount);
    if m == 0 then Base(charCount) else Prefix(charCount) + Decimal(m + 1) + Ascii("]")
  }

  method PastePlaceholder(draft: Draft, charCount: nat) returns (placeholder: Text)
    ensures placeholder == Placeholder(draft.pastes, charCount)
  {
    var base, prefix, maxSuffix := Base(charCount), Prefix(charCount), 0;
    for i := 0 to |draft.pastes|
      invariant maxSuffix == MaxSuffix(draft.pastes[..i], charCount)
    {
      assert draft.pastes[..i + 1][..i] == draft.pastes[..i];
      var p := draft.pastes[i].placeholder;
      if p == base {
        maxSuffix := Max(maxSuffix, 1);
      } else if prefix < p {
        var suffix := ParseDecimal(p[|prefix|..|p| - 1]);
        if suffix.Some? {
          maxSuffix := Max(maxSuffix, suffix.value);
        }
      }
    }
    assert draft.pastes[..|draft.pastes|] == draft.pastes;
    placeholder := if maxSuffix == 0 then base else prefix + Decimal(maxSuffix + 1) + Ascii("]");
  }

  lemma {:induction false} MaxSuffixIsTaken(pastes: seq<PendingPaste>, charCount: nat)
    requires MaxSuffix(pastes, charCount) > 0
    ensures exists p <- pastes :: SuffixNumber(p.placeholder, charCount) == MaxSuffix(pastes, charCount)
  {
    var n := |pastes| - 1;
    assert pastes == pastes[..n] + [pastes[n]];
    if SuffixNumber(pastes[n].placeholder, charCount) < MaxSuffix(pastes, charCount) {
      MaxSuffixIsTaken(pastes[..n], charCount);
    }
  }

  /** A new placeholder takes the number after the greatest that is in use for its size. */
  lemma PlaceholderIsNumbered(pastes: seq<PendingPaste>, charCount: nat)
    ensures var number := SuffixNumber(Placeholder(pastes, charCount), charCount);
            && (forall p <- pastes :: SuffixNumber(p.placeholder, charCount) < number)
            && (number > 1 ==> exists p <- pastes :: SuffixNumber(p.placeholder, charCount) == number - 1)
            && (number == 1 ==> Placeholder(pastes, charCount) == Base(charCount))
  {
    var m, prefix := MaxSuffix(pastes, charCount), Prefix(charCount);
    forall p | p in pastes ensures SuffixNumber(p.placeholder, charCount) <= m {
      MaxSuffixBounds(pastes, charCount, p);
    }
    if m > 0 {
      var added := prefix + Decimal(m + 1) + Ascii("]");
      assert added[..|prefix|] == prefix;
      assert added[|prefix|..|added| - 1] == Decimal(m + 1);
      DecimalRoundTrip(m + 1);
      PrefixIsNotBase(charCount, added);
      MaxSuffixIsTaken(pastes, charCount);
    }
  }

  /** A new placeholder is unlike every placeholder of the draft, whatever they are. */
  lemma PlaceholderIsNew(pastes: seq<PendingPaste>, charCount: nat)
    ensures forall p <- pastes :: p.placeholder != Placeholder(pastes, charCount)
    ensures Placeholder(pastes, charCount) != []
  {
    var m, prefix := MaxSuffix(pastes, charCount), Prefix(charCount);
    forall p | p in pastes ensures SuffixNumber(p.placeholder, charCount) <= m {
      MaxSuffixBounds(pastes, charCount, p);
    }
    if m > 0 {
      var added := prefix + Decimal(m + 1) + Ascii("]");
      assert added[..|prefix|] == prefix;
      assert added[|prefix|..|added| - 1] == Decimal(m + 1);
      DecimalRoundTrip(m + 1);
      PrefixIsNotBase(charCount, added);
      assert SuffixNumber(added, charCount) == m + 1;
    }
  }

  lemma PrefixIsNotBase(charCount: nat, t: Text)
    requires Prefix(charCount) < t
    ensures t != Base(charCount)
  {
    var k := |Ascii("[Pasted Content ")| + |Decimal(charCount)| + 6;
    assert Prefix(charCount)[k] == Ascii(" chars #")[6] == 32;
    assert Base(charCount)[k] == Ascii(" chars]")[6] == 93;
  }

  // ----- replacing a range -----

  function From(d: Draft, start: int): nat { Max(0, Min(start, |d.display|)) }
  function To(d: Draft, start: int, end: int): nat { Max(From(d, start), Min(end, |d.display|)) }

  /** A paste after a replacement of [from, to) that does not touch it. */
  function Moved(p: PendingPaste, from: nat, to: nat, inserted: nat): PendingPaste
    requires from <= to
  {
    if to <= p.start then Paste(p.placeholder, p.text, p.start - to + from + inserted, p.end - to + from + inserted)
    else p
  }

  predicate Clear(p: PendingPaste, from: nat, to: nat) {
    to <= p.start || from >= p.end
  }

  function Shifted(pastes: seq<PendingPaste>, from: nat, to: nat, inserted: nat): (r: seq<PendingPaste>)
    requires from <= to
  {
    if pastes == [] then []
    else
      (if Clear(pastes[0], from, to) then [Moved(pastes[0], from, to, inserted)] else [])
      + Shifted(pastes[1..], from, to, inserted)
  }

  function Replace(d: Draft, from: nat, to: nat, inserted: Text): Draft
    requires from <= to <= |d.display|
  {
    Draft(d.display[..from] + inserted + d.display[to..], Shifted(d.pastes, from, to, |inserted|))
  }

  function ReplaceDraftRange(d: Draft, start: int, end: int, inserted: Text): Draft {
    Replace(d, From(d, start), To(d, start, end), inserted)
  }

  // ----- what a draft means -----

  ghost predicate WellFormed(d: Draft) {
    && (forall p <- d.pastes :: p.start < p.end <= |d.display| && d.display[p.start..p.end] == p.placeholder)
    && (forall p, q :: p in d.pastes && q in d.pastes ==> p == q || p.end <= q.start || q.end <= p.start)
  }

  /** The paste that starts at a position. */
  function At(pastes: seq<PendingPaste>, i: nat): (p: Option<PendingPaste>)
    ensures p.Some? ==> p.value in pastes && p.value.start == i
  {
    if pastes == [] then None else if pastes[0].start == i then Some(pastes[0]) else At(pastes[1..], i)
  }

  /** The plain text behind display[a..b], read from left to right: a placeholder that lies
      within stands for its hidden text, everything else for itself. */
  function Meaning(d: Draft, a: nat, b: nat): Text
    requires a <= b <= |d.display|
    decreases b - a
  {
    if a == b then []
    else
      var p := At(d.pastes, a);
      if p.Some? && a < p.value.end <= b then p.value.text + Meaning(d, p.value.end, b)
      else [d.display[a]] + Meaning(d, a + 1, b)
  }

  function PlainText(d: Draft): Text {
    Meaning(d, 0, |d.display|)
  }

  /** No placeholder reaches across position i. */
  ghost predicate Uncut(d: Draft, i: nat) {
    forall p <- d.pastes :: !(p.start < i < p.end)
  }

  lemma {:induction false} MeaningSplit(d: Draft, a: nat, m: nat, b: nat)
    requires a <= m <= b <= |d.display| && Uncut(d, m)
    ensures Meaning(d, a, b) == Meaning(d, a, m) + Meaning(d, m, b)
    decreases m - a
  {
    hide At;
    if a < m {
      var p := At(d.pastes, a);
      if p.Some? && a < p.value.end <= b {
        MeaningSplit(d, p.value.end, m, b);
      } else {
        MeaningSplit(d, a + 1, m, b);
      }
    }
  }

  lemma {:induction false} MeaningOfVisible(d: Draft, a: nat, b: nat)
    requires a <= b <= |d.display|
    requires forall p <- d.pastes :: !(a <= p.start < p.end <= b)
    ensures Meaning(d, a, b) == d.display[a..b]
    decreases b - a
  {
    if a < b {
      MeaningOfVisible(d, a + 1, b);
    }
  }

  /** A whole placeholder of [.., b) starts at position i. */
  predicate Hides(d: Draft, i: nat, b: nat) {
    At(d.pastes, i).Some? && i < At(d.pastes, i).value.end <= b
  }

  /** Position i of one draft and position j of another show and hide the same, as seen
      from positions b and c. */
  ghost predicate SameAt(d: Draft, i: nat, b: nat, e: Draft, j: nat, c: nat)
    requires i < b <= |d.display| && j < c <= |e.display|
  {
    && d.display[i] == e.display[j]
    && Hides(d, i, b) == Hides(e, j, c)
    && (Hides(d, i, b) ==>
          var p, q := At(d.pastes, i).value, At(e.pastes, j).value;
          p.text == q.text && b - p.end == c - q.end)
  }

  /** The draft shows and hides the same in [a, b) as the other one in the range of the
      same length that ends at c. */
  ghost predicate SameRange(d: Draft, a: nat, b: nat, e: Draft, c: nat)
    requires a <= b <= |d.display| && b - a <= c <= |e.display|
  {
    forall i: nat, j: nat :: a <= i < b && j < c && b - i == c - j ==> SameAt(d, i, b, e, j, c)
  }

  lemma {:induction false} MeaningMoves(d: Draft, a: nat, b: nat, e: Draft, c: nat)
    requires a <= b <= |d.display| && b - a <= c <= |e.display|
    requires SameRange(d, a, b, e, c)
    ensures Meaning(e, c - (b - a), c) == Meaning(d, a, b)
    decreases b - a
  {
    if a < b {
      var a' := c - (b - a);
      assert SameAt(d, a, b, e, a', c);
      if Hides(d, a, b) {
        MeaningMoves(d, At(d.pastes, a).value.end, b, e, c);
      } else {
        MeaningMoves(d, a + 1, b, e, c);
      }
    }
  }

  lemma {:induction false} AtFinds(pastes: seq<PendingPaste>, p: PendingPaste)
    requires p in pastes
    ensures At(pastes, p.start).Some?
  {
    if pastes[0].start != p.start {
      AtFinds(pastes[1..], p);
    }
  }

  lemma AtIs(d: Draft, p: PendingPaste)
    requires WellFormed(d) && p in d.pastes
    ensures At(d.pastes, p.start) == Some(p)
  {
    AtFinds(d.pastes, p);
  }

  // ----- replacing keeps what it does not touch -----

  lemma {:induction false} ShiftedMembers(pastes: seq<PendingPaste>, from: nat, to: nat, inserted: nat)
    requires from <= to
    ensures forall q :: q in Shifted(pastes, from, to, inserted)
                   <==> exists p <- pastes :: Clear(p, from, to) && q == Moved(p, from, to, inserted)
  {
    if pastes != [] {
      ShiftedMembers(pastes[1..], from, to, inserted);
      forall q ensures q in Shifted(pastes, from, to, inserted)
                  <==> exists p <- pastes :: Clear(p, from, to) && q == Moved(p, from, to, inserted)
      {
        if exists p <- pastes :: Clear(p, from, to) && q == Moved(p, from, to, inserted) {
          var p :| p in pastes && Clear(p, from, to) && q == Moved(p, from, to, inserted);
          assert p == pastes[0] || p in pastes[1..];
        }
      }
    }
  }

  lemma MovedFits(d: Draft, from: nat, to: nat, inserted: Text, p: PendingPaste)
    requires WellFormed(d) && from <= to <= |d.display| && p in d.pastes && Clear(p, from, to)
    ensures var e, q := Replace(d, from, to, inserted), Moved(p, from, to, |inserted|);
            q.start < q.end <= |e.display| && e.display[q.start..q.end] == q.placeholder
  {
    if to <= p.start {
      SliceAfter(d.display, from, to, inserted, p.start, p.end);
    } else {
      SliceBefore(d.display, from, to, inserted, p.start, p.end);
    }
  }

  lemma SliceAfter(t: Text, from: nat, to: nat, inserted: Text, i: nat, j: nat)
    requires from <= to <= i <= j <= |t|
    ensures var e, k := t[..from] + inserted + t[to..], from + |inserted|;
            |e| == k + |t| - to && e[i - to + k..j - to + k] == t[i..j]
  {
    SliceOfTail(t[..from] + inserted, t[to..], i - to, j - to);
    SliceOfTail(t[..to], t[to..], i - to, j - to);
    assert t[..to] + t[to..] == t;
  }

  lemma SliceBefore(t: Text, from: nat, to: nat, inserted: Text, i: nat, j: nat)
    requires i <= j <= from <= to <= |t|
    ensures (t[..from] + inserted + t[to..])[i..j] == t[i..j]
  {
    SliceOfHead(t[..from] + inserted, t[to..], i, j);
    SliceOfHead(t[..from], inserted, i, j);
    SliceOfHead(t[..from], t[from..], i, j);
    assert t[..from] + t[from..] == t;
  }

  lemma SliceOfTail(a: Text, b: Text, i: nat, j: nat)
    requires i <= j <= |b|
    ensures (a + b)[|a| + i..|a| + j] == b[i..j]
  {
  }

  lemma SliceOfHead(a: Text, b: Text, i: nat, j: nat)
    requires i <= j <= |a|
    ensures (a + b)[i..j] == a[i..j]
  {
  }

  lemma MovedApart(p: PendingPaste, o: PendingPaste, from: nat, to: nat, inserted: nat)
    requires from <= to && Clear(p, from, to) && Clear(o, from, to)
    requires p.start < p.end && o.start < o.end && (p == o || p.end <= o.start || o.end <= p.start)
    ensures var q, r := Moved(p, from, to, inserted), Moved(o, from, to, inserted);
            q == r || q.end <= r.start || r.end <= q.start
  {
  }

  lemma ReplaceIsWellFormed(d: Draft, from: nat, to: nat, inserted: Text)
    requires WellFormed(d) && from <= to <= |d.display|
    ensures WellFormed(Replace(d, from, to, inserted))
  {
    hide Shifted, Moved;
    var e := Replace(d, from, to, inserted);
    ShiftedMembers(d.pastes, from, to, |inserted|);
    forall q | q in e.pastes
      ensures q.start < q.end <= |e.display| && e.display[q.start..q.end] == q.placeholder
    {
      var p :| p in d.pastes && Clear(p, from, to) && q == Moved(p, from, to, |inserted|);
      MovedFits(d, from, to, inserted, p);
    }
    forall q, r | q in e.pastes && r in e.pastes
      ensures q == r || q.end <= r.start || r.end <= q.start
    {
      var p :| p in d.pastes && Clear(p, from, to) && q == Moved(p, from, to, |inserted|);
      var o :| o in d.pastes && Clear(o, from, to) && r == Moved(o, from, to, |inserted|);
      MovedApart(p, o, from, to, |inserted|);
    }
  }

  /** A placeholder clear of the range is found where it has moved to ... */
  lemma FoundMoved(d: Draft, from: nat, to: nat, inserted: Text, p: PendingPaste)
    requires WellFormed(d) && from <= to <= |d.display| && p in d.pastes && Clear(p, from, to)
    ensures var e, q := Replace(d, from, to, inserted), Moved(p, from, to, |inserted|);
            At(e.pastes, q.start) == Some(q)
  {
    ReplaceIsWellFormed(d, from, to, inserted);
    ShiftedMembers(d.pastes, from, to, |inserted|);
    AtIs(Replace(d, from, to, inserted), Moved(p, from, to, |inserted|));
  }

  /** ... and every placeholder found afterwards has come from one. */
  lemma FoundBefore(d: Draft, from: nat, to: nat, inserted: Text, q: PendingPaste) returns (p: PendingPaste)
    requires WellFormed(d) && from <= to <= |d.display| && q in Replace(d, from, to, inserted).pastes
    ensures p in d.pastes && Clear(p, from, to) && q == Moved(p, from, to, |inserted|)
    ensures At(d.pastes, p.start) == Some(p)
  {
    ShiftedMembers(d.pastes, from, to, |inserted|);
    p :| p in d.pastes && Clear(p, from, to) && q == Moved(p, from, to, |inserted|);
    AtIs(d, p);
  }

  lemma SameBefore(d: Draft, from: nat, to: nat, inserted: Text, i: nat)
    requires WellFormed(d) && i < from <= to <= |d.display|
    ensures SameAt(d, i, from, Replace(d, from, to, inserted), i, from)
  {
    hide WellFormed, Shifted, At;
    var e := Replace(d, from, to, inserted);
    if Hides(d, i, from) {
      FoundMoved(d, from, to, inserted, At(d.pastes, i).value);
    }
    if Hides(e, i, from) {
      var p := FoundBefore(d, from, to, inserted, At(e.pastes, i).value);
    }
  }

  lemma SameAfter(d: Draft, from: nat, to: nat, inserted: Text, i: nat, j: nat)
    requires WellFormed(d) && from <= to <= i < |d.display|
    requires j == i - to + from + |inserted|
    ensures var e := Replace(d, from, to, inserted); j < |e.display| && SameAt(d, i, |d.display|, e, j, |e.display|)
  {
    var e := Replace(d, from, to, inserted);
    SliceAfter(d.display, from, to, inserted, i, i + 1);
    assert d.display[i] == d.display[i..i + 1][0] == e.display[j..j + 1][0] == e.display[j];
    if Hides(d, i, |d.display|) {
      HidesAfter(d, from, to, inserted, i, j);
    }
    HidBefore(d, from, to, inserted, i, j);
  }

  lemma HidesAfter(d: Draft, from: nat, to: nat, inserted: Text, i: nat, j: nat)
    requires WellFormed(d) && from <= to <= i < |d.display| && j == i - to + from + |inserted|
    requires Hides(d, i, |d.display|)
    ensures var e, p := Replace(d, from, to, inserted), At(d.pastes, i).value;
            Hides(e, j, |e.display|) && At(e.pastes, j) == Some(Moved(p, from, to, |inserted|))
  {
    FoundMoved(d, from, to, inserted, At(d.pastes, i).value);
  }

  lemma HidBefore(d: Draft, from: nat, to: nat, inserted: Text, i: nat, j: nat)
    requires WellFormed(d) && from <= to <= i < |d.display| && j == i - to + from + |inserted|
    ensures var e := Replace(d, from, to, inserted);
            At(e.pastes, j).Some? ==> Hides(d, i, |d.display|)
  {
    var e := Replace(d, from, to, inserted);
    if At(e.pastes, j).Some? {
      var p := FoundBefore(d, from, to, inserted, At(e.pastes, j).value);
    }
  }

  lemma InsertedIsClear(d: Draft, from: nat, to: nat, inserted: Text)
    requires WellFormed(d) && from <= to <= |d.display|
    ensures forall q <- Replace(d, from, to, inserted).pastes :: q.end <= from || q.start >= from + |inserted|
  {
    ShiftedMembers(d.pastes, from, to, |inserted|);
    forall q | q in Replace(d, from, to, inserted).pastes ensures q.end <= from || q.start >= from + |inserted| {
      var p :| p in d.pastes && Clear(p, from, to) && q == Moved(p, from, to, |inserted|);
    }
  }

  lemma MeaningBefore(d: Draft, from: nat, to: nat, inserted: Text)
    requires WellFormed(d) && from <= to <= |d.display|
    ensures Meaning(Replace(d, from, to, inserted), 0, from) == Meaning(d, 0, from)
  {
    hide Meaning, SameAt, WellFormed, Shifted;
    var e := Replace(d, from, to, inserted);
    forall i: nat, j: nat | 0 <= i < from && j < from && from - i == from - j ensures SameAt(d, i, from, e, j, from) {
      SameBefore(d, from, to, inserted, i);
    }
    MeaningMoves(d, 0, from, e, from);
  }

  lemma MeaningAfter(d: Draft, from: nat, to: nat, inserted: Text)
    requires WellFormed(d) && from <= to <= |d.display|
    ensures var e := Replace(d, from, to, inserted);
            Meaning(e, from + |inserted|, |e.display|) == Meaning(d, to, |d.display|)
  {
    hide Meaning, SameAt, WellFormed, Shifted;
    var e := Replace(d, from, to, inserted);
    forall i: nat, j: nat | to <= i < |d.display| && j < |e.display| && |d.display| - i == |e.display| - j
      ensures SameAt(d, i, |d.display|, e, j, |e.display|)
    {
      SameAfter(d, from, to, inserted, i, j);
    }
    MeaningMoves(d, to, |d.display|, e, |e.display|);
  }

  lemma ShowsInserted(d: Draft, from: nat, to: nat, inserted: Text)
    requires from <= to <= |d.display|
    ensures Replace(d, from, to, inserted).display[from..from + |inserted|] == inserted
  {
  }

  /** Replacing a range of the display replaces, in the plain text, what the range means by
      what is inserted; a placeholder the range cuts counts as the units it shows. */
  lemma ReplaceMeans(d: Draft, from: nat, to: nat, inserted: Text)
    requires WellFormed(d) && from <= to <= |d.display|
    ensures var e, mid := Replace(d, from, to, inserted), from + |inserted|;
            && WellFormed(e)
            && (forall q <- e.pastes :: q.end <= from || q.start >= mid)
            && e.display[from..mid] == inserted
            && Meaning(e, 0, from) == Meaning(d, 0, from)
            && Meaning(e, mid, |e.display|) == Meaning(d, to, |d.display|)
  {
    hide Meaning, At, WellFormed, Shifted;
    ReplaceIsWellFormed(d, from, to, inserted);
    InsertedIsClear(d, from, to, inserted);
    MeaningBefore(d, from, to, inserted);
    MeaningAfter(d, from, to, inserted);
    ShowsInserted(d, from, to, inserted);
  }

  // ----- editing -----

  /** The length of the longest common prefix, if the first n units are common. */
  function CommonPrefix(a: Text, b: Text, n: nat): (r: nat)
    requires n <= |a| && n <= |b|
    ensures n <= r <= |a| && r <= |b|
    decreases |a| - n
  {
    if n < |a| && n < |b| && a[n] == b[n] then CommonPrefix(a, b, n + 1) else n
  }

  /** The length of the longest common suffix that leaves the first `start` units alone,
      if the last n units are common. */
  function CommonSuffix(a: Text, b: Text, start: nat, n: nat): (r: nat)
    requires start + n <= |a| && start + n <= |b|
    ensures n <= r && start + r <= |a| && start + r <= |b|
    decreases |a| - n
  {
    if n < |a| - start && n < |b| - start && a[|a| - n - 1] == b[|b| - n - 1] then CommonSuffix(a, b, start, n + 1)
    else n
  }

  lemma {:induction false} LongPrefix(a: Text, b: Text, k: nat, n: nat)
    requires n <= k <= |a| && k <= |b| && a[..k] == b[..k]
    ensures CommonPrefix(a, b, n) >= k
    decreases k - n
  {
    if n < k {
      assert a[n] == a[..k][n] == b[n];
      LongPrefix(a, b, k, n + 1);
    }
  }

  lemma {:induction false} LongSuffix(a: Text, b: Text, start: nat, m: nat, n: nat)
    requires n <= m && start + m <= |a| && start + m <= |b| && a[|a| - m..] == b[|b| - m..]
    ensures CommonSuffix(a, b, start, n) >= m
    decreases m - n
  {
    if n < m {
      assert a[|a| - n - 1] == a[|a| - m..][m - n - 1] == b[|b| - m..][m - n - 1] == b[|b| - n - 1];
      LongSuffix(a, b, start, m, n + 1);
    }
  }

  lemma {:induction false} CommonPrefixMatches(a: Text, b: Text, n: nat)
    requires n <= |a| && n <= |b| && a[..n] == b[..n]
    ensures var r := CommonPrefix(a, b, n); a[..r] == b[..r] && (r < |a| && r < |b| ==> a[r] != b[r])
    decreases |a| - n
  {
    if n < |a| && n < |b| && a[n] == b[n] {
      assert a[..n + 1] == a[..n] + [a[n]] && b[..n + 1] == b[..n] + [b[n]];
      CommonPrefixMatches(a, b, n + 1);
    }
  }

  lemma {:induction false} CommonSuffixMatches(a: Text, b: Text, start: nat, n: nat)
    requires start + n <= |a| && start + n <= |b| && a[|a| - n..] == b[|b| - n..]
    ensures var r := CommonSuffix(a, b, start, n);
            && a[|a| - r..] == b[|b| - r..]
            && (start + r < |a| && start + r < |b| ==> a[|a| - r - 1] != b[|b| - r - 1])
    decreases |a| - n
  {
    if n < |a| - start && n < |b| - start && a[|a| - n - 1] == b[|b| - n - 1] {
      var i, j := |a| - n - 1, |b| - n - 1;
      assert a[i..] == [a[i]] + a[i + 1..] && b[j..] == [b[j]] + b[j + 1..];
      CommonSuffixMatches(a, b, start, n + 1);
    }
  }

  /** The edit intent leaves a placeholder alone. */
  predicate Spares(intent: Option<Intent>, p: PendingPaste) {
    match intent
    case None => true
    case Some(i) =>
      if i.end > i.start then i.end <= p.start || i.start >= p.end
      else if i.backward then i.start <= p.start || i.start > p.end
      else if i.forward then i.start < p.start || i.start >= p.end
      else i.start <= p.start || i.start >= p.end
  }

  /** What an edit removes by itself: the selection, or the unit before the caret, or the one
      behind it; nothing where text is only typed. */
  function Removes(i: Intent): (int, int) {
    if i.end > i.start then (i.start, i.end)
    else if i.backward then (i.start - 1, i.start)
    else if i.forward then (i.start, i.start + 1)
    else (i.start, i.start)
  }

  /** A placeholder is spared exactly when what the edit removes, or the place where it
      types, lies before it or behind it. */
  lemma SparesExactlyWhen(i: Intent, p: PendingPaste)
    requires p.start < p.end
    ensures Spares(Some(i), p) <==> Removes(i).1 <= p.start || Removes(i).0 >= p.end
    ensures Spares(None, p)
  {
  }

  function Spared(pastes: seq<PendingPaste>, intent: Option<Intent>): seq<PendingPaste> {
    if pastes == [] then []
    else (if Spares(intent, pastes[0]) then [pastes[0]] else []) + Spared(pastes[1..], intent)
  }

  lemma {:induction false} SparedMembers(pastes: seq<PendingPaste>, intent: Option<Intent>)
    ensures forall p :: p in Spared(pastes, intent) <==> p in pastes && Spares(intent, p)
  {
    if pastes != [] {
      SparedMembers(pastes[1..], intent);
    }
  }

  lemma {:induction false} NothingSpared(pastes: seq<PendingPaste>)
    ensures Spared(pastes, None) == pastes
  {
    if pastes != [] {
      NothingSpared(pastes[1..]);
    }
  }

  function Edit(d: Draft, next: Text, intent: Option<Intent>): Draft {
    var safe := d.(pastes := Spared(d.pastes, intent));
    if next == d.display then safe
    else
      var start := CommonPrefix(d.display, next, 0);
      var suffix := CommonSuffix(d.display, next, start, 0);
      ReplaceDraftRange(safe, start, |d.display| - suffix, next[start..|next| - suffix])
  }

  method MeasurePrefix(a: Text, b: Text) returns (start: nat)
    ensures start == CommonPrefix(a, b, 0)
  {
    start := 0;
    while start < |a| && start < |b| && a[start] == b[start]
      invariant start <= |a| && start <= |b| && CommonPrefix(a, b, start) == CommonPrefix(a, b, 0)
    {
      start := start + 1;
    }
  }

  method MeasureSuffix(a: Text, b: Text, start: nat) returns (suffix: nat)
    requires start <= |a| && start <= |b|
    ensures suffix == CommonSuffix(a, b, start, 0)
  {
    suffix := 0;
    while suffix < |a| - start && suffix < |b| - start && a[|a| - suffix - 1] == b[|b| - suffix - 1]
      invariant start + suffix <= |a| && start + suffix <= |b|
      invariant CommonSuffix(a, b, start, suffix) == CommonSuffix(a, b, start, 0)
    {
      suffix := suffix + 1;
    }
  }

  method EditComposerDraft(d: Draft, next: Text, intent: Option<Intent>) returns (r: Draft)
    ensures r == Edit(d, next, intent)
  {
    var safe := d.(pastes := Spared(d.pastes, intent));
    if next == d.display {
      return safe;
    }
    var start := MeasurePrefix(d.display, next);
    var suffix := MeasureSuffix(d.display, next, start);
    return ReplaceDraftRange(safe, start, |d.display| - suffix, next[start..|next| - suffix]);
  }

  /** The hunk an edit changes: [start, end) of the display. */
  function Hunk(d: Draft, next: Text): (r: (nat, nat))
    ensures r.0 <= r.1 <= |d.display|
  {
    if next == d.display then (0, 0)
    else
      var start := CommonPrefix(d.display, next, 0);
      (start, |d.display| - CommonSuffix(d.display, next, start, 0))
  }

  /** The hunk is where the two displays differ, and no larger: it ends on both sides at
      units that differ, or one of the displays ends there. */
  lemma HunkIsTheDifference(d: Draft, next: Text)
    requires next != d.display
    ensures var (from, to) := Hunk(d, next);
            var end := |next| - (|d.display| - to);
            && from <= end && next[..from] == d.display[..from] && next[end..] == d.display[to..]
            && (from < |d.display| && from < |next| ==> d.display[from] != next[from])
            && (from < to && from < end ==> d.display[to - 1] != next[end - 1])
  {
    var start := CommonPrefix(d.display, next, 0);
    CommonPrefixMatches(d.display, next, 0);
    CommonSuffixMatches(d.display, next, start, 0);
  }

  lemma Clamped(d: Draft, from: nat, to: nat, inserted: Text)
    requires from <= to <= |d.display|
    ensures ReplaceDraftRange(d, from, to, inserted) == Replace(d, from, to, inserted)
  {
  }

  /** Outside an unchanged display, an edit is one replacement of the hunk. */
  lemma EditShape(d: Draft, next: Text, intent: Option<Intent>)
    ensures var safe := d.(pastes := Spared(d.pastes, intent));
            var (from, to) := Hunk(d, next);
            Edit(d, next, intent)
            == if next == d.display then safe else Replace(safe, from, to, next[from..|next| - (|d.display| - to)])
  {
    if next != d.display {
      var (from, to) := Hunk(d, next);
      Clamped(d.(pastes := Spared(d.pastes, intent)), from, to, next[from..|next| - (|d.display| - to)]);
    }
  }

  lemma InThree(t: Text, i: nat, j: nat)
    requires i <= j <= |t|
    ensures t == t[..i] + t[i..j] + t[j..]
  {
  }

  lemma EditShows(d: Draft, next: Text, intent: Option<Intent>)
    ensures Edit(d, next, intent).display == next
  {
    EditShape(d, next, intent);
    if next != d.display {
      var (from, to) := Hunk(d, next);
      HunkIsTheDifference(d, next);
      InThree(next, from, |next| - (|d.display| - to));
    }
  }

  lemma EditPastes(d: Draft, next: Text, intent: Option<Intent>)
    ensures var (from, to) := Hunk(d, next);
            Edit(d, next, intent).pastes
            == if next == d.display then Spared(d.pastes, intent)
               else Shifted(Spared(d.pastes, intent), from, to, |next| - |d.display| + (to - from))
  {
    EditShape(d, next, intent);
  }

  /** q is a placeholder the intent spares and the hunk, if there is one, does not touch,
      moved with the text around it. */
  ghost predicate KeptBy(pastes: seq<PendingPaste>, intent: Option<Intent>, changed: bool, from: nat, to: nat,
                         inserted: nat, q: PendingPaste)
    requires from <= to
  {
    if changed then exists p <- pastes :: Spares(intent, p) && Clear(p, from, to) && q == Moved(p, from, to, inserted)
    else q in pastes && Spares(intent, q)
  }

  /** A placeholder the edit leaves, where the edit leaves it. */
  ghost predicate Kept(d: Draft, next: Text, intent: Option<Intent>, q: PendingPaste) {
    var (from, to) := Hunk(d, next);
    KeptBy(d.pastes, intent, next != d.display, from, to, |next| - |d.display| + (to - from), q)
  }

  lemma SparedAndShifted(pastes: seq<PendingPaste>, intent: Option<Intent>, from: nat, to: nat, inserted: nat,
                         q: PendingPaste)
    requires from <= to
    ensures q in Shifted(Spared(pastes, intent), from, to, inserted)
            <==> KeptBy(pastes, intent, true, from, to, inserted, q)
  {
    SparedMembers(pastes, intent);
    ShiftedMembers(Spared(pastes, intent), from, to, inserted);
  }

  lemma SparedIsWellFormed(d: Draft, intent: Option<Intent>)
    requires WellFormed(d)
    ensures WellFormed(d.(pastes := Spared(d.pastes, intent)))
  {
    SparedMembers(d.pastes, intent);
  }

  lemma UnchangedEdit(d: Draft, intent: Option<Intent>)
    ensures Edit(d, d.display, intent) == d.(pastes := Spared(d.pastes, intent))
  {
  }

  lemma ChangedEdit(d: Draft, next: Text, intent: Option<Intent>, from: nat, to: nat, typed: Text)
    requires next != d.display && (from, to) == Hunk(d, next) && typed == next[from..|next| - (|d.display| - to)]
    ensures Edit(d, next, intent) == Replace(d.(pastes := Spared(d.pastes, intent)), from, to, typed)
  {
    EditShape(d, next, intent);
  }

  lemma EditIsWellFormed(d: Draft, next: Text, intent: Option<Intent>)
    requires WellFormed(d)
    ensures WellFormed(Edit(d, next, intent))
  {
    SparedIsWellFormed(d, intent);
    if next == d.display {
      UnchangedEdit(d, intent);
    } else {
      var (from, to) := Hunk(d, next);
      var typed := next[from..|next| - (|d.display| - to)];
      ChangedEdit(d, next, intent, from, to, typed);
      ReplaceIsWellFormed(d.(pastes := Spared(d.pastes, intent)), from, to, typed);
    }
  }

  lemma EditKeeps(d: Draft, next: Text, intent: Option<Intent>, q: PendingPaste)
    ensures q in Edit(d, next, intent).pastes <==> Kept(d, next, intent, q)
  {
    hide Edit, CommonPrefix, CommonSuffix, Shifted, Spared, Spares;
    EditPastes(d, next, intent);
    if next == d.display {
      SparedMembers(d.pastes, intent);
    } else {
      var (from, to) := Hunk(d, next);
      SparedAndShifted(d.pastes, intent, from, to, |next| - |d.display| + (to - from), q);
    }
  }

  /** An edit ends with exactly the requested display, keeps the draft well formed, and
      keeps exactly the placeholders that neither the changed hunk nor the intent touches:
      the hidden text of any other one is gone for good. */
  lemma EditKeepsUntouched(d: Draft, next: Text, intent: Option<Intent>)
    requires WellFormed(d)
    ensures var e := Edit(d, next, intent);
            e.display == next && WellFormed(e) && forall q :: q in e.pastes <==> Kept(d, next, intent, q)
  {
    EditShows(d, next, intent);
    EditIsWellFormed(d, next, intent);
    forall q ensures q in Edit(d, next, intent).pastes <==> Kept(d, next, intent, q) {
      EditKeeps(d, next, intent, q);
    }
  }

  lemma UnchangedPlainText(d: Draft, intent: Option<Intent>, typed: Text)
    requires typed == []
    ensures var safe := d.(pastes := Spared(d.pastes, intent));
            PlainText(Edit(d, d.display, intent)) == Meaning(safe, 0, 0) + typed + Meaning(safe, 0, |d.display|)
  {
    UnchangedEdit(d, intent);
    NothingTyped(d.(pastes := Spared(d.pastes, intent)), typed);
  }

  lemma ChangedPlainText(d: Draft, next: Text, intent: Option<Intent>, from: nat, to: nat, typed: Text)
    requires WellFormed(d) && next != d.display
    requires (from, to) == Hunk(d, next) && typed == next[from..|next| - (|d.display| - to)]
    ensures var safe := d.(pastes := Spared(d.pastes, intent));
            PlainText(Edit(d, next, intent)) == Meaning(safe, 0, from) + typed + Meaning(safe, to, |d.display|)
  {
    SparedIsWellFormed(d, intent);
    ChangedEdit(d, next, intent, from, to, typed);
    VisiblePaste(d.(pastes := Spared(d.pastes, intent)), from, to, typed);
  }

  /** On the plain text an edit replaces what its hunk means, in the draft without the
      placeholders the intent touches, by what was typed. */
  lemma EditRefinesPlainText(d: Draft, next: Text, intent: Option<Intent>)
    requires WellFormed(d)
    ensures var safe := d.(pastes := Spared(d.pastes, intent));
            var (from, to) := Hunk(d, next);
            PlainText(Edit(d, next, intent))
            == Meaning(safe, 0, from) + next[from..|next| - (|d.display| - to)] + Meaning(safe, to, |d.display|)
  {
    var (from, to) := Hunk(d, next);
    if next == d.display {
      UnchangedPlainText(d, intent, next[from..|next| - (|d.display| - to)]);
    } else {
      ChangedPlainText(d, next, intent, from, to, next[from..|next| - (|d.display| - to)]);
    }
  }

  lemma NothingTyped(d: Draft, typed: Text)
    requires typed == []
    ensures PlainText(d) == Meaning(d, 0, 0) + typed + Meaning(d, 0, |d.display|)
  {
    assert [] + typed + PlainText(d) == PlainText(d);
  }

  // ----- pasting -----

  function PasteInto(d: Draft, text: Text, start: int, end: int): (Draft, nat) {
    var normalized := NormalizeNewlines(text);
    var charCount, from := CodePoints(normalized), From(d, start);
    var inserted := if charCount > LARGE_PASTE_CHAR_THRESHOLD then Placeholder(d.pastes, charCount) else normalized;
    var next := ReplaceDraftRange(d, from, end, inserted);
    if charCount <= LARGE_PASTE_CHAR_THRESHOLD then (next, from + |inserted|)
    else
      var paste := Paste(inserted, normalized, from, from + |inserted|);
      (next.(pastes := next.pastes + [paste]), paste.end)
  }

  /** Condensed paste refines plain paste: whatever is selected, and whether or not the
      paste is condensed, the plain text afterwards is the text before the selection, the
      normalised paste, and the text after it. */
  lemma PasteRefinesPlainText(d: Draft, text: Text, start: int, end: int)
    requires WellFormed(d)
    ensures var from, to, e := From(d, start), To(d, start, end), PasteInto(d, text, start, end).0;
            && WellFormed(e)
            && PlainText(e) == Meaning(d, 0, from) + NormalizeNewlines(text) + Meaning(d, to, |d.display|)
  {
    hide PasteInto, Placeholder, CodePoints, NormalizeNewlines, Meaning, PlainText, WellFormed, Replace;
    var normalized := NormalizeNewlines(text);
    var charCount, from, to := CodePoints(normalized), From(d, start), To(d, start, end);
    PasteShape(d, text, start, end);
    if charCount > LARGE_PASTE_CHAR_THRESHOLD {
      PlaceholderIsNew(d.pastes, charCount);
      CondensedPaste(d, from, to, Placeholder(d.pastes, charCount), normalized);
    } else {
      VisiblePaste(d, from, to, normalized);
    }
  }

  lemma InsertedEnds(d: Draft, from: nat, to: nat, inserted: Text)
    requires from <= to <= |d.display|
    ensures var e := Replace(d, from, to, inserted);
            && e.display[..from] == d.display[..from]
            && e.display[from..from + |inserted|] == inserted
            && e.display[from + |inserted|..] == d.display[to..]
  {
  }

  /** Where the caret goes: right behind what has been pasted. A paste of more than a
      thousand characters shows as a placeholder and is the one paste added; a smaller one
      shows as it is. */
  lemma PasteEndsAtTheCaret(d: Draft, text: Text, start: int, end: int)
    ensures var from, to, normalized := From(d, start), To(d, start, end), NormalizeNewlines(text);
            var (e, caret) := PasteInto(d, text, start, end);
            && from <= caret <= |e.display|
            && e.display[..from] == d.display[..from] && e.display[caret..] == d.display[to..]
            && var shown, kept := e.display[from..caret], Shifted(d.pastes, from, to, caret - from);
               if CodePoints(normalized) <= 1000 then shown == normalized && e.pastes == kept
               else
                 && (forall p <- d.pastes :: p.placeholder != shown)
                 && e.pastes == kept + [Paste(shown, normalized, from, caret)]
  {
    hide Placeholder, CodePoints, NormalizeNewlines, Shifted, ReplaceDraftRange;
    var from, to, normalized := From(d, start), To(d, start, end), NormalizeNewlines(text);
    var inserted := if CodePoints(normalized) <= 1000 then normalized
                    else Placeholder(d.pastes, CodePoints(normalized));
    ClampedTwice(d, start, end, inserted);
    InsertedEnds(d, from, to, inserted);
    PlaceholderIsNew(d.pastes, CodePoints(normalized));
  }

  /** Up to the caret the text means what was before the selection and then the paste, and
      behind it what was behind the selection. */
  lemma CaretFollowsThePaste(d: Draft, text: Text, start: int, end: int)
    requires WellFormed(d)
    ensures var from, to := From(d, start), To(d, start, end);
            var (e, caret) := PasteInto(d, text, start, end);
            && caret <= |e.display|
            && Meaning(e, 0, caret) == Meaning(d, 0, from) + NormalizeNewlines(text)
            && Meaning(e, caret, |e.display|) == Meaning(d, to, |d.display|)
  {
    hide Placeholder, CodePoints, NormalizeNewlines, Shifted, Meaning, WellFormed, ReplaceDraftRange, Replace;
    var from, to, normalized := From(d, start), To(d, start, end), NormalizeNewlines(text);
    var (e, caret) := PasteInto(d, text, start, end);
    PasteEndsAtTheCaret(d, text, start, end);
    PasteShape(d, text, start, end);
    if CodePoints(normalized) > LARGE_PASTE_CHAR_THRESHOLD {
      PlaceholderIsNew(d.pastes, CodePoints(normalized));
      CondensedParts(d, from, to, Placeholder(d.pastes, CodePoints(normalized)), normalized);
    } else {
      VisibleParts(d, from, to, normalized);
    }
  }

  lemma VisibleParts(d: Draft, from: nat, to: nat, text: Text)
    requires WellFormed(d) && from <= to <= |d.display|
    ensures var e, mid := Replace(d, from, to, text), from + |text|;
            && mid <= |e.display| && Meaning(e, 0, mid) == Meaning(d, 0, from) + text
            && Meaning(e, mid, |e.display|) == Meaning(d, to, |d.display|)
  {
    hide Meaning, Shifted;
    var e, mid := Replace(d, from, to, text), from + |text|;
    ReplaceMeans(d, from, to, text);
    MeaningOfVisible(e, from, mid);
    MeaningSplit(e, 0, from, mid);
  }

  lemma CondensedParts(d: Draft, from: nat, to: nat, placeholder: Text, text: Text)
    requires WellFormed(d) && from <= to <= |d.display| && placeholder != []
    ensures var mid := from + |placeholder|;
            var e := Track(Replace(d, from, to, placeholder), from, mid, text);
            && mid <= |e.display| && Meaning(e, 0, mid) == Meaning(d, 0, from) + text
            && Meaning(e, mid, |e.display|) == Meaning(d, to, |d.display|)
  {
    hide Meaning, Shifted, PlainText;
    var r, mid := Replace(d, from, to, placeholder), from + |placeholder|;
    ReplaceMeans(d, from, to, placeholder);
    TrackIsWellFormed(r, from, mid, text);
    SameBeforeTrack(r, from, mid, text);
    SameAfterTrack(r, from, mid, text);
    TrackedMeans(r, from, mid, text);
    MeaningSplit(Track(r, from, mid, text), 0, from, mid);
  }

  lemma PasteShape(d: Draft, text: Text, start: int, end: int)
    ensures var normalized, from, to := NormalizeNewlines(text), From(d, start), To(d, start, end);
            var charCount, placeholder := CodePoints(normalized), Placeholder(d.pastes, CodePoints(normalized));
            PasteInto(d, text, start, end).0
            == if charCount > LARGE_PASTE_CHAR_THRESHOLD then
                 Track(Replace(d, from, to, placeholder), from, from + |placeholder|, normalized)
               else Replace(d, from, to, normalized)
  {
    hide Placeholder, CodePoints, NormalizeNewlines, Shifted, ReplaceDraftRange;
    var from, to := From(d, start), To(d, start, end);
    var normalized := NormalizeNewlines(text);
    var placeholder := Placeholder(d.pastes, CodePoints(normalized));
    ClampedTwice(d, start, end, placeholder);
    ClampedTwice(d, start, end, normalized);
    ShowsInserted(d, from, to, placeholder);
  }

  lemma ClampedTwice(d: Draft, start: int, end: int, inserted: Text)
    ensures ReplaceDraftRange(d, From(d, start), end, inserted)
            == Replace(d, From(d, start), To(d, start, end), inserted)
  {
  }

  lemma VisiblePaste(d: Draft, from: nat, to: nat, text: Text)
    requires WellFormed(d) && from <= to <= |d.display|
    ensures var e := Replace(d, from, to, text);
            WellFormed(e) && PlainText(e) == Meaning(d, 0, from) + text + Meaning(d, to, |d.display|)
  {
    hide Meaning, PlainText, Shifted;
    ReplaceMeans(d, from, to, text);
    MeaningOfVisible(Replace(d, from, to, text), from, from + |text|);
    InThreeParts(Replace(d, from, to, text), from, from + |text|);
  }

  lemma CondensedPaste(d: Draft, from: nat, to: nat, placeholder: Text, text: Text)
    requires WellFormed(d) && from <= to <= |d.display| && placeholder != []
    ensures var e := Track(Replace(d, from, to, placeholder), from, from + |placeholder|, text);
            WellFormed(e) && PlainText(e) == Meaning(d, 0, from) + text + Meaning(d, to, |d.display|)
  {
    hide Meaning, PlainText, Shifted;
    ReplaceMeans(d, from, to, placeholder);
    AppendedPaste(Replace(d, from, to, placeholder), from, from + |placeholder|, text);
  }

  lemma InThreeParts(d: Draft, from: nat, mid: nat)
    requires from <= mid <= |d.display| && Uncut(d, from) && Uncut(d, mid)
    ensures PlainText(d) == Meaning(d, 0, from) + Meaning(d, from, mid) + Meaning(d, mid, |d.display|)
  {
    MeaningSplit(d, 0, from, |d.display|);
    MeaningSplit(d, from, mid, |d.display|);
    var a, b, c := Meaning(d, 0, from), Meaning(d, from, mid), Meaning(d, mid, |d.display|);
    assert a + (b + c) == a + b + c;
  }

  function Track(d: Draft, from: nat, mid: nat, text: Text): Draft
    requires from <= mid <= |d.display|
  {
    d.(pastes := d.pastes + [Paste(d.display[from..mid], text, from, mid)])
  }

  lemma TrackIsWellFormed(d: Draft, from: nat, mid: nat, text: Text)
    requires WellFormed(d) && from < mid <= |d.display|
    requires forall q <- d.pastes :: q.end <= from || q.start >= mid
    ensures WellFormed(Track(d, from, mid, text))
  {
    var paste := Paste(d.display[from..mid], text, from, mid);
    assert forall q :: q in Track(d, from, mid, text).pastes <==> q in d.pastes || q == paste;
  }

  lemma SameOutside(d: Draft, from: nat, mid: nat, text: Text, i: nat, b: nat)
    requires WellFormed(d) && from < mid <= |d.display| && i < b <= |d.display| && (b <= from || i >= mid)
    requires forall q <- d.pastes :: q.end <= from || q.start >= mid
    ensures SameAt(d, i, b, Track(d, from, mid, text), i, b)
  {
    var e := Track(d, from, mid, text);
    TrackIsWellFormed(d, from, mid, text);
    if Hides(d, i, b) {
      AtIs(e, At(d.pastes, i).value);
    }
    if Hides(e, i, b) {
      AtIs(d, At(e.pastes, i).value);
    }
  }

  lemma SameBeforeTrack(d: Draft, from: nat, mid: nat, text: Text)
    requires WellFormed(d) && from < mid <= |d.display|
    requires forall q <- d.pastes :: q.end <= from || q.start >= mid
    ensures Meaning(Track(d, from, mid, text), 0, from) == Meaning(d, 0, from)
  {
    var e := Track(d, from, mid, text);
    forall i: nat, j: nat | 0 <= i < from && j < from && from - i == from - j ensures SameAt(d, i, from, e, j, from) {
      SameOutside(d, from, mid, text, i, from);
    }
    MeaningMoves(d, 0, from, e, from);
  }

  lemma SameAfterTrack(d: Draft, from: nat, mid: nat, text: Text)
    requires WellFormed(d) && from < mid <= |d.display|
    requires forall q <- d.pastes :: q.end <= from || q.start >= mid
    ensures Meaning(Track(d, from, mid, text), mid, |d.display|) == Meaning(d, mid, |d.display|)
  {
    var e, n := Track(d, from, mid, text), |d.display|;
    forall i: nat, j: nat | mid <= i < n && j < n && n - i == n - j ensures SameAt(d, i, n, e, j, n) {
      SameOutside(d, from, mid, text, i, n);
    }
    MeaningMoves(d, mid, n, e, n);
  }

  lemma TrackedMeans(d: Draft, from: nat, mid: nat, text: Text)
    requires from < mid <= |d.display| && WellFormed(Track(d, from, mid, text))
    ensures Meaning(Track(d, from, mid, text), from, mid) == text
  {
    var e := Track(d, from, mid, text);
    AtIs(e, e.pastes[|d.pastes|]);
    assert Meaning(e, mid, mid) == [] && text + [] == text;
  }

  /** Tracking a paste over a stretch no other placeholder touches hides its text there
      and changes nothing around it. */
  lemma AppendedPaste(d: Draft, from: nat, mid: nat, text: Text)
    requires WellFormed(d) && from < mid <= |d.display|
    requires forall q <- d.pastes :: q.end <= from || q.start >= mid
    ensures var e := Track(d, from, mid, text);
            WellFormed(e) && PlainText(e) == Meaning(d, 0, from) + text + Meaning(d, mid, |d.display|)
  {
    TrackIsWellFormed(d, from, mid, text);
    SameBeforeTrack(d, from, mid, text);
    SameAfterTrack(d, from, mid, text);
    TrackedMeans(d, from, mid, text);
    InThreeParts(Track(d, from, mid, text), from, mid);
  }

  // ----- the selection of a paste, as plain text -----

  /** When the selection cuts no placeholder, the plain text before the paste is made of
      the same parts around the text selected: pasting replaces exactly that. */
  lemma SelectionOfPlainText(d: Draft, start: int, end: int)
    requires Uncut(d, From(d, start)) && Uncut(d, To(d, start, end))
    ensures var from, to := From(d, start), To(d, start, end);
            PlainText(d) == Meaning(d, 0, from) + Meaning(d, from, to) + Meaning(d, to, |d.display|)
  {
    InThreeParts(d, From(d, start), To(d, start, end));
  }

  // ----- distinct placeholders -----

  function Placeholders(pastes: seq<PendingPaste>): set<Text> {
    if pastes == [] then {} else {pastes[0].placeholder} + Placeholders(pastes[1..])
  }

  ghost predicate DistinctPlaceholders(pastes: seq<PendingPaste>) {
    pastes == [] || (pastes[0].placeholder !in Placeholders(pastes[1..]) && DistinctPlaceholders(pastes[1..]))
  }

  lemma {:induction false} ShiftedPlaceholders(pastes: seq<PendingPaste>, from: nat, to: nat, inserted: nat)
    requires from <= to
    ensures Placeholders(Shifted(pastes, from, to, inserted)) <= Placeholders(pastes)
    ensures DistinctPlaceholders(pastes) ==> DistinctPlaceholders(Shifted(pastes, from, to, inserted))
  {
    if pastes != [] {
      ShiftedPlaceholders(pastes[1..], from, to, inserted);
      var tail := Shifted(pastes[1..], from, to, inserted);
      if Clear(pastes[0], from, to) {
        assert Shifted(pastes, from, to, inserted)[1..] == tail;
      } else {
        assert Shifted(pastes, from, to, inserted) == tail;
      }
    }
  }

  lemma {:induction false} SparedPlaceholders(pastes: seq<PendingPaste>, intent: Option<Intent>)
    ensures Placeholders(Spared(pastes, intent)) <= Placeholders(pastes)
    ensures DistinctPlaceholders(pastes) ==> DistinctPlaceholders(Spared(pastes, intent))
  {
    if pastes != [] {
      SparedPlaceholders(pastes[1..], intent);
      var tail := Spared(pastes[1..], intent);
      if Spares(intent, pastes[0]) {
        assert Spared(pastes, intent)[1..] == tail;
      } else {
        assert Spared(pastes, intent) == tail;
      }
    }
  }

  lemma {:induction false} AppendPlaceholder(pastes: seq<PendingPaste>, p: PendingPaste)
    requires DistinctPlaceholders(pastes) && forall q <- pastes :: q.placeholder != p.placeholder
    ensures DistinctPlaceholders(pastes + [p])
    ensures Placeholders(pastes + [p]) == Placeholders(pastes) + {p.placeholder}
  {
    if pastes != [] {
      assert (pastes + [p])[1..] == pastes[1..] + [p];
      AppendPlaceholder(pastes[1..], p);
    }
  }

  datatype DraftOp = EditOp(next: Text, intent: Option<Intent>) | PasteOp(text: Text, start: int, end: int)

  function Perform(d: Draft, op: DraftOp): Draft {
    match op
    case EditOp(next, intent) => Edit(d, next, intent)
    case PasteOp(text, start, end) => PasteInto(d, text, start, end).0
  }

  lemma EditKeepsDistinct(d: Draft, next: Text, intent: Option<Intent>)
    requires DistinctPlaceholders(d.pastes)
    ensures DistinctPlaceholders(Edit(d, next, intent).pastes)
  {
    hide CommonPrefix, CommonSuffix, Edit, Spared, Shifted, Placeholders, DistinctPlaceholders;
    SparedPlaceholders(d.pastes, intent);
    EditPastes(d, next, intent);
    var (from, to) := Hunk(d, next);
    ShiftedPlaceholders(Spared(d.pastes, intent), from, to, |next| - |d.display| + (to - from));
  }

  lemma TrackKeepsDistinct(d: Draft, from: nat, to: nat, placeholder: Text, text: Text)
    requires DistinctPlaceholders(d.pastes) && from <= to <= |d.display|
    requires forall p <- d.pastes :: p.placeholder != placeholder
    ensures DistinctPlaceholders(Track(Replace(d, from, to, placeholder), from, from + |placeholder|, text).pastes)
  {
    var next := Replace(d, from, to, placeholder);
    ShiftedPlaceholders(d.pastes, from, to, |placeholder|);
    ShiftedMembers(d.pastes, from, to, |placeholder|);
    assert next.display[from..from + |placeholder|] == placeholder;
    AppendPlaceholder(next.pastes, Paste(placeholder, text, from, from + |placeholder|));
  }

  lemma PasteKeepsDistinct(d: Draft, text: Text, start: int, end: int)
    requires DistinctPlaceholders(d.pastes)
    ensures DistinctPlaceholders(PasteInto(d, text, start, end).0.pastes)
  {
    hide PasteInto, Placeholder, DistinctPlaceholders, CodePoints, NormalizeNewlines;
    var normalized, from, to := NormalizeNewlines(text), From(d, start), To(d, start, end);
    var charCount := CodePoints(normalized);
    PasteShape(d, text, start, end);
    if charCount > LARGE_PASTE_CHAR_THRESHOLD {
      PlaceholderIsNew(d.pastes, charCount);
      TrackKeepsDistinct(d, from, to, Placeholder(d.pastes, charCount), normalized);
    } else {
      ShiftedPlaceholders(d.pastes, from, to, |normalized|);
    }
  }

  /** Every draft that edits and pastes can make is well formed, with distinct placeholders. */
  lemma {:induction false} ReachableDrafts(display: Text, ops: seq<DraftOp>) returns (d: Draft)
    ensures d == PerformAll(ComposerDraft(display), ops)
    ensures WellFormed(d) && DistinctPlaceholders(d.pastes)
  {
    d := ComposerDraft(display);
    if ops != [] {
      var n := |ops| - 1;
      var e := ReachableDrafts(display, ops[..n]);
      d := Perform(e, ops[n]);
      match ops[n] {
        case EditOp(next, intent) =>
          EditKeepsUntouched(e, next, intent);
          EditKeepsDistinct(e, next, intent);
        case PasteOp(text, start, end) =>
          PasteRefinesPlainText(e, text, start, end);
          PasteKeepsDistinct(e, text, start, end);
      }
    }
  }

  function PerformAll(d: Draft, ops: seq<DraftOp>): Draft {
    if ops == [] then d else Perform(PerformAll(d, ops[..|ops| - 1]), ops[|ops| - 1])
  }

  // ----- expanding -----

  predicate StartsFirst(p: PendingPaste, q: PendingPaste) {
    p.start <= q.start
  }

  /** The pastes whose placeholder is still shown at their range. */
  function Intact(d: Draft, pastes: seq<PendingPaste>): seq<PendingPaste> {
    if pastes == [] then []
    else
      (if Slice(d.display, pastes[0].start, pastes[0].end) == pastes[0].placeholder then [pastes[0]] else [])
      + Intact(d, pastes[1..])
  }

  lemma {:induction false} IntactMembers(d: Draft, pastes: seq<PendingPaste>)
    ensures forall p :: p in Intact(d, pastes) <==> p in pastes && Slice(d.display, p.start, p.end) == p.placeholder
  {
    if pastes != [] {
      IntactMembers(d, pastes[1..]);
    }
  }

  function Splice(display: Text, pastes: seq<PendingPaste>, copied: nat): Text {
    if pastes == [] then Slice(display, copied, |display|)
    else if pastes[0].start < copied then Splice(display, pastes[1..], copied)
    else
      Slice(display, copied, pastes[0].start) + pastes[0].text + Splice(display, pastes[1..], pastes[0].end)
  }

  function Expand(d: Draft): Text {
    Splice(d.display, Sort(Intact(d, d.pastes), StartsFirst), 0)
  }

  method ExpandComposerDraft(d: Draft) returns (expanded: Text)
    ensures expanded == Expand(d)
    ensures WellFormed(d) ==> expanded == PlainText(d)
  {
    var pastes := Sort(Intact(d, d.pastes), StartsFirst);
    expanded := [];
    var copied := 0;
    for i := 0 to |pastes|
      invariant expanded + Splice(d.display, pastes[i..], copied) == Expand(d)
    {
      assert pastes[i..][1..] == pastes[i + 1..];
      var paste := pastes[i];
      if paste.start < copied {
        continue;
      }
      ghost var rest := Splice(d.display, pastes[i + 1..], paste.end);
      var next := Slice(d.display, copied, paste.start) + paste.text;
      assert expanded + (next + rest) == expanded + next + rest;
      expanded := expanded + next;
      copied := paste.end;
    }
    expanded := expanded + Slice(d.display, copied, |d.display|);
    if WellFormed(d) {
      ExpandIsPlainText(d);
    }
  }

  /** The sorted, spliced expansion is the left-to-right reading of the draft. */
  lemma ExpandIsPlainText(d: Draft)
    requires WellFormed(d)
    ensures Expand(d) == PlainText(d)
  {
    var pastes := Sort(Intact(d, d.pastes), StartsFirst);
    SortSorted(Intact(d, d.pastes), StartsFirst);
    IntactMembers(d, d.pastes);
    forall p ensures p in pastes <==> p in d.pastes {
      SortMembers(Intact(d, d.pastes), StartsFirst, p);
    }
    SpliceIsMeaning(d, pastes, 0);
  }

  lemma {:induction false} SpliceIsMeaning(d: Draft, pastes: seq<PendingPaste>, from: nat)
    requires WellFormed(d) && from <= |d.display| && Sorted(pastes, StartsFirst)
    requires forall p <- pastes :: p in d.pastes
    requires forall p <- d.pastes :: p.start >= from ==> p in pastes
    ensures Splice(d.display, pastes, from) == Meaning(d, from, |d.display|)
    decreases |pastes|
  {
    hide Meaning;
    if pastes == [] {
      MeaningOfVisible(d, from, |d.display|);
    } else {
      var p, rest := pastes[0], pastes[1..];
      assert pastes == [p] + rest && p in d.pastes;
      if p.start < from {
        SpliceIsMeaning(d, rest, from);
      } else {
        NextPaste(d, p, from);
        SpliceIsMeaning(d, rest, p.end);
      }
    }
  }

  /** The text up to the next placeholder is visible. */
  lemma NextPaste(d: Draft, p: PendingPaste, from: nat)
    requires WellFormed(d) && p in d.pastes && from <= p.start
    requires forall q <- d.pastes :: from <= q.start ==> p.start <= q.start
    ensures Meaning(d, from, |d.display|) == d.display[from..p.start] + p.text + Meaning(d, p.end, |d.display|)
  {
    AtIs(d, p);
    VisibleUpTo(d, from, p.start);
    var shown, rest := d.display[from..p.start], Meaning(d, p.end, |d.display|);
    assert shown + (p.text + rest) == shown + p.text + rest;
  }

  lemma {:induction false} VisibleUpTo(d: Draft, from: nat, to: nat)
    requires from <= to <= |d.display|
    requires forall p <- d.pastes :: !(from <= p.start < to)
    ensures Meaning(d, from, |d.display|) == d.display[from..to] + Meaning(d, to, |d.display|)
    decreases |d.display| - from
  {
    hide At;
    if from < to {
      VisibleUpTo(d, from + 1, to);
      assert d.display[from..to] == [d.display[from]] + d.display[from + 1..to];
    }
  }
}
