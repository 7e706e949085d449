/** Replacing a slot of a condensed draft through the hunk of an edit, as dictation does
    (apps/desktop/src/dictation.ts over apps/desktop/src/composer-paste.ts): when the hunk
    treats every placeholder as the slot itself would. */
module SlotEdits {
  import opened Wrappers
  import opened Utf16
  import opened ComposerPaste

  // ----- whatever is hidden -----

  datatype Change = Change(from: nat, to: nat, inserted: Text)

  predicate Fits(d: Draft, c: Change) {
    c.from <= c.to <= |d.display|
  }

  function Changed(d: Draft, c: Change): Draft
    requires Fits(d, c)
  {
    Replace(d, c.from, c.to, c.inserted)
  }

  /** What becomes of a placeholder. */
  function Fate(p: PendingPaste, c: Change): Option<PendingPaste>
    requires c.from <= c.to
  {
    if Clear(p, c.from, c.to) then Some(Moved(p, c.from, c.to, |c.inserted|)) else None
  }

  function Hidden(pastes: seq<PendingPaste>, mask: PendingPaste -> Text): seq<PendingPaste> {
    seq(|pastes|, i requires 0 <= i < |pastes| => pastes[i].(text := mask(pastes[i])))
  }

  /** The draft with other texts behind its placeholders. */
  function Hiding(d: Draft, mask: PendingPaste -> Text): Draft {
    d.(pastes := Hidden(d.pastes, mask))
  }

  lemma HidingIsWellFormed(d: Draft, mask: PendingPaste -> Text)
    requires WellFormed(d)
    ensures WellFormed(Hiding(d, mask))
  {
    var e := Hiding(d, mask);
    forall q | q in e.pastes ensures exists p <- d.pastes :: q == p.(text := mask(p)) {
      var i :| 0 <= i < |e.pastes| && e.pastes[i] == q;
      assert d.pastes[i] in d.pastes;
    }
  }

  /** Whatever the placeholders hide, the two changes leave the same plain text. */
  ghost predicate SameText(d: Draft, x: Change, y: Change)
    requires Fits(d, x) && Fits(d, y)
  {
    forall mask: PendingPaste -> Text ::
      PlainText(Changed(Hiding(d, mask), x)) == PlainText(Changed(Hiding(d, mask), y))
  }

  ghost predicate SameFates(d: Draft, x: Change, y: Change)
    requires Fits(d, x) && Fits(d, y)
  {
    forall p <- d.pastes :: Fate(p, x) == Fate(p, y)
  }

  lemma {:induction false} FatesDecide(pastes: seq<PendingPaste>, mask: PendingPaste -> Text, x: Change, y: Change)
    requires x.from <= x.to && y.from <= y.to
    requires forall p <- pastes :: Fate(p, x) == Fate(p, y)
    ensures Shifted(Hidden(pastes, mask), x.from, x.to, |x.inserted|)
         == Shifted(Hidden(pastes, mask), y.from, y.to, |y.inserted|)
  {
    if pastes != [] {
      var hidden := Hidden(pastes, mask);
      assert hidden[1..] == Hidden(pastes[1..], mask);
      assert Fate(pastes[0], x) == Fate(pastes[0], y);
      FateOfHidden(pastes[0], mask(pastes[0]), x);
      FateOfHidden(pastes[0], mask(pastes[0]), y);
      assert Fate(hidden[0], x) == Fate(hidden[0], y);
      FatesDecide(pastes[1..], mask, x, y);
    }
  }

  lemma FateOfHidden(p: PendingPaste, text: Text, c: Change)
    requires c.from <= c.to
    ensures var q: PendingPaste := p.(text := text);
            match Fate(p, c)
            case None => Fate(q, c) == None
            case Some(r) => Fate(q, c) == Some(r.(text := text))
  {
  }

  /** Where placeholders hide what they show, the text reads as it is displayed. */
  lemma {:induction false} ReadsAsShown(d: Draft, i: nat, j: nat)
    requires WellFormed(d) && i <= j <= |d.display|
    requires forall p <- d.pastes :: i <= p.start && p.end <= j ==> p.text == p.placeholder
    ensures Meaning(d, i, j) == d.display[i..j]
    decreases j - i
  {
    hide WellFormed, At;
    if i < j {
      var p := At(d.pastes, i);
      if p.Some? && i < p.value.end <= j {
        ReadsAsShown(d, p.value.end, j);
        ShownFirst(d, p.value, j);
      } else {
        ReadsAsShown(d, i + 1, j);
      }
    }
  }

  lemma ShownFirst(d: Draft, p: PendingPaste, j: nat)
    requires WellFormed(d) && p in d.pastes && p.end <= j <= |d.display|
    ensures d.display[p.start..j] == p.placeholder + d.display[p.end..j]
  {
  }

  /** One placeholder alone hides something else. */
  lemma OneHidden(d: Draft, r: PendingPaste)
    requires WellFormed(d) && r in d.pastes
    requires forall p <- d.pastes :: p != r ==> p.text == p.placeholder
    ensures PlainText(d) == d.display[..r.start] + r.text + d.display[r.end..]
  {
    hide PlainText, Meaning, At;
    ReadsAsShown(d, 0, r.start);
    ReadsAsShown(d, r.end, |d.display|);
    MeaningOfOne(d, r);
    InThreeParts(d, r.start, r.end);
    assert d.display[0..r.start] == d.display[..r.start] && d.display[r.end..|d.display|] == d.display[r.end..];
  }

  lemma MeaningOfOne(d: Draft, r: PendingPaste)
    requires WellFormed(d) && r in d.pastes
    ensures Meaning(d, r.start, r.end) == r.text
  {
    AtIs(d, r);
    assert Meaning(d, r.end, r.end) == [] && r.text + [] == r.text;
  }

  /** Every placeholder hides what it shows, but for one. */
  function AllButOne(p: PendingPaste, text: Text): PendingPaste -> Text {
    (q: PendingPaste) => if q == p then text else q.placeholder
  }

  lemma HiddenMembers(pastes: seq<PendingPaste>, mask: PendingPaste -> Text, q: PendingPaste)
    ensures q in Hidden(pastes, mask) <==> exists p <- pastes :: q == p.(text := mask(p))
  {
    var hidden := Hidden(pastes, mask);
    if q in hidden {
      var i :| 0 <= i < |hidden| && hidden[i] == q;
      assert pastes[i] in pastes;
    }
    if exists p <- pastes :: q == p.(text := mask(p)) {
      var p :| p in pastes && q == p.(text := mask(p));
      var i :| 0 <= i < |pastes| && pastes[i] == p;
      assert hidden[i] == q;
    }
  }

  lemma ChangedMembers(d: Draft, mask: PendingPaste -> Text, c: Change, q: PendingPaste)
    requires Fits(d, c)
    ensures q in Changed(Hiding(d, mask), c).pastes
       <==> exists p: PendingPaste <- d.pastes :: Fate(p.(text := mask(p)), c) == Some(q)
  {
    ShiftedMembers(Hidden(d.pastes, mask), c.from, c.to, |c.inserted|);
    if q in Changed(Hiding(d, mask), c).pastes {
      var h :| h in Hidden(d.pastes, mask) && Clear(h, c.from, c.to) && q == Moved(h, c.from, c.to, |c.inserted|);
      HiddenMembers(d.pastes, mask, h);
    }
    if exists p: PendingPaste <- d.pastes :: Fate(p.(text := mask(p)), c) == Some(q) {
      var p: PendingPaste :| p in d.pastes && Fate(p.(text := mask(p)), c) == Some(q);
      HiddenMembers(d.pastes, mask, p.(text := mask(p)));
    }
  }

  /** The plain text after a change when one placeholder hides a marked text: the display,
      with the mark where that placeholder has come. */
  lemma MarkedText(d: Draft, p: PendingPaste, text: Text, c: Change)
    requires WellFormed(d) && p in d.pastes && Fits(d, c)
    ensures var e := Changed(Hiding(d, AllButOne(p, text)), c);
            match Fate(p, c)
            case None => PlainText(e) == e.display
            case Some(r) => r.end <= |e.display| && e.display[r.start..r.end] == r.placeholder == p.placeholder
                            && PlainText(e) == e.display[..r.start] + text + e.display[r.end..]
  {
    hide PlainText, Meaning, Fate, Hidden, WellFormed, Shifted;
    var mask := AllButOne(p, text);
    var e := Changed(Hiding(d, mask), c);
    MarkedPastes(d, p, text, c);
    match Fate(p, c) {
      case None => WholeAsShown(e);
      case Some(r) =>
        OneHidden(e, r.(text := text));
        PlaceholderShown(e, r.(text := text));
        FateOfHidden(p, text, c);
        FateKeepsName(p, c);
    }
  }

  lemma FateKeepsName(p: PendingPaste, c: Change)
    requires c.from <= c.to && Fate(p, c).Some?
    ensures Fate(p, c).value.placeholder == p.placeholder
  {
  }

  lemma PlaceholderShown(d: Draft, p: PendingPaste)
    requires WellFormed(d) && p in d.pastes
    ensures p.start < p.end <= |d.display| && d.display[p.start..p.end] == p.placeholder
  {
  }

  lemma WholeAsShown(d: Draft)
    requires WellFormed(d) && forall p <- d.pastes :: p.text == p.placeholder
    ensures PlainText(d) == d.display
  {
    ReadsAsShown(d, 0, |d.display|);
  }

  /** After a change only the marked placeholder hides something else than it shows. */
  lemma MarkedPastes(d: Draft, p: PendingPaste, text: Text, c: Change)
    requires WellFormed(d) && p in d.pastes && Fits(d, c)
    ensures var e := Changed(Hiding(d, AllButOne(p, text)), c);
            && WellFormed(e)
            && (forall q <- e.pastes ::
                  q.text == q.placeholder || (Fate(p, c).Some? && q == Fate(p, c).value.(text := text)))
            && (Fate(p, c).Some? ==> Fate(p, c).value.(text := text) in e.pastes)
  {
    hide WellFormed, Fate, Hidden, Shifted;
    var mask := AllButOne(p, text);
    var e := Changed(Hiding(d, mask), c);
    HidingIsWellFormed(d, mask);
    ReplaceIsWellFormed(Hiding(d, mask), c.from, c.to, c.inserted);
    FateOfHidden(p, text, c);
    forall q | q in e.pastes
      ensures q.text == q.placeholder || (Fate(p, c).Some? && q == Fate(p, c).value.(text := text))
    {
      ChangedMembers(d, mask, c, q);
      var o: PendingPaste :| o in d.pastes && Fate(o.(text := mask(o)), c) == Some(q);
      FateOfHidden(o, mask(o), c);
      if o != p {
        FateKeepsName(o, c);
      }
    }
    if Fate(p, c).Some? {
      ChangedMembers(d, mask, c, Fate(p, c).value.(text := text));
    }
  }

  /** A mark shows where it is put. */
  lemma MarksDiffer(t: Text, x: nat, y: nat, shown: Text, mark: Unit)
    requires x + |shown| <= |t| && y + |shown| <= |t| && x < y
    requires t[x..x + |shown|] == shown == t[y..y + |shown|] && mark != t[x + |shown|]
    ensures t[..x] + (shown + [mark]) + t[x + |shown|..] != t[..y] + (shown + [mark]) + t[y + |shown|..]
  {
    var k := x + |shown|;
    var one, two := t[..x] + (shown + [mark]) + t[k..], t[..y] + (shown + [mark]) + t[y + |shown|..];
    assert one[k] == mark;
    if k < y {
      assert two[k] == t[k];
    } else {
      assert two[k] == shown[k - y] == t[y..y + |shown|][k - y] == t[k];
    }
  }

  function Other(u: Unit): Unit {
    if u == 0 then 1 else 0
  }

  /** The text of a display with a placeholder that has come to a place, or is gone. */
  function Read(t: Text, fate: Option<PendingPaste>, text: Text): Text
    requires fate.Some? ==> fate.value.start <= fate.value.end <= |t|
  {
    match fate
    case None => t
    case Some(r) => t[..r.start] + text + t[r.end..]
  }

  predicate ShownAt(t: Text, placeholder: Text, fate: Option<PendingPaste>) {
    fate.Some? ==> fate.value.end <= |t| && t[fate.value.start..fate.value.end] == placeholder
  }

  /** Two fates in one display read differently for some hidden text. */
  lemma FatesReadApart(t: Text, placeholder: Text, first: Option<PendingPaste>, last: Option<PendingPaste>)
    returns (text: Text)
    requires ShownAt(t, placeholder, first) && ShownAt(t, placeholder, last)
    requires first.Some? && last.Some? ==> first.value.start != last.value.start
    requires first.Some? || last.Some?
    ensures Read(t, first, text) != Read(t, last, text)
  {
    text := placeholder + [0];
    if first.Some? && last.Some? {
      var x, y := first.value, last.value;
      assert x.end == x.start + |placeholder| && y.end == y.start + |placeholder|;
      var k := Min(x.start, y.start) + |placeholder|;
      text := placeholder + [Other(t[k])];
      MarksDiffer(t, Min(x.start, y.start), Max(x.start, y.start), placeholder, Other(t[k]));
    } else {
      assert |Read(t, first, text)| != |Read(t, last, text)|;
    }
  }

  lemma MarkReads(d: Draft, p: PendingPaste, text: Text, c: Change)
    requires WellFormed(d) && p in d.pastes && Fits(d, c)
    ensures ShownAt(Changed(d, c).display, p.placeholder, Fate(p, c))
    ensures PlainText(Changed(Hiding(d, AllButOne(p, text)), c)) == Read(Changed(d, c).display, Fate(p, c), text)
  {
    hide Fate, PlainText, Shifted;
    MarkedText(d, p, text, c);
  }

  lemma StartsTell(p: PendingPaste, x: Change, y: Change)
    requires x.from <= x.to && y.from <= y.to
    ensures Fate(p, x).Some? && Fate(p, y).Some? && Fate(p, x).value.start == Fate(p, y).value.start ==>
              Fate(p, x) == Fate(p, y)
  {
  }

  /** Two different fates of a placeholder are told apart by what it may hide. */
  lemma FatesShow(d: Draft, x: Change, y: Change, p: PendingPaste) returns (mask: PendingPaste -> Text)
    requires WellFormed(d) && p in d.pastes && Fits(d, x) && Fits(d, y)
    requires Changed(d, x).display == Changed(d, y).display && Fate(p, x) != Fate(p, y)
    ensures PlainText(Changed(Hiding(d, mask), x)) != PlainText(Changed(Hiding(d, mask), y))
  {
    hide Fate, PlainText, Changed, WellFormed, Hiding, Read, ShownAt;
    MarkReads(d, p, [], x);
    MarkReads(d, p, [], y);
    StartsTell(p, x, y);
    var text := FatesReadApart(Changed(d, x).display, p.placeholder, Fate(p, x), Fate(p, y));
    mask := AllButOne(p, text);
    MarkReads(d, p, text, x);
    MarkReads(d, p, text, y);
  }

  /** Two changes to the same display leave the same plain text, whatever is hidden, exactly
      when they treat every placeholder alike. */
  lemma SameTextExactlyWhen(d: Draft, x: Change, y: Change)
    requires WellFormed(d) && Fits(d, x) && Fits(d, y) && Changed(d, x).display == Changed(d, y).display
    ensures SameText(d, x, y) <==> SameFates(d, x, y)
  {
    if SameFates(d, x, y) {
      forall mask: PendingPaste -> Text
        ensures PlainText(Changed(Hiding(d, mask), x)) == PlainText(Changed(Hiding(d, mask), y))
      {
        FatesDecide(d.pastes, mask, x, y);
      }
    } else {
      var p :| p in d.pastes && Fate(p, x) != Fate(p, y);
      var mask := FatesShow(d, x, y, p);
    }
  }

  // ----- the hunk of a slot -----

  /** How far behind its slot the hunk of an edit reaches, when the text `was` of the slot
      gives way to `text`: the part of what is behind that repeats what is added or taken
      away. */
  function Reach(was: Text, text: Text, behind: Text): nat {
    if |was| < |text| && text[..|was|] == was then CommonPrefix(behind, text[|was|..] + behind, 0)
    else if |text| < |was| && was[..|text|] == text then CommonPrefix(was[|text|..] + behind, behind, 0)
    else 0
  }

  /** It reaches beyond the slot exactly when one text continues the other with the unit
      that follows the slot. */
  lemma ReachesExactlyWhen(was: Text, text: Text, behind: Text)
    ensures Reach(was, text, behind) <= |behind|
    ensures Reach(was, text, behind) > 0 <==>
            behind != [] && ((|was| < |text| && text[..|was|] == was && text[|was|] == behind[0])
                             || (|text| < |was| && was[..|text|] == text && was[|text|] == behind[0]))
  {
    if |was| < |text| && text[..|was|] == was {
      FirstUnit(behind, text[|was|..] + behind);
    } else if |text| < |was| && was[..|text|] == text {
      FirstUnit(was[|text|..] + behind, behind);
    }
  }

  lemma FirstUnit(a: Text, b: Text)
    ensures CommonPrefix(a, b, 0) > 0 <==> a != [] && b != [] && a[0] == b[0]
  {
  }

  lemma {:induction false} PrefixBehind(head: Text, a: Text, b: Text, n: nat)
    requires n <= |head|
    ensures CommonPrefix(head + a, head + b, n) == |head| + CommonPrefix(a, b, 0)
    decreases |head| - n
  {
    if n < |head| {
      PrefixBehind(head, a, b, n + 1);
    } else {
      PrefixMoves(head, a, b, 0);
    }
  }

  lemma {:induction false} PrefixMoves(head: Text, a: Text, b: Text, n: nat)
    requires n <= |a| && n <= |b|
    ensures CommonPrefix(head + a, head + b, |head| + n) == |head| + CommonPrefix(a, b, n)
    decreases |a| - n
  {
    if n < |a| && n < |b| && a[n] == b[n] {
      PrefixMoves(head, a, b, n + 1);
    }
  }

  /** The display with a slot replaced. */
  function Slotted(display: Text, a: nat, b: nat, text: Text): Text
    requires a <= b <= |display|
  {
    display[..a] + text + display[b..]
  }

  lemma Growing(front: Text, more: Text, behind: Text)
    ensures var x, y, k := front + behind, front + (more + behind), CommonPrefix(behind, more + behind, 0);
            CommonPrefix(x, y, 0) == |front| + k && CommonSuffix(x, y, |front| + k, 0) == |behind| - k
  {
    hide CommonPrefix, CommonSuffix;
    var x, y, k := front + behind, front + (more + behind), CommonPrefix(behind, more + behind, 0);
    PrefixBehind(front, behind, more + behind, 0);
    assert x[|x| - (|behind| - k)..] == behind[k..] == y[|y| - (|behind| - k)..];
    LongSuffix(x, y, |front| + k, |behind| - k, 0);
  }

  lemma Shrinking(front: Text, less: Text, behind: Text)
    ensures var x, y, k := front + (less + behind), front + behind, CommonPrefix(less + behind, behind, 0);
            CommonPrefix(x, y, 0) == |front| + k && CommonSuffix(x, y, |front| + k, 0) == |behind| - k
  {
    hide CommonPrefix, CommonSuffix;
    var x, y, k := front + (less + behind), front + behind, CommonPrefix(less + behind, behind, 0);
    PrefixBehind(front, less + behind, behind, 0);
    assert x[|x| - (|behind| - k)..] == behind[k..] == y[|y| - (|behind| - k)..];
    LongSuffix(x, y, |front| + k, |behind| - k, 0);
  }

  lemma {:induction false} PrefixStops(a: Text, b: Text, i: nat, n: nat)
    requires n <= i < |a| && i < |b| && a[i] != b[i]
    ensures CommonPrefix(a, b, n) <= i
    decreases i - n
  {
    if n < i {
      PrefixStops(a, b, i, n + 1);
    }
  }

  lemma Differing(head: Text, was: Text, text: Text, behind: Text, i: nat)
    requires i < |was| && i < |text| && was[i] != text[i]
    ensures var x, y := head + (was + behind), head + (text + behind);
            var start := CommonPrefix(x, y, 0);
            start >= |head| && CommonSuffix(x, y, start, 0) >= |behind|
  {
    hide CommonPrefix, CommonSuffix;
    var x, y := head + (was + behind), head + (text + behind);
    PrefixBehind(head, was + behind, text + behind, 0);
    PrefixStops(x, y, |head| + i, 0);
    assert x[|x| - |behind|..] == behind == y[|y| - |behind|..];
    LongSuffix(x, y, CommonPrefix(x, y, 0), |behind|, 0);
  }

  /** The first place where two texts of which none continues the other differ. */
  lemma FirstDifference(a: Text, b: Text) returns (i: nat)
    requires a != b && !(|a| < |b| && b[..|a|] == a) && !(|b| < |a| && a[..|b|] == b)
    ensures i < |a| && i < |b| && a[i] != b[i]
  {
    assert a[..|a|] == a && b[..|b|] == b;
    i := 0;
    while i < |a| && i < |b| && a[i] == b[i]
      invariant i <= |a| && i <= |b| && a[..i] == b[..i]
    {
      assert a[..i + 1] == a[..i] + [a[i]] && b[..i + 1] == b[..i] + [b[i]];
      i := i + 1;
    }
  }

  lemma HunkIs(d: Draft, next: Text)
    requires next != d.display
    ensures var start := CommonPrefix(d.display, next, 0);
            Hunk(d, next) == (start, |d.display| - CommonSuffix(d.display, next, start, 0))
  {
  }

  lemma Parts(t: Text, a: nat, b: nat, text: Text)
    requires a <= b <= |t|
    ensures var head, was, behind := t[..a], t[a..b], t[b..];
            && t == head + (was + behind) && Slotted(t, a, b, text) == head + (text + behind)
            && (|was| < |text| && text[..|was|] == was ==>
                  t == (head + was) + behind && Slotted(t, a, b, text) == (head + was) + (text[|was|..] + behind))
            && (|text| < |was| && was[..|text|] == text ==>
                  t == (head + text) + (was[|text|..] + behind) && Slotted(t, a, b, text) == (head + text) + behind)
  {
  }

  lemma HunkOfGrowing(d: Draft, a: nat, b: nat, text: Text)
    requires a <= b <= |d.display| && b - a < |text| && text[..b - a] == d.display[a..b]
    requires Slotted(d.display, a, b, text) != d.display
    ensures var (from, to) := Hunk(d, Slotted(d.display, a, b, text));
            from >= a && Max(b, to) == b + Reach(d.display[a..b], text, d.display[b..])
  {
    hide CommonPrefix, CommonSuffix, Hunk, Slotted;
    var head, was, behind := d.display[..a], d.display[a..b], d.display[b..];
    Parts(d.display, a, b, text);
    HunkIs(d, Slotted(d.display, a, b, text));
    Growing(head + was, text[|was|..], behind);
  }

  lemma HunkOfShrinking(d: Draft, a: nat, b: nat, text: Text)
    requires a <= b <= |d.display| && |text| < b - a && d.display[a..b][..|text|] == text
    requires Slotted(d.display, a, b, text) != d.display
    ensures var (from, to) := Hunk(d, Slotted(d.display, a, b, text));
            from >= a && Max(b, to) == b + Reach(d.display[a..b], text, d.display[b..])
  {
    hide CommonPrefix, CommonSuffix, Hunk, Slotted;
    var head, was, behind := d.display[..a], d.display[a..b], d.display[b..];
    Parts(d.display, a, b, text);
    HunkIs(d, Slotted(d.display, a, b, text));
    Shrinking(head + text, was[|text|..], behind);
  }

  lemma HunkOfDiffering(d: Draft, a: nat, b: nat, text: Text)
    requires a <= b <= |d.display| && Slotted(d.display, a, b, text) != d.display
    requires var was := d.display[a..b];
             !(|was| < |text| && text[..|was|] == was) && !(|text| < |was| && was[..|text|] == text)
    ensures var (from, to) := Hunk(d, Slotted(d.display, a, b, text));
            from >= a && Max(b, to) == b + Reach(d.display[a..b], text, d.display[b..])
  {
    hide CommonPrefix, CommonSuffix, Hunk, Slotted;
    var head, was, behind := d.display[..a], d.display[a..b], d.display[b..];
    Parts(d.display, a, b, text);
    HunkIs(d, Slotted(d.display, a, b, text));
    var i := FirstDifference(was, text);
    Differing(head, was, text, behind, i);
  }

  /** Where the hunk of a replaced slot ends. */
  lemma HunkOfSlot(d: Draft, a: nat, b: nat, text: Text)
    requires a <= b <= |d.display| && Slotted(d.display, a, b, text) != d.display
    ensures var (from, to) := Hunk(d, Slotted(d.display, a, b, text));
            from >= a && Max(b, to) == b + Reach(d.display[a..b], text, d.display[b..])
  {
    hide CommonPrefix, CommonSuffix, Hunk, Slotted, Reach;
    var was := d.display[a..b];
    if |was| < |text| && text[..|was|] == was {
      HunkOfGrowing(d, a, b, text);
    } else if |text| < |was| && was[..|text|] == text {
      HunkOfShrinking(d, a, b, text);
    } else {
      HunkOfDiffering(d, a, b, text);
    }
  }

  // ----- what the hunk does to the placeholders around the slot -----

  function SlotChange(a: nat, b: nat, text: Text): Change {
    Change(a, b, text)
  }

  /** The edit as one change; an unchanged display changes nothing. */
  function HunkChange(d: Draft, next: Text): (c: Change)
    ensures Fits(d, c)
  {
    var (from, to) := Hunk(d, next);
    var end := |next| - (|d.display| - to);
    Change(from, to, if from <= end <= |next| then next[from..end] else [])
  }

  lemma EditIsChange(d: Draft, next: Text)
    ensures Edit(d, next, None) == Changed(d, HunkChange(d, next))
  {
    hide CommonPrefix, CommonSuffix, Edit, Shifted;
    NothingSpared(d.pastes);
    EditShape(d, next, None);
    if next == d.display {
      NothingShifts(d.pastes);
    } else {
      HunkIsTheDifference(d, next);
    }
  }

  lemma {:induction false} NothingShifts(pastes: seq<PendingPaste>)
    ensures Shifted(pastes, 0, 0, 0) == pastes
  {
    if pastes != [] {
      NothingShifts(pastes[1..]);
    }
  }

  /** Where a placeholder must lie so that the hunk treats it as the slot would: before the
      slot, or behind it and beyond the reach of the change; one that meets the slot must
      meet the hunk too. */
  predicate Safe(d: Draft, a: nat, b: nat, text: Text, p: PendingPaste)
    requires a <= b <= |d.display|
  {
    if p.end <= a then true
    else if p.start >= b then p.start >= b + Reach(d.display[a..b], text, d.display[b..])
    else
      var (from, to) := Hunk(d, Slotted(d.display, a, b, text));
      !Clear(p, from, to)
  }

  lemma FatesAgree(d: Draft, a: nat, b: nat, text: Text, p: PendingPaste)
    requires a <= b <= |d.display| && p.start < p.end <= |d.display|
    ensures Fate(p, HunkChange(d, Slotted(d.display, a, b, text))) == Fate(p, SlotChange(a, b, text))
       <==> Safe(d, a, b, text, p)
  {
    hide CommonPrefix, CommonSuffix, Hunk, Slotted, Reach;
    var next := Slotted(d.display, a, b, text);
    SlottedLength(d.display, a, b, text);
    if next == d.display {
      SameSlot(d, a, b, text);
    } else {
      HunkOfSlot(d, a, b, text);
      HunkTypes(d, next);
      ReachesExactlyWhen(d.display[a..b], text, d.display[b..]);
    }
  }

  lemma SlottedLength(t: Text, a: nat, b: nat, text: Text)
    requires a <= b <= |t|
    ensures |Slotted(t, a, b, text)| == |t| - (b - a) + |text|
  {
  }

  lemma SameSlot(d: Draft, a: nat, b: nat, text: Text)
    requires a <= b <= |d.display| && Slotted(d.display, a, b, text) == d.display
    ensures text == d.display[a..b] && Reach(d.display[a..b], text, d.display[b..]) == 0
    ensures Hunk(d, d.display) == (0, 0) && HunkChange(d, d.display).inserted == []
  {
    assert text == Slotted(d.display, a, b, text)[a..b];
  }

  lemma HunkTypes(d: Draft, next: Text)
    requires next != d.display
    ensures var (from, to) := Hunk(d, next);
            var c := HunkChange(d, next);
            c.from == from && c.to == to && |c.inserted| - (to - from) == |next| - |d.display|
  {
    HunkIsTheDifference(d, next);
  }

  // ----- the plain text of a replaced slot -----

  /** The plain text with what the slot means replaced. */
  function SlotText(d: Draft, a: nat, b: nat, text: Text): Text
    requires a <= b <= |d.display|
  {
    Meaning(d, 0, a) + text + Meaning(d, b, |d.display|)
  }

  lemma HiddenEdit(d: Draft, mask: PendingPaste -> Text, a: nat, b: nat, text: Text)
    requires WellFormed(d) && a <= b <= |d.display|
    ensures var e, next := Hiding(d, mask), Slotted(d.display, a, b, text);
            && PlainText(Edit(e, next, None)) == PlainText(Changed(e, HunkChange(d, next)))
            && SlotText(e, a, b, text) == PlainText(Changed(e, SlotChange(a, b, text)))
  {
    hide PlainText, Meaning, Edit, WellFormed, CommonPrefix, CommonSuffix, Shifted;
    var e, next := Hiding(d, mask), Slotted(d.display, a, b, text);
    HidingIsWellFormed(d, mask);
    EditIsChange(e, next);
    assert HunkChange(e, next) == HunkChange(d, next);
    VisiblePaste(e, a, b, text);
  }

  /** Whatever the placeholders hide, replacing a slot through the hunk of an edit replaces
      in the plain text what the slot means and nothing else - exactly when every
      placeholder lies where the hunk treats it as the slot would. */
  lemma SlotMeansExactlyWhen(d: Draft, a: nat, b: nat, text: Text)
    requires WellFormed(d) && a <= b <= |d.display|
    ensures (forall mask: PendingPaste -> Text ::
               PlainText(Edit(Hiding(d, mask), Slotted(d.display, a, b, text), None))
               == SlotText(Hiding(d, mask), a, b, text))
       <==> forall p <- d.pastes :: Safe(d, a, b, text, p)
  {
    hide PlainText, Meaning, Edit, Safe, Hunk, SlotText, Hidden, HunkChange, Slotted, Fate;
    var x, y := HunkChange(d, Slotted(d.display, a, b, text)), SlotChange(a, b, text);
    forall mask: PendingPaste -> Text
      ensures PlainText(Edit(Hiding(d, mask), Slotted(d.display, a, b, text), None))
           == PlainText(Changed(Hiding(d, mask), x))
      ensures SlotText(Hiding(d, mask), a, b, text) == PlainText(Changed(Hiding(d, mask), y))
    {
      HiddenEdit(d, mask, a, b, text);
    }
    SameDisplays(d, a, b, text);
    SameTextExactlyWhen(d, x, y);
    forall p | p in d.pastes ensures Fate(p, x) == Fate(p, y) <==> Safe(d, a, b, text, p) {
      FatesAgree(d, a, b, text, p);
    }
  }

  lemma SameDisplays(d: Draft, a: nat, b: nat, text: Text)
    requires a <= b <= |d.display|
    ensures var next := Slotted(d.display, a, b, text);
            Changed(d, HunkChange(d, next)).display == next == Changed(d, SlotChange(a, b, text)).display
  {
    hide Hunk, HunkChange, CommonPrefix, CommonSuffix;
    var next := Slotted(d.display, a, b, text);
    EditIsChange(d, next);
    EditShows(d, next, None);
  }

  lemma NothingMasked(d: Draft)
    ensures Hiding(d, (p: PendingPaste) => p.text) == d
  {
  }

  lemma SlotMeans(d: Draft, a: nat, b: nat, text: Text)
    requires WellFormed(d) && a <= b <= |d.display| && forall p <- d.pastes :: Safe(d, a, b, text, p)
    ensures PlainText(Edit(d, Slotted(d.display, a, b, text), None)) == SlotText(d, a, b, text)
  {
    hide PlainText, Edit, Safe, SlotText, Hiding, Slotted, WellFormed;
    SlotMeansExactlyWhen(d, a, b, text);
    NothingMasked(d);
  }

  // ----- one placeholder -----

  lemma {:induction false} PlaceholderNames(pastes: seq<PendingPaste>, p: PendingPaste, q: PendingPaste)
    requires DistinctPlaceholders(pastes) && p in pastes && q in pastes && p.placeholder == q.placeholder
    ensures p == q
  {
    if p == pastes[0] || q == pastes[0] {
      if p != q {
        PlaceholderListed(pastes[1..], if p == pastes[0] then q else p);
      }
    } else {
      PlaceholderNames(pastes[1..], p, q);
    }
  }

  lemma {:induction false} PlaceholderListed(pastes: seq<PendingPaste>, p: PendingPaste)
    requires p in pastes
    ensures p.placeholder in Placeholders(pastes)
  {
    if p != pastes[0] {
      PlaceholderListed(pastes[1..], p);
    }
  }

  /** A placeholder outside the slot keeps its hidden text at its place if it lies before
      the slot or beyond the reach of the change; and only then, if its name is its own. */
  lemma PasteStaysExactlyWhen(d: Draft, a: nat, b: nat, text: Text, p: PendingPaste)
    requires WellFormed(d) && a <= b <= |d.display| && p in d.pastes && Clear(p, a, b)
    ensures var e := Edit(d, Slotted(d.display, a, b, text), None);
            && (Safe(d, a, b, text, p) ==> Moved(p, a, b, |text|) in e.pastes)
            && (DistinctPlaceholders(d.pastes) && Moved(p, a, b, |text|) in e.pastes ==> Safe(d, a, b, text, p))
  {
    hide Edit, Safe, Hunk, HunkChange, Slotted, DistinctPlaceholders, Shifted;
    var next, q := Slotted(d.display, a, b, text), Moved(p, a, b, |text|);
    var c := HunkChange(d, next);
    EditIsChange(d, next);
    ShiftedMembers(d.pastes, c.from, c.to, |c.inserted|);
    FatesAgree(d, a, b, text, p);
    assert Fate(p, SlotChange(a, b, text)) == Some(q);
    if DistinctPlaceholders(d.pastes) && q in Edit(d, next, None).pastes {
      var o :| o in d.pastes && Clear(o, c.from, c.to) && q == Moved(o, c.from, c.to, |c.inserted|);
      PlaceholderNames(d.pastes, p, o);
    }
  }

  /** What is put in front of a draft that is one placeholder, and begins like it, takes
      its hidden text away. */
  lemma TouchedFirst(d: Draft, text: Text)
    requires |d.pastes| == 1 && d.pastes[0].start == 0 && text != []
    requires 0 < Reach([], text, d.display) < d.pastes[0].end <= |d.display|
    ensures Edit(d, Slotted(d.display, 0, 0, text), None) == Draft(text + d.display, [])
  {
    hide CommonPrefix, CommonSuffix, Hunk, Edit;
    var next := Slotted(d.display, 0, 0, text);
    assert next == text + d.display && d.display[0..0] == [] && d.display[0..] == d.display;
    HunkOfGrowing(d, 0, 0, text);
    HunkTypes(d, next);
    EditIsChange(d, next);
    EditShows(d, next, None);
    var c := HunkChange(d, next);
    assert !Clear(d.pastes[0], c.from, c.to) && d.pastes[1..] == [];
    assert Edit(d, next, None).pastes == Shifted(d.pastes, c.from, c.to, |c.inserted|) == [];
  }
}
