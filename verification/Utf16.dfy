/** JavaScript strings: sequences of UTF-16 code units. */
module Utf16 {
  import opened Wrappers

  type Unit = x: int | 0 <= x < 0x1_0000
  type Text = seq<Unit>

  const LF: Unit := 10
  const CR: Unit := 13
  const SPACE: Text := [32]

  /** A text of ASCII characters. */
  function Ascii(s: string): (t: Text)
    ensures |t| == |s|
  {
    seq(|s|, i requires 0 <= i < |s| => s[i] as int % 0x1_0000)
  }

  /** String.prototype.slice for positions that are not negative. */
  function Slice(t: Text, from: nat, to: nat): Text {
    var a, b := Min(from, |t|), Min(to, |t|);
    if a <= b then t[a..b] else []
  }

  // ----- code points -----

  predicate Pair(t: Text, i: nat)
    requires i < |t|
  {
    0xD800 <= t[i] < 0xDC00 && i + 1 < |t| && 0xDC00 <= t[i + 1] < 0xE000
  }

  function CodePoints(t: Text): nat {
    if t == [] then 0 else 1 + CodePoints(t[if Pair(t, 0) then 2 else 1..])
  }

  method CodePointCount(t: Text) returns (count: nat)
    ensures count == CodePoints(t)
  {
    count := 0;
    var i := 0;
    while i < |t|
      invariant i <= |t| && count + CodePoints(t[i..]) == CodePoints(t)
    {
      var width := if Pair(t, i) then 2 else 1;
      assert t[i..][width..] == t[i + width..];
      i, count := i + width, count + 1;
    }
  }

  // ----- numbers -----

  predicate IsDigit(u: Unit) {
    48 <= u <= 57
  }

  function Decimal(n: nat): (t: Text)
    ensures t != []
  {
    (if n < 10 then [] else Decimal(n / 10)) + [48 + n % 10]
  }

  /** The number a text of one or more digits denotes. */
  function ParseDecimal(t: Text): Option<nat> {
    if t == [] || !IsDigit(t[|t| - 1]) then None
    else if |t| == 1 then Some(t[0] - 48)
    else
      match ParseDecimal(t[..|t| - 1])
      case None => None
      case Some(n) => Some(10 * n + (t[|t| - 1] - 48))
  }

  lemma {:induction false} DecimalRoundTrip(n: nat)
    ensures ParseDecimal(Decimal(n)) == Some(n)
  {
    if n >= 10 {
      DecimalRoundTrip(n / 10);
      assert Decimal(n)[..|Decimal(n)| - 1] == Decimal(n / 10);
    }
  }

  // ----- spaces, lines and bytes -----

  /** \s, and what trim removes. */
  predicate IsSpace(u: Unit) {
    || 9 <= u <= 13 || u == 0x20 || u == 0xA0 || u == 0x1680 || 0x2000 <= u <= 0x200A
    || u == 0x2028 || u == 0x2029 || u == 0x202F || u == 0x205F || u == 0x3000 || u == 0xFEFF
  }

  function Trim(t: Text): Text {
    if t == [] then []
    else if IsSpace(t[0]) then Trim(t[1..])
    else if IsSpace(t[|t| - 1]) then Trim(t[..|t| - 1])
    else t
  }

  predicate Blank(t: Text) {
    forall u <- t :: IsSpace(u)
  }

  /** Trimming takes away spaces at both ends and nothing else. */
  lemma {:induction false} TrimTakesSpaces(t: Text) returns (left: Text, right: Text)
    ensures t == left + Trim(t) + right && Blank(left) && Blank(right)
    ensures Trim(t) != [] ==> !IsSpace(Trim(t)[0]) && !IsSpace(Trim(t)[|Trim(t)| - 1])
    decreases |t|
  {
    hide IsSpace;
    left, right := [], [];
    if t != [] {
      var n := |t| - 1;
      if IsSpace(t[0]) {
        left, right := TrimTakesSpaces(t[1..]);
        left := [t[0]] + left;
      } else if IsSpace(t[n]) {
        left, right := TrimTakesSpaces(t[..n]);
        right := right + [t[n]];
        assert t == t[..n] + [t[n]];
      }
    }
  }

  /** text.replace(/\r\n?/g, "\n") */
  function NormalizeNewlines(t: Text): (r: Text)
    ensures CR !in r
  {
    if t == [] then []
    else if t[0] == CR then [LF] + NormalizeNewlines(if |t| > 1 && t[1] == LF then t[2..] else t[1..])
    else [t[0]] + NormalizeNewlines(t[1..])
  }

  /** The lines of a text; \r\n, \r and \n each end one. */
  function Lines(t: Text): (lines: seq<Text>)
    ensures lines != []
  {
    if t == [] then [[]]
    else if t[0] == CR && |t| > 1 && t[1] == LF then [[]] + Lines(t[2..])
    else if t[0] == CR || t[0] == LF then [[]] + Lines(t[1..])
    else
      var later := Lines(t[1..]);
      [[t[0]] + later[0]] + later[1..]
  }

  /** Normalising keeps every line as it is. */
  lemma {:induction false} NormalizingKeepsLines(t: Text)
    ensures Lines(NormalizeNewlines(t)) == Lines(t)
  {
    if t != [] {
      var rest := if t[0] == CR && |t| > 1 && t[1] == LF then t[2..] else t[1..];
      NormalizingKeepsLines(rest);
      assert NormalizeNewlines(t)[1..] == NormalizeNewlines(rest);
    }
  }

  /** UTF-8, section 3 of RFC 3629; an unpaired surrogate is written as U+FFFD. */
  function Encode(t: Text): seq<nat> {
    if t == [] then []
    else if Pair(t, 0) then
      var c := 0x10000 + (t[0] as int - 0xD800) * 0x400 + (t[1] as int - 0xDC00);
      [0xF0 + c / 0x40000, 0x80 + c / 0x1000 % 0x40, 0x80 + c / 0x40 % 0x40, 0x80 + c % 0x40] + Encode(t[2..])
    else
      var c: int := if 0xD800 <= t[0] < 0xE000 then 0xFFFD else t[0];
      (if c < 0x80 then [c]
       else if c < 0x800 then [0xC0 + c / 0x40, 0x80 + c % 0x40]
       else [0xE0 + c / 0x1000, 0x80 + c / 0x40 % 0x40, 0x80 + c % 0x40]) + Encode(t[1..])
  }

  lemma {:induction false} Utf8LengthIsExact(t: Text)
    ensures Utf8Length(t) == |Encode(t)|
  {
    if t != [] {
      Utf8LengthIsExact(if Pair(t, 0) then t[2..] else t[1..]);
    }
  }

  /** The bytes that begin a character. */
  function Leads(bytes: seq<nat>): nat {
    if bytes == [] then 0 else (if 0x80 <= bytes[0] < 0xC0 then 0 else 1) + Leads(bytes[1..])
  }

  lemma {:induction false} LeadsAppend(a: seq<nat>, b: seq<nat>)
    ensures Leads(a + b) == Leads(a) + Leads(b)
  {
    if a == [] {
      assert a + b == b;
    } else {
      assert (a + b)[1..] == a[1..] + b;
      LeadsAppend(a[1..], b);
    }
  }

  lemma OneLead(bytes: seq<nat>)
    requires bytes != [] && !(0x80 <= bytes[0] < 0xC0) && forall i :: 1 <= i < |bytes| ==> 0x80 <= bytes[i] < 0xC0
    ensures Leads(bytes) == 1
  {
    NoLead(bytes[1..]);
  }

  lemma {:induction false} NoLead(bytes: seq<nat>)
    requires forall i :: 0 <= i < |bytes| ==> 0x80 <= bytes[i] < 0xC0
    ensures Leads(bytes) == 0
  {
    if bytes != [] {
      NoLead(bytes[1..]);
    }
  }

  /** The characters counted are those that UTF-8 writes. */
  lemma {:induction false} CodePointsAreEncoded(t: Text)
    ensures CodePoints(t) == Leads(Encode(t))
  {
    if t != [] {
      var rest := if Pair(t, 0) then t[2..] else t[1..];
      var first := Encode(t)[..|Encode(t)| - |Encode(rest)|];
      CodePointsAreEncoded(rest);
      assert Encode(t) == first + Encode(rest);
      LeadsAppend(first, Encode(rest));
      OneLead(first);
    }
  }

  /** The number of bytes TextEncoder writes; an unpaired surrogate becomes U+FFFD. */
  function Utf8Length(t: Text): nat {
    if t == [] then 0
    else if Pair(t, 0) then 4 + Utf8Length(t[2..])
    else (if t[0] < 0x80 then 1 else if t[0] < 0x800 then 2 else 3) + Utf8Length(t[1..])
  }
}
