/**
 * The coordinate extractor of the webhook handler: the case-insensitive pattern
 * `X:\s*(-?\d+).*Y:\s*(-?\d+).*Z:\s*(-?\d+)` applied with String.prototype.match.
 *
 * A match is described by the positions of its three labels (`IsMatch`).  The
 * backtracking engine reports the match whose X label is leftmost; for that X the
 * greedy `.*` picks the last usable Y label on the line, and for that Y the last
 * usable Z label.  `Locate` computes exactly that match and `Extract` its values.
 */
module Extractor {
  import opened Wrappers
  import opened Decimal

  datatype Axis = X | Y | Z

  function Upper(a: Axis): char {
    match a
    case X => 'X'
    case Y => 'Y'
    case Z => 'Z'
  }

  function Lower(a: Axis): char {
    match a
    case X => 'x'
    case Y => 'y'
    case Z => 'z'
  }

  /** The characters `.` refuses to match (ECMAScript LineTerminator). */
  predicate IsLineTerminator(c: char) {
    c == '\n' || c == '\r' || c == '\U{2028}' || c == '\U{2029}'
  }

  /** The characters `\s` matches: ECMAScript WhiteSpace and LineTerminator. */
  predicate IsSpace(c: char) {
    c == '\t' || c == '\U{B}' || c == '\U{C}' || c == ' ' || c == '\U{A0}' || c == '\U{FEFF}'
    || c == '\U{1680}' || ('\U{2000}' <= c <= '\U{200A}') || c == '\U{202F}' || c == '\U{205F}'
    || c == '\U{3000}' || IsLineTerminator(c)
  }

  /** A label `X:` (either case of the letter, then a colon) starts at p. */
  predicate IsLabel(s: string, p: nat, a: Axis) {
    p + 1 < |s| && (s[p] == Upper(a) || s[p] == Lower(a)) && s[p + 1] == ':'
  }

  /** The end of the run of `\s` characters starting at p. */
  function SkipSpaces(s: string, p: nat): (q: nat)
    requires p <= |s|
    ensures p <= q <= |s|
    ensures forall k :: p <= k < q ==> IsSpace(s[k])
    ensures q == |s| || !IsSpace(s[q])
    decreases |s| - p
  {
    if p < |s| && IsSpace(s[p]) then SkipSpaces(s, p + 1) else p
  }

  /** The end of the run of `\d` characters starting at p. */
  function DigitsEnd(s: string, p: nat): (q: nat)
    requires p <= |s|
    ensures p <= q <= |s|
    ensures forall k :: p <= k < q ==> IsDigit(s[k])
    ensures AllDigits(s[p..q])
    ensures q == |s| || !IsDigit(s[q])
    decreases |s| - p
  {
    if p < |s| && IsDigit(s[p]) then
      var q := DigitsEnd(s, p + 1);
      assert s[p..q] == [s[p]] + s[p + 1..q];
      q
    else p
  }

  /** The end of the line that position p is on: the first line terminator at or after p. */
  function LineEnd(s: string, p: nat): (q: nat)
    requires p <= |s|
    ensures p <= q <= |s|
    ensures forall k :: p <= k < q ==> !IsLineTerminator(s[k])
    ensures q == |s| || IsLineTerminator(s[q])
    decreases |s| - p
  {
    if p < |s| && !IsLineTerminator(s[p]) then LineEnd(s, p + 1) else p
  }

  /** A captured group `-?\d+`: its parseInt value and the position just after it. */
  datatype Number = Number(value: int, end: nat)

  /** The group `-?\d+` starting at p, with the digit run taken whole. */
  function NumberAt(s: string, p: nat): (r: Option<Number>)
    requires p <= |s|
    ensures r.Some? <==> (p < |s| && IsDigit(s[p])) || (p + 1 < |s| && s[p] == '-' && IsDigit(s[p + 1]))
    ensures r.Some? ==> p < r.value.end <= |s|
    ensures r.Some? ==> forall k :: p <= k < r.value.end ==> !IsLineTerminator(s[k])
    ensures r.Some? ==> r.value.end == |s| || !IsDigit(s[r.value.end])
    ensures r.Some? ==>
      var d := if s[p] == '-' then p + 1 else p;
      d < r.value.end && AllDigits(s[d..r.value.end]) &&
      r.value.value == if s[p] == '-' then -(Value(s[d..r.value.end]) as int) else Value(s[d..r.value.end])
  {
    if p + 1 < |s| && s[p] == '-' && IsDigit(s[p + 1]) then
      var e := DigitsEnd(s, p + 1);
      Some(Number(-(Value(s[p + 1..e]) as int), e))
    else if p < |s| && IsDigit(s[p]) then
      var e := DigitsEnd(s, p);
      Some(Number(Value(s[p..e]), e))
    else
      None
  }

  /** The sub-pattern `A:\s*(-?\d+)` for axis a, starting at p. */
  function Field(s: string, p: nat, a: Axis): Option<Number> {
    if IsLabel(s, p, a) then NumberAt(s, SkipSpaces(s, p + 2)) else None
  }

  /** `.*` can carry the match from e to p: no line terminator in between. */
  predicate SameLine(s: string, e: nat, p: nat) {
    e <= p <= |s| && forall k :: e <= k < p ==> !IsLineTerminator(s[k])
  }

  /** The positions of the three labels of one way the pattern matches s. */
  datatype Match = Match(px: nat, py: nat, pz: nat)

  predicate IsMatch(s: string, m: Match)
    ensures IsMatch(s, m) ==> m.px + 3 <= m.py && m.py + 3 <= m.pz && m.pz + 3 <= |s|
  {
    Field(s, m.px, X).Some? && Field(s, m.py, Y).Some? && Field(s, m.pz, Z).Some? &&
    SameLine(s, Field(s, m.px, X).value.end, m.py) &&
    SameLine(s, Field(s, m.py, Y).value.end, m.pz)
  }

  /** The captured groups of a match, converted by parseInt. */
  function Values(s: string, m: Match): (int, int, int)
    requires IsMatch(s, m)
  {
    (Field(s, m.px, X).value.value, Field(s, m.py, Y).value.value, Field(s, m.pz, Z).value.value)
  }

  lemma SameLineWithinLine(s: string, e: nat, p: nat)
    requires e <= |s| && SameLine(s, e, p)
    ensures p <= LineEnd(s, e)
  {
  }

  /** The last position in [lo, hi) where `holds` is true. */
  function LastWhere(holds: seq<bool>, lo: nat, hi: nat): (r: Option<nat>)
    requires lo <= hi <= |holds|
    ensures r.Some? ==> lo <= r.value < hi && holds[r.value]
    ensures forall p :: lo <= p < hi && holds[p] ==> r.Some? && p <= r.value
    decreases hi - lo
  {
    if lo == hi then None
    else if holds[hi - 1] then Some(hi - 1)
    else LastWhere(holds, lo, hi - 1)
  }

  /** The first position at or after lo where `holds` is true. */
  function FirstWhere(holds: seq<bool>, lo: nat): (r: Option<nat>)
    requires lo <= |holds|
    ensures r.Some? ==> lo <= r.value < |holds| && holds[r.value]
    ensures forall p :: lo <= p < |holds| && holds[p] ==> r.Some? && r.value <= p
    decreases |holds| - lo
  {
    if lo == |holds| then None
    else if holds[lo] then Some(lo)
    else FirstWhere(holds, lo + 1)
  }

  /**
   * Where a greedy `.*` that starts at e stops: the last position on e's line where
   * `holds` (a verdict per position, never true on a line terminator) is true.
   */
  function LastOnLine(s: string, e: nat, holds: seq<bool>): (r: Option<nat>)
    requires e <= |s| == |holds|
    requires forall p :: 0 <= p < |s| && holds[p] ==> !IsLineTerminator(s[p])
    ensures r.Some? ==> r.value < |s| && SameLine(s, e, r.value) && holds[r.value]
    ensures forall p: nat :: p < |s| && SameLine(s, e, p) && holds[p] ==> r.Some? && p <= r.value
  {
    var hi := LineEnd(s, e);
    var r := LastWhere(holds, e, hi);
    forall p: nat | p < |s| && SameLine(s, e, p) && holds[p]
      ensures r.Some? && p <= r.value
    {
      SameLineWithinLine(s, e, p);
    }
    r
  }

  /** A field never starts on a line terminator. */
  lemma FieldOffLineTerminators(s: string, a: Axis)
    ensures forall p: nat :: p < |s| && Field(s, p, a).Some? ==> !IsLineTerminator(s[p])
  {
  }

  /** Per position: a Z field starts there. */
  function ZStarts(s: string): (holds: seq<bool>)
    ensures |holds| == |s|
    ensures forall p :: 0 <= p < |s| && holds[p] ==> !IsLineTerminator(s[p])
  {
    FieldOffLineTerminators(s, Z);
    seq(|s|, p requires 0 <= p < |s| => Field(s, p, Z).Some?)
  }

  /** Where the greedy `.*Z:` goes after the Y group ends at e: the last Z field on that line. */
  function ZAfter(s: string, e: nat): (r: Option<nat>)
    requires e <= |s|
    ensures r.Some? ==> r.value < |s| && SameLine(s, e, r.value) && Field(s, r.value, Z).Some?
    ensures forall p: nat :: p < |s| && SameLine(s, e, p) && Field(s, p, Z).Some? ==> r.Some? && p <= r.value
  {
    var holds := ZStarts(s);
    var r := LastOnLine(s, e, holds);
    assert forall p: nat :: p < |s| ==> holds[p] == Field(s, p, Z).Some?;
    r
  }

  /** A Y field starts at p and a Z field can follow it on its line. */
  predicate YStart(s: string, p: nat) {
    Field(s, p, Y).Some? && ZAfter(s, Field(s, p, Y).value.end).Some?
  }

  /** Per position: a Y field that a Z field can follow starts there. */
  function YStarts(s: string): (holds: seq<bool>)
    ensures |holds| == |s|
    ensures forall p :: 0 <= p < |s| && holds[p] ==> !IsLineTerminator(s[p])
  {
    FieldOffLineTerminators(s, Y);
    seq(|s|, p requires 0 <= p < |s| => YStart(s, p))
  }

  /** Where the greedy `.*Y:` goes after the X group ends at e. */
  function YAfter(s: string, e: nat): (r: Option<nat>)
    requires e <= |s|
    ensures r.Some? ==> r.value < |s| && SameLine(s, e, r.value) && YStart(s, r.value)
    ensures forall p: nat :: p < |s| && SameLine(s, e, p) && YStart(s, p) ==> r.Some? && p <= r.value
  {
    var holds := YStarts(s);
    var r := LastOnLine(s, e, holds);
    assert forall p: nat :: p < |s| ==> holds[p] == YStart(s, p);
    r
  }

  /** An X field starts at p and the rest of the pattern can follow it. */
  predicate XStart(s: string, p: nat) {
    Field(s, p, X).Some? && YAfter(s, Field(s, p, X).value.end).Some?
  }

  /** The first position from which the whole pattern matches. */
  function FirstX(s: string): (r: Option<nat>)
    ensures r.Some? ==> r.value < |s| && XStart(s, r.value)
    ensures forall p: nat :: p < |s| && XStart(s, p) ==> r.Some? && r.value <= p
  {
    var holds := seq(|s|, p requires 0 <= p < |s| => XStart(s, p));
    var r := FirstWhere(holds, 0);
    assert forall p: nat :: p < |s| ==> holds[p] == XStart(s, p);
    r
  }

  /** Every match starts where XStart holds, and its Y label is one YStart accepts. */
  lemma MatchStarts(s: string, m: Match)
    requires IsMatch(s, m)
    ensures YStart(s, m.py) && XStart(s, m.px)
  {
    var ey := Field(s, m.py, Y).value.end;
    assert ZAfter(s, ey).Some?;
    var ex := Field(s, m.px, X).value.end;
    assert YAfter(s, ex).Some?;
  }

  /**
   * The match String.prototype.match reports: the leftmost X, then the last Y and
   * the last Z that still complete the pattern.  It is found exactly when some match exists.
   */
  function Locate(s: string): (r: Option<Match>)
    ensures r.Some? ==> IsMatch(s, r.value)
    ensures forall m :: IsMatch(s, m) ==> r.Some? && r.value.px <= m.px
    ensures forall m :: IsMatch(s, m) && r.Some? && m.px == r.value.px ==> m.py <= r.value.py
    ensures forall m :: IsMatch(s, m) && r.Some? && m.px == r.value.px && m.py == r.value.py ==> m.pz <= r.value.pz
  {
    var first := FirstX(s);
    if first.None? then
      assert forall m :: IsMatch(s, m) ==> false by {
        forall m | IsMatch(s, m) ensures false { MatchStarts(s, m); }
      }
      None
    else
      var px := first.value;
      var ex := Field(s, px, X).value.end;
      var py := YAfter(s, ex).value;
      var ey := Field(s, py, Y).value.end;
      var pz := ZAfter(s, ey).value;
      var r := Match(px, py, pz);
      forall m | IsMatch(s, m)
        ensures px <= m.px
        ensures m.px == px ==> m.py <= py
        ensures m.px == px && m.py == py ==> m.pz <= pz
      {
        MatchStarts(s, m);
      }
      Some(r)
  }

  /** The coordinate triple `description.match(...)` yields, or None when it returns null. */
  function Extract(s: string): (r: Option<(int, int, int)>)
    ensures r.Some? <==> exists m :: IsMatch(s, m)
    ensures r.Some? ==> exists m :: IsMatch(s, m) && Values(s, m) == r.value
  {
    var loc := Locate(s);
    if loc.Some? then Some(Values(s, loc.value)) else None
  }

  /** The run of digits from p ends exactly at q. */
  lemma DigitsEndAt(s: string, p: nat, q: nat)
    requires p <= q <= |s| && forall k :: p <= k < q ==> IsDigit(s[k])
    requires q == |s| || !IsDigit(s[q])
    ensures DigitsEnd(s, p) == q
  {
  }

  /** parseInt reads back what `${n}` wrote, when no digit follows it. */
  lemma NumberAtSpelled(s: string, p: nat, n: int)
    requires p + |IntToString(n)| <= |s| && s[p..p + |IntToString(n)|] == IntToString(n)
    requires p + |IntToString(n)| == |s| || !IsDigit(s[p + |IntToString(n)|])
    ensures NumberAt(s, p) == Some(Number(n, p + |IntToString(n)|))
  {
    var t := IntToString(n);
    var q := p + |t|;
    assert forall k :: p <= k < q ==> s[k] == t[k - p];
    if n < 0 {
      var digits := NatToString(-n);
      assert t == "-" + digits;
      assert s[p + 1..q] == digits;
      DigitsEndAt(s, p + 1, q);
      NatToStringValue(-n);
    } else {
      DigitsEndAt(s, p, q);
      NatToStringValue(n);
    }
  }

  /** The run of spaces from p ends exactly at q. */
  lemma SkipSpacesAt(s: string, p: nat, q: nat)
    requires p <= q <= |s| && forall k :: p <= k < q ==> IsSpace(s[k])
    requires q == |s| || !IsSpace(s[q])
    ensures SkipSpaces(s, p) == q
  {
  }

  /** The text `A: <t>` stands at p, and no digit follows it. */
  predicate SpelledAt(s: string, p: nat, a: Axis, t: string) {
    var q := p + 3 + |t|;
    IsLabel(s, p, a) && q <= |s| && s[p + 2] == ' ' && s[p + 3..q] == t && (q == |s| || !IsDigit(s[q]))
  }

  /** Where `A: <n>` is spelled, the field reads back n. */
  lemma FieldSpelled(s: string, p: nat, a: Axis, n: int)
    requires SpelledAt(s, p, a, IntToString(n))
    ensures Field(s, p, a) == Some(Number(n, p + 3 + |IntToString(n)|))
  {
    var t := IntToString(n);
    assert s[p + 3] == t[0];
    SkipSpacesAt(s, p + 2, p + 3);
    NumberAtSpelled(s, p + 3, n);
  }

  /** A field starts with its axis letter, in either case. */
  lemma FieldLetter(s: string, p: nat, a: Axis)
    requires Field(s, p, a).Some?
    ensures p < |s| && (s[p] == Upper(a) || s[p] == Lower(a))
  {
  }

  /** The letters of the three labels of m stand in s. */
  predicate LabelLetters(s: string, m: Match) {
    m.px < |s| && (s[m.px] == 'X' || s[m.px] == 'x') &&
    m.py < |s| && (s[m.py] == 'Y' || s[m.py] == 'y') &&
    m.pz < |s| && (s[m.pz] == 'Z' || s[m.pz] == 'z')
  }

  /** When the label letters already single out one match, that match is the one located. */
  lemma LocateOnlyMatch(s: string, m: Match)
    requires IsMatch(s, m)
    requires forall m' :: LabelLetters(s, m') ==> m' == m
    ensures Locate(s) == Some(m)
  {
    var m' := Locate(s).value;
    FieldLetter(s, m'.px, X);
    FieldLetter(s, m'.py, Y);
    FieldLetter(s, m'.pz, Z);
    assert LabelLetters(s, m');
  }

  /** When the label letters already single out one match, extraction reads its values. */
  lemma ExtractOnlyMatch(s: string, m: Match)
    requires IsMatch(s, m)
    requires forall m' :: LabelLetters(s, m') ==> m' == m
    ensures Extract(s) == Some(Values(s, m))
  {
    LocateOnlyMatch(s, m);
  }

  /** Three spelled fields, ", " apart on one line, form a match with the spelled values. */
  lemma SpelledMatch(s: string, m: Match, x: int, y: int, z: int)
    requires SpelledAt(s, m.px, X, IntToString(x)) && m.py == m.px + 5 + |IntToString(x)|
    requires SpelledAt(s, m.py, Y, IntToString(y)) && m.pz == m.py + 5 + |IntToString(y)|
    requires SpelledAt(s, m.pz, Z, IntToString(z))
    requires SameLine(s, m.py - 2, m.py) && SameLine(s, m.pz - 2, m.pz)
    ensures IsMatch(s, m) && Values(s, m) == (x, y, z)
  {
    FieldSpelled(s, m.px, X, x);
    FieldSpelled(s, m.py, Y, y);
    FieldSpelled(s, m.pz, Z, z);
  }
}
