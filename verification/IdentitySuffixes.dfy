/** The `#max_length=` and `#dim=` suffixes of a provider identity. */
module IdentitySuffixes {
  import opened Wrappers

  const DIM := "#dim="
  const MAX_LENGTH := "#max_length="

  // ---------------------------------------------------------------------------
  // Integers as text
  // ---------------------------------------------------------------------------

  predicate IsDigit(c: char) {
    '0' <= c <= '9'
  }

  function Digit(n: nat): (c: char)
    requires n < 10
    ensures IsDigit(c) && c as int - '0' as int == n
  {
    ['0', '1', '2', '3', '4', '5', '6', '7', '8', '9'][n]
  }

  function Digits(n: nat): (s: string)
    ensures s != "" && forall c :: c in s ==> IsDigit(c)
  {
    if n < 10 then [Digit(n)] else Digits(n / 10) + [Digit(n % 10)]
  }

  /** `str` of an integer. */
  function Text(n: int): string {
    if n < 0 then "-" + Digits(-n) else Digits(n)
  }

  /** Digits, single underscores between them. */
  function Number(s: string): Option<nat>
    decreases |s|
  {
    if s == "" || !IsDigit(s[|s| - 1]) then None
    else
      var last := s[|s| - 1] as int - '0' as int;
      if |s| == 1 then Some(last)
      else
        var front := if s[|s| - 2] == '_' then Number(s[..|s| - 2]) else Number(s[..|s| - 1]);
        if front.None? then None else Some(10 * front.value + last)
  }

  predicate IsBlank(c: char) {
    c == ' ' || c == '\t' || c == '\n' || c == '\r'
  }

  function Strip(s: string): string
    decreases |s|
  {
    if s == "" then s
    else if IsBlank(s[0]) then Strip(s[1..])
    else if IsBlank(s[|s| - 1]) then Strip(s[..|s| - 1])
    else s
  }

  /** `int` of a string; None for its ValueError. */
  function Value(s: string): Option<int> {
    var t := Strip(s);
    if t == "" then None
    else if t[0] == '-' || t[0] == '+' then
      var n := Number(t[1..]);
      if n.None? then None else Some(if t[0] == '-' then -(n.value as int) else n.value)
    else
      var n := Number(t);
      if n.None? then None else Some(n.value)
  }

  lemma {:induction false} NumberOfDigits(n: nat)
    ensures Number(Digits(n)) == Some(n)
  {
    if n >= 10 {
      NumberOfDigits(n / 10);
      var s := Digits(n);
      assert s[..|s| - 1] == Digits(n / 10);
      assert s[|s| - 2] in Digits(n / 10);
    }
  }

  lemma StripKeeps(s: string)
    requires s != "" && !IsBlank(s[0]) && !IsBlank(s[|s| - 1])
    ensures Strip(s) == s
  {
  }

  lemma ValueOfDigits(n: nat)
    ensures Value(Digits(n)) == Some(n as int) && Value("-" + Digits(n)) == Some(-(n as int))
  {
    var digits := Digits(n);
    NumberOfDigits(n);
    assert IsDigit(digits[0]) && IsDigit(digits[|digits| - 1]);
    StripKeeps(digits);
    StripKeeps("-" + digits);
    assert ("-" + digits)[1..] == digits;
  }

  /** Reading what was written, for every integer. */
  lemma ValueOfText(n: int)
    ensures Value(Text(n)) == Some(n)
  {
    ValueOfDigits(if n < 0 then -n else n);
  }

  // ---------------------------------------------------------------------------
  // Markers
  // ---------------------------------------------------------------------------

  predicate At(s: string, marker: string, i: nat) {
    i + |marker| <= |s| && s[i..i + |marker|] == marker
  }

  predicate Contains(s: string, marker: string) {
    exists i :: 0 <= i <= |s| && At(s, marker, i)
  }

  /** `rpartition` at the last occurrence. */
  function LastAt(s: string, marker: string, below: nat): (i: nat)
    requires exists i :: 0 <= i < below && At(s, marker, i)
    ensures i < below && At(s, marker, i)
    ensures forall j :: i < j < below ==> !At(s, marker, j)
  {
    if At(s, marker, below - 1) then below - 1 else LastAt(s, marker, below - 1)
  }

  function Last(s: string, marker: string): (i: nat)
    requires Contains(s, marker)
    ensures At(s, marker, i) && forall j :: i < j ==> !At(s, marker, j)
  {
    LastAt(s, marker, |s| + 1)
  }

  // ---------------------------------------------------------------------------
  // Parsing and formatting
  // ---------------------------------------------------------------------------

  datatype Identity = Identity(base: string, maxLength: Option<int>, dim: Option<int>)

  const NOTHING := Identity("", None, None)

  function MaxLengthPart(maxLength: Option<int>): string {
    if maxLength.Some? then MAX_LENGTH + Text(maxLength.value) else ""
  }

  function Format(maxLength: Option<int>, dim: Option<int>): string {
    MaxLengthPart(maxLength) + (if dim.Some? then DIM + Text(dim.value) else "")
  }

  /** Peel one suffix after another off the tail; the leftmost of several of a kind counts. */
  function Peel(tail: string, maxLength: Option<int>, dim: Option<int>): Identity
    decreases |tail|
  {
    if Contains(tail, DIM) then
      var i := Last(tail, DIM);
      var value := Value(tail[i + |DIM|..]);
      if i == 0 || value.None? then NOTHING else Peel(tail[..i], maxLength, value)
    else if Contains(tail, MAX_LENGTH) then
      var i := Last(tail, MAX_LENGTH);
      var value := Value(tail[i + |MAX_LENGTH|..]);
      if i == 0 || value.None? then NOTHING else Peel(tail[..i], value, dim)
    else Identity(tail, maxLength, dim)
  }

  method ParseIdentitySuffixes(identity: string) returns (r: Identity)
    ensures r == Peel(identity, None, None)
  {
    var tail := identity;
    var maxLength: Option<int>, dim: Option<int> := None, None;
    while true
      invariant Peel(tail, maxLength, dim) == Peel(identity, None, None)
      decreases |tail|
    {
      if Contains(tail, DIM) {
        var i := Last(tail, DIM);
        var raw := tail[i + |DIM|..];
        tail := tail[..i];
        if tail == "" {
          return NOTHING;
        }
        if Value(raw).None? {
          return NOTHING;
        }
        dim := Value(raw);
        continue;
      }
      if Contains(tail, MAX_LENGTH) {
        var i := Last(tail, MAX_LENGTH);
        var raw := tail[i + |MAX_LENGTH|..];
        tail := tail[..i];
        if tail == "" {
          return NOTHING;
        }
        if Value(raw).None? {
          return NOTHING;
        }
        maxLength := Value(raw);
        continue;
      }
      break;
    }
    r := Identity(tail, maxLength, dim);
  }

  // ---------------------------------------------------------------------------
  // The round trip
  // ---------------------------------------------------------------------------

  /** Markers start with a hash and have no other, so none runs across the start of another. */
  predicate IsMarker(m: string) {
    m != "" && m[0] == '#' && '#' !in m[1..]
  }

  lemma NoMarkerAcross(a: string, b: string, m: string, i: nat)
    requires IsMarker(m) && (b == "" || b[0] == '#')
    ensures At(a + b, m, i) <==> if i < |a| then At(a, m, i) else At(b, m, i - |a|)
  {
    var s := a + b;
    if i + |m| <= |s| {
      if i >= |a| {
        assert s[i..i + |m|] == b[i - |a|..i - |a| + |m|];
      } else if i + |m| <= |a| {
        assert s[i..i + |m|] == a[i..i + |m|];
      } else {
        assert s[|a|] == b[0] == '#';
        assert s[i..i + |m|][|a| - i] == '#';
        assert |a| - i > 0 && m[1..][|a| - i - 1] == m[|a| - i];
      }
    }
  }

  predicate Plain(s: string) {
    '#' !in s
  }

  lemma TextIsPlain(n: int)
    ensures Plain(Text(n))
  {
  }

  lemma NotAtWithoutHash(s: string, m: string, i: nat)
    requires IsMarker(m) && (i < |s| ==> s[i] != '#')
    ensures !At(s, m, i)
  {
    if i + |m| <= |s| {
      assert s[i..i + |m|][0] == s[i];
    }
  }

  /** A suffix has no hash but its first character. */
  lemma HashIsFirst(marker: string, text: string, i: nat)
    requires IsMarker(marker) && Plain(text) && 0 < i < |marker + text|
    ensures (marker + text)[i] != '#'
  {
    assert if i < |marker| then (marker + text)[i] == marker[1..][i - 1] else (marker + text)[i] == text[i - |marker|];
  }

  /** A suffix is found where it was put. */
  lemma LastSuffix(base: string, marker: string, text: string)
    requires IsMarker(marker) && Plain(text)
    ensures Contains(base + marker + text, marker) && Last(base + marker + text, marker) == |base|
    ensures (base + marker + text)[..|base|] == base && (base + marker + text)[|base| + |marker|..] == text
  {
    var s := base + marker + text;
    assert s[|base|..|base| + |marker|] == marker;
    assert At(s, marker, |base|);
    forall j | j > |base| ensures !At(s, marker, j) {
      if j < |s| {
        HashIsFirst(marker, text, j - |base|);
        assert s[j] == (marker + text)[j - |base|];
      }
      NotAtWithoutHash(s, marker, j);
    }
  }

  lemma NotContained(base: string, marker: string, other: string, text: string)
    requires IsMarker(marker) && IsMarker(other) && Plain(text) && !Contains(base, marker)
    requires !At(other + text, marker, 0)
    ensures !Contains(base + other + text, marker)
  {
    assert base + other + text == base + (other + text);
    forall i | 0 <= i <= |base + other + text| ensures !At(base + other + text, marker, i) {
      NoMarkerAcross(base, other + text, marker, i);
      if i > |base| {
        if i - |base| < |other + text| {
          HashIsFirst(other, text, i - |base|);
        }
        NotAtWithoutHash(other + text, marker, i - |base|);
      }
    }
  }

  predicate Unmarked(base: string) {
    !Contains(base, DIM) && !Contains(base, MAX_LENGTH)
  }

  /** What is left has no suffix in it any more. */
  lemma {:induction false} PeeledIsUnmarked(tail: string, maxLength: Option<int>, dim: Option<int>)
    ensures Unmarked(Peel(tail, maxLength, dim).base)
    decreases |tail|
  {
    if Contains(tail, DIM) {
      PeeledIsUnmarked(tail[..Last(tail, DIM)], maxLength, Value(tail[Last(tail, DIM) + |DIM|..]));
    } else if Contains(tail, MAX_LENGTH) {
      PeeledIsUnmarked(tail[..Last(tail, MAX_LENGTH)], Value(tail[Last(tail, MAX_LENGTH) + |MAX_LENGTH|..]), dim);
    }
  }

  lemma PeelDim(base: string, n: int, maxLength: Option<int>, dim: Option<int>)
    ensures Peel(base + DIM + Text(n), maxLength, dim) == if base == "" then NOTHING else Peel(base, maxLength, Some(n))
  {
    TextIsPlain(n);
    LastSuffix(base, DIM, Text(n));
    ValueOfText(n);
  }

  lemma PeelMaxLength(base: string, n: int, maxLength: Option<int>, dim: Option<int>)
    requires !Contains(base, DIM)
    ensures Peel(base + MAX_LENGTH + Text(n), maxLength, dim) == if base == "" then NOTHING else Peel(base, Some(n), dim)
  {
    TextIsPlain(n);
    assert (MAX_LENGTH + Text(n))[0..|DIM|] == "#max_";
    NotContained(base, DIM, MAX_LENGTH, Text(n));
    LastSuffix(base, MAX_LENGTH, Text(n));
    ValueOfText(n);
  }

  lemma MaxLengthRoundTrip(base: string, maxLength: Option<int>, dim: Option<int>)
    requires Unmarked(base) && (base != "" || maxLength.None?)
    ensures Peel(base + MaxLengthPart(maxLength), None, dim) == Identity(base, maxLength, dim)
  {
    if maxLength.Some? {
      assert base + MaxLengthPart(maxLength) == base + MAX_LENGTH + Text(maxLength.value);
      PeelMaxLength(base, maxLength.value, None, dim);
    } else {
      assert base + MaxLengthPart(maxLength) == base;
    }
  }

  lemma FourParts(a: string, b: string, c: string, d: string)
    ensures a + (b + (c + d)) == a + b + c + d
    ensures a + (b + "") == a + b
  {
  }

  /** Parsing undoes formatting for bases that hold no marker themselves. */
  lemma SuffixRoundTrip(base: string, maxLength: Option<int>, dim: Option<int>)
    requires Unmarked(base) && (base != "" || (maxLength.None? && dim.None?))
    ensures Peel(base + Format(maxLength, dim), None, None) == Identity(base, maxLength, dim)
  {
    MaxLengthRoundTrip(base, maxLength, dim);
    if dim.Some? {
      FourParts(base, MaxLengthPart(maxLength), DIM, Text(dim.value));
      PeelDim(base + MaxLengthPart(maxLength), dim.value, None, None);
    } else {
      FourParts(base, MaxLengthPart(maxLength), "", "");
    }
  }

  lemma NothingBeforeMaxLength(n: int, dim: Option<int>)
    ensures Peel(Format(Some(n), dim), None, None) == NOTHING
  {
    var middle := MAX_LENGTH + Text(n);
    assert "" + MAX_LENGTH + Text(n) == middle;
    PeelMaxLength("", n, None, dim);
    if dim.None? {
      assert Format(Some(n), dim) == middle;
    } else {
      FormatBoth(n, dim.value);
      PeelDim(middle, dim.value, None, None);
    }
  }

  lemma FormatBoth(n: int, dim: int)
    ensures Format(Some(n), Some(dim)) == MAX_LENGTH + Text(n) + DIM + Text(dim)
  {
    TwoPairs(MAX_LENGTH, Text(n), DIM, Text(dim));
  }

  lemma TwoPairs(a: string, b: string, c: string, d: string)
    ensures (a + b) + (c + d) == a + b + c + d
  {
  }

  lemma NothingBeforeDim(n: int)
    ensures Peel(Format(None, Some(n)), None, None) == NOTHING
  {
    assert Format(None, Some(n)) == "" + DIM + Text(n);
    PeelDim("", n, None, None);
  }

  /** And for those only: any other base is not what comes back. */
  lemma OnlyUnmarkedComesBack(base: string, maxLength: Option<int>, dim: Option<int>)
    requires Peel(base + Format(maxLength, dim), None, None) == Identity(base, maxLength, dim)
    ensures Unmarked(base) && (base != "" || (maxLength.None? && dim.None?))
  {
    PeeledIsUnmarked(base + Format(maxLength, dim), None, None);
    if base == "" {
      assert base + Format(maxLength, dim) == Format(maxLength, dim);
      if maxLength.Some? {
        NothingBeforeMaxLength(maxLength.value, dim);
      } else if dim.Some? {
        NothingBeforeDim(dim.value);
      }
    }
  }

  lemma {:induction false} NumberIsDigits(s: string)
    requires Number(s).Some?
    ensures forall c :: c in s ==> IsDigit(c) || c == '_'
    decreases |s|
  {
    if |s| > 1 {
      var cut := if s[|s| - 2] == '_' then 2 else 1;
      NumberIsDigits(s[..|s| - cut]);
      assert s == s[..|s| - cut] + s[|s| - cut..];
    }
  }

  lemma LastOfReversed(base: string, dim: nat, n: nat)
    ensures var s := (base + DIM + Text(dim)) + (MAX_LENGTH + Text(n));
      Contains(s, DIM) && Last(s, DIM) == |base|
  {
    var a, b := base + DIM + Text(dim), MAX_LENGTH + Text(n);
    var s := a + b;
    TextIsPlain(n);
    TextIsPlain(dim);
    LastSuffix(base, DIM, Text(dim));
    assert b[0..|DIM|] == "#max_";
    forall j: nat | j >= |base| ensures At(s, DIM, j) <==> j == |base| {
      NoMarkerAcross(a, b, DIM, j);
      if j > |a| {
        if j < |s| {
          HashIsFirst(MAX_LENGTH, Text(n), j - |a|);
        }
        NotAtWithoutHash(b, DIM, j - |a|);
      }
    }
    assert At(s, DIM, |base|);
  }

  lemma HashedIsNoValue(raw: string)
    requires raw != "" && IsDigit(raw[0]) && IsDigit(raw[|raw| - 1]) && '#' in raw
    ensures Value(raw).None?
  {
    StripKeeps(raw);
    if Number(raw).Some? {
      NumberIsDigits(raw);
      assert false;
    }
  }

  /** The order matters: with the dimension first, as no name is formatted, nothing is recognised. */
  lemma ReversedSuffixesAreRejected(base: string, dim: nat, n: nat)
    ensures Peel((base + DIM + Text(dim)) + (MAX_LENGTH + Text(n)), None, None) == NOTHING
  {
    var s, raw := (base + DIM + Text(dim)) + (MAX_LENGTH + Text(n)), Text(dim) + (MAX_LENGTH + Text(n));
    LastOfReversed(base, dim, n);
    assert s[|base| + |DIM|..] == raw;
    assert raw[|Text(dim)|] == '#';
    assert raw[0] == Text(dim)[0] && raw[|raw| - 1] == Text(n)[|Text(n)| - 1];
    HashedIsNoValue(raw);
  }
}
