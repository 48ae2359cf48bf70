/** Well-formed and bounded UTF-16 strings (section 3.9 of the Unicode Standard), as sequences of code units. */
module Utf16 {

  type CodeUnit = c: int | 0 <= c < 0x10000

  type Str = seq<CodeUnit>

  /** A string of ASCII characters as code units. */
  function Units(s: string): (r: Str)
    requires forall i :: 0 <= i < |s| ==> s[i] as int < 0x80
  {
    seq(|s|, i requires 0 <= i < |s| => s[i] as int)
  }

  const REPLACEMENT: CodeUnit := 0xFFFD

  /** "[Truncated]" */
  const TRUNCATED: Str := [0x5B, 0x54, 0x72, 0x75, 0x6E, 0x63, 0x61, 0x74, 0x65, 0x64, 0x5D]

  predicate IsHighSurrogate(c: CodeUnit) { 0xD800 <= c <= 0xDBFF }

  predicate IsLowSurrogate(c: CodeUnit) { 0xDC00 <= c <= 0xDFFF }

  /** Surrogates occur only as a high one directly followed by a low one. */
  ghost predicate WellFormed(s: Str) {
    && (forall i :: 0 <= i < |s| && IsHighSurrogate(s[i]) ==> i + 1 < |s| && IsLowSurrogate(s[i + 1]))
    && (forall i :: 0 <= i < |s| && IsLowSurrogate(s[i]) ==> 0 < i && IsHighSurrogate(s[i - 1]))
  }

  /** What becomes of the code unit at index `i`: kept, unless it is half of no pair. */
  function Repaired(s: Str, i: nat): CodeUnit
    requires i < |s|
  {
    if IsHighSurrogate(s[i]) then
      if i + 1 < |s| && IsLowSurrogate(s[i + 1]) then s[i] else REPLACEMENT
    else if IsLowSurrogate(s[i]) then
      if 0 < i && IsHighSurrogate(s[i - 1]) then s[i] else REPLACEMENT
    else s[i]
  }

  function Repair(s: Str): (r: Str)
    ensures |r| == |s| && forall i :: 0 <= i < |s| ==> r[i] == Repaired(s, i)
  {
    seq(|s|, i requires 0 <= i < |s| => Repaired(s, i))
  }

  /** Half of a surrogate pair whose other half is not next to it. */
  predicate Lone(s: Str, i: nat)
    requires i < |s|
  {
    || (0xD800 <= s[i] <= 0xDBFF && !(i + 1 < |s| && 0xDC00 <= s[i + 1] <= 0xDFFF))
    || (0xDC00 <= s[i] <= 0xDFFF && !(0 < i && 0xD800 <= s[i - 1] <= 0xDBFF))
  }

  /** The scanning loop, which consumes a pair at once: lone halves become U+FFFD, everything else stays. */
  method MakeWellFormed(value: Str) returns (result: Str)
    ensures result == Repair(value) && WellFormed(result) && |result| == |value|
    ensures forall i :: 0 <= i < |value| ==> result[i] == if Lone(value, i) then 0xFFFD else value[i]
  {
    result := [];
    var index := 0;
    while index < |value|
      invariant 0 <= index <= |value| && |result| == index
      invariant forall i :: 0 <= i < index ==> result[i] == Repaired(value, i)
      invariant index < |value| && IsLowSurrogate(value[index]) ==> index == 0 || !IsHighSurrogate(value[index - 1])
    {
      var codeUnit := value[index];
      if IsHighSurrogate(codeUnit) {
        if index + 1 < |value| && IsLowSurrogate(value[index + 1]) {
          result := result + [value[index], value[index + 1]];
          index := index + 1;
        } else {
          result := result + [REPLACEMENT];
        }
      } else if IsLowSurrogate(codeUnit) {
        result := result + [REPLACEMENT];
      } else {
        result := result + [value[index]];
      }
      index := index + 1;
    }
    RepairIsWellFormed(value);
  }

  lemma RepairIsWellFormed(s: Str)
    ensures WellFormed(Repair(s)) && (WellFormed(s) <==> Repair(s) == s)
  {
    var r := Repair(s);
    forall i | 0 <= i < |r| && IsHighSurrogate(r[i]) ensures i + 1 < |r| && IsLowSurrogate(r[i + 1]) {
      assert r[i] == s[i] && r[i + 1] == Repaired(s, i + 1);
    }
    forall i | 0 <= i < |r| && IsLowSurrogate(r[i]) ensures 0 < i && IsHighSurrogate(r[i - 1]) {
      assert r[i] == s[i] && r[i - 1] == Repaired(s, i - 1);
    }
    if WellFormed(s) { assert forall i :: 0 <= i < |s| ==> r[i] == s[i]; }
  }

  /** At most `maxLength` code units: the repaired string, or as much of it as fits before the marker without
      splitting a pair. */
  function Bounded(value: Str, maxLength: int): (r: Str) {
    var wellFormed := Repair(value);
    if |wellFormed| <= maxLength then wellFormed
    else if maxLength <= |TRUNCATED| then TRUNCATED[..if maxLength < 0 then 0 else maxLength]
    else
      var room := maxLength - |TRUNCATED|;
      wellFormed[..if IsHighSurrogate(wellFormed[room - 1]) then room - 1 else room] + TRUNCATED
  }

  lemma PrefixIsWellFormed(s: Str, end: nat)
    requires WellFormed(s) && end <= |s| && (0 < end ==> !IsHighSurrogate(s[end - 1]))
    ensures WellFormed(s[..end])
  {
    var p := s[..end];
    forall i | 0 <= i < |p| && IsHighSurrogate(p[i]) ensures i + 1 < |p| && IsLowSurrogate(p[i + 1]) {
      assert p[i] == s[i];
    }
    forall i | 0 <= i < |p| && IsLowSurrogate(p[i]) ensures 0 < i && IsHighSurrogate(p[i - 1]) {
      assert p[i] == s[i];
    }
  }

  lemma ConcatIsWellFormed(a: Str, b: Str)
    requires WellFormed(a) && WellFormed(b)
    ensures WellFormed(a + b)
  {
    var s := a + b;
    forall i | 0 <= i < |s| && IsHighSurrogate(s[i]) ensures i + 1 < |s| && IsLowSurrogate(s[i + 1]) {
      if i < |a| { assert s[i] == a[i]; } else { assert s[i] == b[i - |a|]; }
    }
    forall i | 0 <= i < |s| && IsLowSurrogate(s[i]) ensures 0 < i && IsHighSurrogate(s[i - 1]) {
      if i < |a| { assert s[i] == a[i]; } else { assert s[i] == b[i - |a|]; }
    }
  }

  lemma NoSurrogates(s: Str)
    requires forall i :: 0 <= i < |s| ==> s[i] < 0xD800
    ensures WellFormed(s)
  {
  }

  lemma MarkerIsPlain(i: nat)
    requires i < |TRUNCATED|
    ensures |TRUNCATED| == 11 && TRUNCATED[i] < 0x80
  {
  }

  lemma MarkerIsWellFormed(end: nat)
    requires end <= |TRUNCATED|
    ensures |TRUNCATED| == 11 && WellFormed(TRUNCATED[..end])
  {
    forall i | 0 <= i < end ensures TRUNCATED[i] < 0x80 { MarkerIsPlain(i); }
    NoSurrogates(TRUNCATED[..end]);
  }

  /** Cutting a well-formed string never splits a pair. */
  lemma CutString(wf: Str, room: nat)
    requires WellFormed(wf) && 0 < room < |wf|
    ensures var end := if IsHighSurrogate(wf[room - 1]) then room - 1 else room; WellFormed(wf[..end] + TRUNCATED)
  {
    var end := if IsHighSurrogate(wf[room - 1]) then room - 1 else room;
    assert end < room ==> !IsLowSurrogate(wf[room - 1]);
    PrefixIsWellFormed(wf, end);
    MarkerIsWellFormed(11);
    assert TRUNCATED[..11] == TRUNCATED;
    ConcatIsWellFormed(wf[..end], TRUNCATED);
  }

  /** The length that a limit allows: none when it is negative. */
  function Room(maxLength: int): nat { if maxLength < 0 then 0 else maxLength }

  lemma BoundedFits(value: Str, maxLength: int)
    ensures WellFormed(Bounded(value, maxLength)) && |Bounded(value, maxLength)| <= Room(maxLength)
  {
    RepairIsWellFormed(value);
    MarkerIsWellFormed(11);
    if maxLength < |value| {
      if maxLength <= 11 {
        MarkerIsWellFormed(Room(maxLength));
      } else {
        CutFits(Repair(value), maxLength);
      }
    }
  }

  lemma CutFits(wf: Str, maxLength: nat)
    requires WellFormed(wf) && 11 < maxLength < |wf|
    ensures var room := maxLength - |TRUNCATED|;
      var cut := wf[..if IsHighSurrogate(wf[room - 1]) then room - 1 else room] + TRUNCATED;
      WellFormed(cut) && |cut| <= maxLength
  {
    CutString(wf, maxLength - |TRUNCATED|);
  }

  /** For every string and every limit: well-formed and within the limit; unchanged exactly when the input already
      was both; only repaired when it fits; and otherwise as much of it as fits before the marker, one code unit less
      when a pair would be split, or as much of the marker as fits. */
  lemma BoundedString(value: Str, maxLength: int)
    ensures WellFormed(Bounded(value, maxLength)) && |Bounded(value, maxLength)| <= Room(maxLength)
    ensures Bounded(value, maxLength) == value <==> WellFormed(value) && |value| <= Room(maxLength)
    ensures |value| <= maxLength ==> Bounded(value, maxLength) == Repair(value)
    ensures 11 < maxLength < |value| ==>
      Bounded(value, maxLength) ==
      Repair(value)[..if 0xD800 <= Repair(value)[maxLength - 12] <= 0xDBFF then maxLength - 12 else maxLength - 11]
      + Units("[Truncated]")
    ensures 0 <= maxLength <= 11 && maxLength < |value| ==>
      Bounded(value, maxLength) == Units("[Truncated]")[..maxLength]
  {
    BoundedFits(value, maxLength);
    RepairIsWellFormed(value);
    assert TRUNCATED == Units("[Truncated]");
  }

  lemma BoundedIsIdempotent(value: Str, maxLength: int)
    ensures Bounded(Bounded(value, maxLength), maxLength) == Bounded(value, maxLength)
  {
    BoundedString(value, maxLength);
    BoundedString(Bounded(value, maxLength), maxLength);
  }
}
