/**
 * The string primitives the source relies on (`String.prototype.trim`,
 * `toLowerCase`, `includes` and the regular-expression class `\s`),
 * restricted to ASCII: characters outside ASCII are never whitespace and
 * have no case.
 */
module Text {

  /** ASCII whitespace: space, tab, line feed, vertical tab, form feed, carriage return. */
  predicate IsSpace(c: char) {
    c == ' ' || c == '\t' || c == '\n' || c == '\U{B}' || c == '\U{C}' || c == '\r'
  }

  predicate AllSpace(s: string) {
    forall i :: 0 <= i < |s| ==> IsSpace(s[i])
  }

  /** Drops leading whitespace. */
  function TrimStart(s: string): (r: string)
    ensures |r| <= |s| && r == s[|s| - |r|..]
  {
    if s != [] && IsSpace(s[0]) then TrimStart(s[1..]) else s
  }

  /** Drops trailing whitespace. */
  function TrimEnd(s: string): (r: string)
    ensures |r| <= |s| && r == s[..|r|]
  {
    if s != [] && IsSpace(s[|s| - 1]) then TrimEnd(s[..|s| - 1]) else s
  }

  /** `s.trim()`: the input without its leading and trailing whitespace. */
  function Trim(s: string): string {
    TrimEnd(TrimStart(s))
  }

  /** What `TrimStart` drops is whitespace, ... */
  lemma {:induction false} TrimStartSpaces(s: string)
    ensures AllSpace(s[..|s| - |TrimStart(s)|])
    decreases |s|
  {
    if s != [] && IsSpace(s[0]) {
      TrimStartSpaces(s[1..]);
      var r := TrimStart(s);
      assert s[..|s| - |r|] == [s[0]] + s[1..][..|s[1..]| - |r|];
    }
  }

  /** ... and what it keeps does not start with whitespace. */
  lemma {:induction false} TrimStartFirst(s: string)
    ensures TrimStart(s) != [] ==> !IsSpace(TrimStart(s)[0])
    decreases |s|
  {
    if s != [] && IsSpace(s[0]) {
      TrimStartFirst(s[1..]);
    }
  }

  /** What `TrimEnd` drops is whitespace, ... */
  lemma {:induction false} TrimEndSpaces(s: string)
    ensures AllSpace(s[|TrimEnd(s)|..])
    decreases |s|
  {
    if s != [] && IsSpace(s[|s| - 1]) {
      var t := s[..|s| - 1];
      TrimEndSpaces(t);
      var r := TrimEnd(s);
      assert s[|r|..] == t[|r|..] + [s[|s| - 1]];
    }
  }

  /** ... and what it keeps does not end with whitespace. */
  lemma {:induction false} TrimEndLast(s: string)
    ensures TrimEnd(s) != [] ==> !IsSpace(TrimEnd(s)[|TrimEnd(s)| - 1])
    decreases |s|
  {
    if s != [] && IsSpace(s[|s| - 1]) {
      TrimEndLast(s[..|s| - 1]);
    }
  }

  /**
   * The trimmed string is a slice of the input, everything around it is
   * whitespace, and it neither starts nor ends with whitespace.
   */
  lemma {:induction false} TrimSpec(s: string)
    ensures exists i :: 0 <= i <= |s| - |Trim(s)| && Trim(s) == s[i..i + |Trim(s)|]
                        && AllSpace(s[..i]) && AllSpace(s[i + |Trim(s)|..])
    ensures Trim(s) != [] ==> !IsSpace(Trim(s)[0]) && !IsSpace(Trim(s)[|Trim(s)| - 1])
  {
    var t := TrimStart(s);
    var r := TrimEnd(t);
    var i := TrimSlice(s);
    TrimStartFirst(s);
    TrimEndLast(t);
    if r != [] {
      assert r[0] == t[0];
    }
  }

  /** Where the trimmed string sits in the input. */
  lemma {:induction false} TrimSlice(s: string) returns (i: nat)
    ensures i <= |s| - |Trim(s)| && Trim(s) == s[i..i + |Trim(s)|]
    ensures AllSpace(s[..i]) && AllSpace(s[i + |Trim(s)|..])
  {
    var t := TrimStart(s);
    TrimStartSpaces(s);
    TrimEndSpaces(t);
    i := |s| - |t|;
    SliceBetweenSpaces(s, t, Trim(s), i);
  }

  /** A prefix `r` of the suffix `t == s[i..]`, with only whitespace after it in `t`, has only whitespace after it in `s`. */
  lemma {:induction false} SliceBetweenSpaces(s: string, t: string, r: string, i: nat)
    requires i <= |s| && t == s[i..] && |r| <= |t| && r == t[..|r|] && AllSpace(t[|r|..])
    ensures r == s[i..i + |r|] && AllSpace(s[i + |r|..])
  {
    assert s[i + |r|..] == t[|r|..];
  }

  /** The trimmed string is empty exactly when the input is all whitespace (`!s.trim()`). */
  lemma {:induction false} TrimEmptyIffBlank(s: string)
    ensures Trim(s) == [] <==> AllSpace(s)
  {
    var t := TrimStart(s);
    TrimStartSpaces(s);
    TrimEndSpaces(t);
    TrimStartFirst(s);
    if Trim(s) == [] {
      assert t == t[0..];
      assert s == s[..|s| - |t|] + t;
    } else if t != [] {
      assert !IsSpace(s[|s| - |t|]);
    }
  }

  /** ASCII case folding of one character, as `toLowerCase` does on ASCII. */
  function LowerChar(c: char): (d: char)
    ensures 'A' <= c <= 'Z' ==> d != c && 'a' <= d <= 'z'
    ensures !('A' <= c <= 'Z') ==> d == c
  {
    if 'A' <= c <= 'Z' then (c as int + 32) as char else c
  }

  /** `s.toLowerCase()`, character by character. */
  function Lower(s: string): (r: string)
    ensures |r| == |s|
    ensures forall i :: 0 <= i < |s| ==> r[i] == LowerChar(s[i])
  {
    if s == [] then [] else [LowerChar(s[0])] + Lower(s[1..])
  }

  /** `needle` occurs in `hay` at position `i`. */
  predicate OccursAt(hay: string, needle: string, i: int) {
    0 <= i && i + |needle| <= |hay| && hay[i..i + |needle|] == needle
  }

  /** `hay.includes(needle)`, by scanning from position 0. */
  function Contains(hay: string, needle: string): (b: bool)
    ensures b <==> exists i :: OccursAt(hay, needle, i)
  {
    ContainsFrom(hay, needle, 0)
  }

  function ContainsFrom(hay: string, needle: string, k: nat): (b: bool)
    requires k <= |hay|
    ensures b <==> exists i :: k <= i && OccursAt(hay, needle, i)
    decreases |hay| - k
  {
    if k + |needle| > |hay| then
      false
    else if hay[k..k + |needle|] == needle then
      assert OccursAt(hay, needle, k);
      true
    else
      var b := ContainsFrom(hay, needle, k + 1);
      assert forall i :: k <= i && OccursAt(hay, needle, i) ==> i == k || k + 1 <= i;
      b
  }
}
