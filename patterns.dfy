/**
 * The four case-insensitive regular expressions that the topic query is
 * checked against (components/Home.tsx). Each is a sequence of tokens: a
 * literal string, `\s+` or `\s*`. `Denotes` gives the set of words a
 * pattern describes; `MatchPrefix` and `Test` are the executable matcher,
 * and `TestCorrect` shows that `Test` is what `RegExp.prototype.test`
 * answers: some substring of the subject, lower-cased, is a word of the
 * pattern.
 */
module Patterns {
  import opened Text

  datatype Token = Lit(s: string) | Spaces(atLeastOne: bool)

  type Pattern = seq<Token>

  /** `/ignore\s+previous\s+instructions/i` */
  function IgnorePrevious(): Pattern {
    [Lit("ignore"), Spaces(true), Lit("previous"), Spaces(true), Lit("instructions")]
  }

  /** `/system\s*:/i` */
  function SystemColon(): Pattern {
    [Lit("system"), Spaces(false), Lit(":")]
  }

  /** `/\[INST\]/i`, its letters folded to lower case. */
  function InstTag(): Pattern {
    [Lit("[inst]")]
  }

  /** `/<\|im_start\|>/i` */
  function ImStart(): Pattern {
    [Lit("<|im_start|>")]
  }

  /** `dangerousPatterns`, in the order they are tried. */
  function DangerousPatterns(): seq<Pattern> {
    [IgnorePrevious(), SystemColon(), InstTag(), ImStart()]
  }

  /** `w` is one of the words the pattern describes. */
  ghost predicate Denotes(p: Pattern, w: string)
    decreases |p|
  {
    if p == [] then w == []
    else match p[0]
      case Lit(s) => |s| <= |w| && w[..|s|] == s && Denotes(p[1..], w[|s|..])
      case Spaces(one) =>
        exists k :: (if one then 1 else 0) <= k <= |w| && AllSpace(w[..k]) && Denotes(p[1..], w[k..])
  }

  /** Some prefix of `w` is a word of `p`, decided by backtracking over the whitespace runs. */
  function MatchPrefix(p: Pattern, w: string): bool
    decreases |w|, |p|
  {
    if p == [] then true
    else match p[0]
      case Lit(s) => |s| <= |w| && w[..|s|] == s && MatchPrefix(p[1..], w[|s|..])
      case Spaces(one) =>
        if one then w != [] && IsSpace(w[0]) && MatchPrefix([Spaces(false)] + p[1..], w[1..])
        else MatchPrefix(p[1..], w) || (w != [] && IsSpace(w[0]) && MatchPrefix(p, w[1..]))
  }

  /** What `MatchPrefix` accepts, a prefix of `w` of length `j` denotes. */
  lemma {:induction false} MatchPrefixSound(p: Pattern, w: string) returns (j: nat)
    requires MatchPrefix(p, w)
    ensures j <= |w| && Denotes(p, w[..j])
    decreases |w|, |p|
  {
    if p == [] {
      j := 0;
    } else {
      match p[0]
      case Lit(s) =>
        var j' := MatchPrefixSound(p[1..], w[|s|..]);
        j := j' + |s|;
        assert w[..j][..|s|] == s;
        assert w[..j][|s|..] == w[|s|..][..j'];
      case Spaces(one) =>
        if one {
          var q := [Spaces(false)] + p[1..];
          var j' := MatchPrefixSound(q, w[1..]);
          j := j' + 1;
          SpacesStep(p, w, j', q);
        } else if MatchPrefix(p[1..], w) {
          j := MatchPrefixSound(p[1..], w);
          assert w[..j][..0] == [] && w[..j][0..] == w[..j];
        } else {
          var j' := MatchPrefixSound(p, w[1..]);
          j := j' + 1;
          SpacesStep(p, w, j', p);
        }
    }
  }

  /** One more leading whitespace character extends a whitespace run. */
  lemma {:induction false} SpacesStep(p: Pattern, w: string, j': nat, q: Pattern)
    requires p != [] && p[0].Spaces? && q != [] && q[0] == Spaces(false) && q[1..] == p[1..]
    requires w != [] && IsSpace(w[0]) && j' <= |w| - 1 && Denotes(q, w[1..][..j'])
    ensures Denotes(p, w[..j' + 1])
  {
    var v := w[1..][..j'];
    var k :| 0 <= k <= |v| && AllSpace(v[..k]) && Denotes(p[1..], v[k..]);
    var u := w[..j' + 1];
    assert u[1..] == v;
    assert u[..k + 1] == [u[0]] + v[..k];
    assert AllSpace(u[..k + 1]);
    assert u[k + 1..] == v[k..];
  }

  /** Whatever prefix of `w` denotes, `MatchPrefix` accepts. */
  lemma {:induction false} MatchPrefixComplete(p: Pattern, w: string, j: nat)
    requires j <= |w| && Denotes(p, w[..j])
    ensures MatchPrefix(p, w)
    decreases |w|, |p|
  {
    if p != [] {
      match p[0]
      case Lit(s) =>
        assert w[..|s|] == w[..j][..|s|];
        assert w[..j][|s|..] == w[|s|..][..j - |s|];
        MatchPrefixComplete(p[1..], w[|s|..], j - |s|);
      case Spaces(one) =>
        var v := w[..j];
        var k :| (if one then 1 else 0) <= k <= |v| && AllSpace(v[..k]) && Denotes(p[1..], v[k..]);
        if k == 0 {
          assert v[k..] == v;
          MatchPrefixComplete(p[1..], w, j);
        } else {
          SpacesUnstep(p, w, j, k);
        }
    }
  }

  /** A whitespace run of length `k > 0` at the front: drop its first character and recurse. */
  lemma {:induction false} SpacesUnstep(p: Pattern, w: string, j: nat, k: nat)
    requires p != [] && p[0].Spaces? && 0 < k <= j <= |w|
    requires AllSpace(w[..j][..k]) && Denotes(p[1..], w[..j][k..])
    ensures MatchPrefix(p, w)
    decreases |w|, |p|, 0
  {
    var q := [Spaces(false)] + p[1..];
    assert q[1..] == p[1..];
    var u := w[1..][..j - 1];
    assert u == w[1..j];
    assert u[..k - 1] == w[..j][..k][1..];
    assert u[k - 1..] == w[k..j] == w[..j][k..];
    assert AllSpace(u[..k - 1]) && Denotes(q[1..], u[k - 1..]);
    assert Denotes(q, u);
    MatchPrefixComplete(q, w[1..], j - 1);
    assert IsSpace(w[..j][..k][0]);
    if !p[0].atLeastOne {
      assert q == p;
    }
  }

  /** A match starts at some position from `i` on. */
  function TestFrom(p: Pattern, t: string, i: nat): (b: bool)
    requires i <= |t|
    ensures b <==> exists k :: i <= k <= |t| && MatchPrefix(p, t[k..])
    decreases |t| - i
  {
    if MatchPrefix(p, t[i..]) then true
    else if i == |t| then false
    else TestFrom(p, t, i + 1)
  }

  /** `pattern.test(s)` for a pattern with the `i` flag. */
  function Test(p: Pattern, s: string): (b: bool)
    ensures b <==> exists k :: 0 <= k <= |Lower(s)| && MatchPrefix(p, Lower(s)[k..])
  {
    TestFrom(p, Lower(s), 0)
  }

  /** Some substring of the lower-cased subject is a word of the pattern. */
  ghost predicate Occurs(p: Pattern, s: string) {
    exists i, j :: 0 <= i <= j <= |s| && Denotes(p, Lower(s)[i..j])
  }

  /** `Test` answers whether some substring of the lower-cased subject is a word of the pattern. */
  lemma {:induction false} TestCorrect(p: Pattern, s: string)
    ensures Test(p, s) <==> Occurs(p, s)
  {
    if Test(p, s) {
      TestSound(p, s);
    }
    if Occurs(p, s) {
      TestComplete(p, s);
    }
  }

  lemma {:induction false} TestSound(p: Pattern, s: string)
    requires Test(p, s)
    ensures Occurs(p, s)
  {
    var t := Lower(s);
    var i :| 0 <= i <= |t| && MatchPrefix(p, t[i..]);
    var j := MatchPrefixSound(p, t[i..]);
    assert t[i..][..j] == t[i..i + j];
    var e := i + j;
    assert 0 <= i <= e <= |s| && Denotes(p, Lower(s)[i..e]);
  }

  lemma {:induction false} TestComplete(p: Pattern, s: string)
    requires Occurs(p, s)
    ensures Test(p, s)
  {
    var t := Lower(s);
    var i, j :| 0 <= i <= j <= |s| && Denotes(p, t[i..j]);
    assert t[i..][..j - i] == t[i..j];
    MatchPrefixComplete(p, t[i..], j - i);
    assert 0 <= i <= |t| && MatchPrefix(p, t[i..]);
  }

  /** Some pattern of the list occurs in `s`. */
  predicate MatchesAny(patterns: seq<Pattern>, s: string) {
    exists k :: 0 <= k < |patterns| && Test(patterns[k], s)
  }

  /** Some pattern of the list occurs in `s` exactly when some substring of `s`, lower-cased, is a word of one of them. */
  lemma {:induction false} MatchesAnyCorrect(patterns: seq<Pattern>, s: string)
    ensures MatchesAny(patterns, s) <==> exists k :: 0 <= k < |patterns| && Occurs(patterns[k], s)
  {
    forall k | 0 <= k < |patterns| {
      TestCorrect(patterns[k], s);
    }
  }
}
