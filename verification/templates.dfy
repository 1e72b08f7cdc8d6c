/** The template filters and the tag pattern of the generator's template set. */
module Templates {
  import opened Results
  import opened Text

  // ---------------------------------------------------------------------------
  // Filters

  /** Go's `int` on the 64-bit platforms the generator targets. */
  newtype Int64 = x: int | -0x8000_0000_0000_0000 <= x < 0x8000_0000_0000_0000

  const MaxInt64: Int64 := 0x7fff_ffff_ffff_ffff
  const MinInt64: Int64 := -0x8000_0000_0000_0000

  /** `plus1`: the successor in two's-complement arithmetic, so `MaxInt64` wraps to `MinInt64`. */
  function Plus1(x: Int64): (r: Int64)
    ensures x < MaxInt64 ==> r as int == x as int + 1
    ensures x == MaxInt64 ==> r == MinInt64
  {
    if x == MaxInt64 then MinInt64 else x + 1
  }

  /** Distinct zero-based indices get distinct one-based placeholder numbers, and no index is
      numbered by itself. */
  lemma Plus1Injective(x: Int64, y: Int64)
    ensures Plus1(x) == Plus1(y) <==> x == y
    ensures Plus1(x) != x
  {
  }

  predicate IsUpper(c: char) {
    'A' <= c <= 'Z'
  }

  /** ASCII `unicode.ToLower`. */
  function LowerChar(c: char): (r: char)
    ensures IsUpper(c) ==> r as int == c as int + 32
    ensures !IsUpper(c) ==> r == c
  {
    if IsUpper(c) then (c as int + 32) as char else c
  }

  /** `lower`: `strings.ToLower`, restricted to ASCII case mapping. */
  function Lower(s: string): (r: string)
    ensures |r| == |s|
    ensures forall i :: 0 <= i < |s| ==> r[i] == LowerChar(s[i])
  {
    if s == [] then [] else [LowerChar(s[0])] + Lower(s[1..])
  }

  /** The result of `lower` has no upper-case ASCII letter, keeps every other character, and
      lowering it again changes nothing. */
  lemma LowerProperties(s: string)
    ensures forall i :: 0 <= i < |s| ==> !IsUpper(Lower(s)[i])
    ensures forall i :: 0 <= i < |s| && !IsUpper(s[i]) ==> Lower(s)[i] == s[i]
    ensures Lower(Lower(s)) == Lower(s)
  {
    var r := Lower(s);
    assert forall i :: 0 <= i < |s| ==> LowerChar(r[i]) == r[i];
  }

  /** `caller`: the first byte of the lower-cased name; Go panics on the empty string. */
  function Caller(s: string): (r: string)
    requires |s| > 0
    ensures |r| == 1
    ensures r[0] == LowerChar(s[0]) && !IsUpper(r[0])
    ensures HasPrefix(Lower(s), r)
  {
    Lower(s)[0..1]
  }

  // ---------------------------------------------------------------------------
  // Tag pattern  tabler:"([0-9a-zA-Z=&\(\)]*)"

  const TagOpen: string := "tabler:\""

  /** The character class of the pattern's group. */
  predicate InTagClass(c: char) {
    || '0' <= c <= '9'
    || 'a' <= c <= 'z'
    || 'A' <= c <= 'Z'
    || c == '=' || c == '&' || c == '(' || c == ')'
  }

  predicate AllInTagClass(p: string) {
    forall i :: 0 <= i < |p| ==> InTagClass(p[i])
  }

  /** The declarative meaning of the pattern: it matches `s` at `i` with group `p`. */
  predicate MatchesAt(s: string, i: nat, p: string) {
    AllInTagClass(p) && OccursAt(s, TagOpen + p + "\"", i)
  }

  /** The match the regular-expression engine reports: at `i`, with no match starting
      earlier. */
  ghost predicate LeftmostMatch(s: string, i: nat, p: string) {
    MatchesAt(s, i, p) && forall j: nat, q :: j < i ==> !MatchesAt(s, j, q)
  }

  /** The end of the maximal run of class characters starting at `j`. */
  function RunEnd(s: string, j: nat): (k: nat)
    requires j <= |s|
    ensures j <= k <= |s|
    ensures AllInTagClass(s[j..k])
    ensures k < |s| ==> !InTagClass(s[k])
    decreases |s| - j
  {
    if j == |s| || !InTagClass(s[j]) then j else RunEnd(s, j + 1)
  }

  /** A run of class characters that cannot be extended is the maximal run. */
  lemma {:induction false} RunEndUnique(s: string, j: nat, k: nat)
    requires j <= k <= |s|
    requires AllInTagClass(s[j..k])
    requires k < |s| ==> !InTagClass(s[k])
    ensures RunEnd(s, j) == k
    decreases k - j
  {
    if j < k {
      assert s[j..k][0] == s[j];
      assert s[j + 1..k] == s[j..k][1..];
      RunEndUnique(s, j + 1, k);
    }
  }

  /** The group the pattern captures when matching at `i`, if it matches there. */
  function MatchAt(s: string, i: nat): (r: Option<string>)
    ensures r.Some? ==> MatchesAt(s, i, r.value)
  {
    if OccursAt(s, TagOpen, i) then
      var k := RunEnd(s, i + |TagOpen|);
      if k < |s| && s[k] == '"' then
        var p := s[i + |TagOpen|..k];
        assert s[i..i + |TagOpen + p + "\""|] == TagOpen + p + "\"" by {
          assert s[i..k + 1] == s[i..i + |TagOpen|] + s[i + |TagOpen|..k] + [s[k]];
        }
        Some(p)
      else None
    else None
  }

  /** Because '"' is outside the class, the pattern can match at `i` with one group only, and
      `MatchAt` finds it. */
  lemma MatchAtComplete(s: string, i: nat, p: string)
    requires MatchesAt(s, i, p)
    ensures MatchAt(s, i) == Some(p)
  {
    var w := TagOpen + p + "\"";
    var j := i + |TagOpen|;
    var k := j + |p|;
    assert s[i..i + |w|] == w;
    assert s[i..j] == TagOpen by { assert s[i..j] == w[..|TagOpen|]; }
    assert s[j..k] == p by { assert s[j..k] == w[|TagOpen|..|TagOpen| + |p|]; }
    assert s[k] == '"' by { assert s[k] == w[|w| - 1]; }
    RunEndUnique(s, j, k);
  }

  /** The leftmost match at or after `from`, as `FindStringSubmatch` reports its group. */
  function FindFrom(s: string, from: nat): (r: Option<string>)
    decreases |s| - from
  {
    if from > |s| then None
    else match MatchAt(s, from)
      case Some(p) => Some(p)
      case None => FindFrom(s, from + 1)
  }

  /** Searching from `from`, with no match starting before it: a result is the group of the
      leftmost match, and no result means the pattern matches nowhere. */
  lemma {:induction false} FindFromSpec(s: string, from: nat)
    requires forall j: nat, q :: j < from ==> !MatchesAt(s, j, q)
    ensures FindFrom(s, from).Some? ==> exists i: nat :: LeftmostMatch(s, i, FindFrom(s, from).value)
    ensures FindFrom(s, from).None? ==> forall j: nat, q :: !MatchesAt(s, j, q)
    decreases |s| - from
  {
    if from > |s| {
      forall j: nat, q | MatchesAt(s, j, q) ensures false {
      }
    } else {
      match MatchAt(s, from)
      case Some(p) =>
        assert LeftmostMatch(s, from, p);
      case None =>
        forall q | MatchesAt(s, from, q) ensures false {
          MatchAtComplete(s, from, q);
        }
        FindFromSpec(s, from + 1);
    }
  }

  /** `tagPattern.FindStringSubmatch(tag)[1]`, or nothing when the match list is empty. */
  function TagPayload(tag: string): Option<string> {
    FindFrom(tag, 0)
  }

  /** There is a payload exactly when the pattern matches somewhere, and it is the group of the
      leftmost match, made of class characters. */
  lemma TagPayloadSound(tag: string)
    ensures TagPayload(tag).None? <==> forall j: nat, q :: !MatchesAt(tag, j, q)
    ensures TagPayload(tag).Some? ==> exists i: nat :: LeftmostMatch(tag, i, TagPayload(tag).value)
    ensures TagPayload(tag).Some? ==> AllInTagClass(TagPayload(tag).value)
  {
    FindFromSpec(tag, 0);
  }

  /** There is no payload exactly when the pattern matches nowhere; when it matches, the payload
      is the group of the leftmost match. */
  lemma TagPayloadComplete(tag: string, i: nat, p: string)
    ensures LeftmostMatch(tag, i, p) ==> TagPayload(tag) == Some(p)
  {
    TagPayloadSound(tag);
    if LeftmostMatch(tag, i, p) {
      var v := TagPayload(tag).value;
      var i': nat :| LeftmostMatch(tag, i', v);
      assert i' < i ==> MatchesAt(tag, i', v);
      assert i < i' ==> MatchesAt(tag, i, p);
      MatchAtComplete(tag, i, p);
      MatchAtComplete(tag, i, v);
    }
  }

  /** No payload is found when every `tabler:"` is followed by a maximal run of class characters
      that is not closed by '"' (for instance because the payload holds a space or '_'). */
  lemma UnclosedRunsGiveNoPayload(tag: string)
    requires forall i: nat :: OccursAt(tag, TagOpen, i) ==>
      var k := RunEnd(tag, i + |TagOpen|); k == |tag| || tag[k] != '"'
    ensures TagPayload(tag).None?
  {
    forall j: nat, q | MatchesAt(tag, j, q) ensures false {
      MatchAtComplete(tag, j, q);
    }
    TagPayloadSound(tag);
  }

  /** No match starts where `MatchAt` finds none. */
  lemma NoMatchAt(s: string, i: nat)
    requires MatchAt(s, i).None?
    ensures forall q :: !MatchesAt(s, i, q)
  {
    forall q | MatchesAt(s, i, q) ensures false {
      MatchAtComplete(s, i, q);
    }
  }

  /** The regular-expression search as a loop over start positions, with an inner loop for the
      maximal run of class characters. */
  method FindTagPayload(tag: string) returns (r: Option<string>)
    ensures r.Some? ==> exists i: nat :: LeftmostMatch(tag, i, r.value)
    ensures r.None? ==> forall j: nat, q :: !MatchesAt(tag, j, q)
    ensures r == TagPayload(tag)
  {
    var i := 0;
    while i + |TagOpen| <= |tag|
      invariant i <= |tag|
      invariant forall j: nat, q :: j < i ==> !MatchesAt(tag, j, q)
      decreases |tag| - i
    {
      if tag[i..i + |TagOpen|] == TagOpen {
        var k := i + |TagOpen|;
        while k < |tag| && InTagClass(tag[k])
          invariant i + |TagOpen| <= k <= |tag|
          invariant AllInTagClass(tag[i + |TagOpen|..k])
          decreases |tag| - k
        {
          assert tag[i + |TagOpen|..k + 1] == tag[i + |TagOpen|..k] + [tag[k]];
          k := k + 1;
        }
        RunEndUnique(tag, i + |TagOpen|, k);
        if k < |tag| && tag[k] == '"' {
          r := Some(tag[i + |TagOpen|..k]);
          assert MatchAt(tag, i) == r;
          assert LeftmostMatch(tag, i, r.value);
          TagPayloadComplete(tag, i, r.value);
          return;
        }
      }
      NoMatchAt(tag, i);
      i := i + 1;
    }
    r := None;
    forall j: nat, q | i <= j ensures !MatchesAt(tag, j, q) {
      assert |TagOpen + q + "\""| > |TagOpen|;
    }
    TagPayloadSound(tag);
  }
}
