/** The few functions of Go's `strings` and `path/filepath` packages the scanner relies on. */
module Text {
  import opened Results

  /** `sub` occurs in `s` starting at index `i`. */
  predicate OccursAt(s: string, sub: string, i: nat) {
    i + |sub| <= |s| && s[i..i + |sub|] == sub
  }

  predicate HasPrefix(s: string, prefix: string) {
    |prefix| <= |s| && s[..|prefix|] == prefix
  }

  predicate HasSuffix(s: string, suffix: string) {
    |suffix| <= |s| && s[|s| - |suffix|..] == suffix
  }

  /** `strings.TrimPrefix`: drops `prefix` once if `s` starts with it. */
  function TrimPrefix(s: string, prefix: string): (r: string)
    ensures HasPrefix(s, prefix) ==> prefix + r == s
    ensures !HasPrefix(s, prefix) ==> r == s
  {
    if HasPrefix(s, prefix) then s[|prefix|..] else s
  }

  /** `strings.TrimSuffix`: drops `suffix` once if `s` ends with it. */
  function TrimSuffix(s: string, suffix: string): (r: string)
    ensures HasSuffix(s, suffix) ==> r + suffix == s
    ensures !HasSuffix(s, suffix) ==> r == s
  {
    if HasSuffix(s, suffix) then s[..|s| - |suffix|] else s
  }

  /** The first index at or after `from` where `sub` occurs, as `strings.Index` searches. */
  function IndexFrom(s: string, sub: string, from: nat): (r: Option<nat>)
    ensures r.Some? ==> from <= r.value && OccursAt(s, sub, r.value)
    ensures r.Some? ==> forall j :: from <= j < r.value ==> !OccursAt(s, sub, j)
    ensures r.None? ==> forall j :: from <= j ==> !OccursAt(s, sub, j)
    decreases |s| - from
  {
    if from + |sub| > |s| then None
    else if OccursAt(s, sub, from) then Some(from)
    else IndexFrom(s, sub, from + 1)
  }

  /** `strings.Contains`: holds exactly when `sub` occurs somewhere in `s`. */
  predicate Contains(s: string, sub: string): (r: bool)
    ensures r <==> exists i: nat :: OccursAt(s, sub, i)
  {
    var found := IndexFrom(s, sub, 0);
    assert found.None? ==> forall i: nat :: !OccursAt(s, sub, i) by {
      if found.None? {
        forall i: nat ensures !OccursAt(s, sub, i) {
          assert 0 <= i;
        }
      }
    }
    found.Some?
  }

  /** `strings.Replace(s, " ", ".", -1)`: every space becomes a dot. */
  function SpacesToDots(s: string): (r: string)
    ensures |r| == |s|
    ensures forall i :: 0 <= i < |s| && s[i] != ' ' ==> r[i] == s[i]
    ensures forall i :: 0 <= i < |s| && s[i] == ' ' ==> r[i] == '.'
  {
    if s == [] then []
    else [if s[0] == ' ' then '.' else s[0]] + SpacesToDots(s[1..])
  }

  /** `filepath.Split` on '/'-separated paths: `dir` is everything up to and including the
      last separator, `file` the rest. */
  function Split(path: string): (r: (string, string))
    ensures r.0 + r.1 == path
    ensures forall i :: 0 <= i < |r.1| ==> r.1[i] != '/'
    ensures r.0 == [] || r.0[|r.0| - 1] == '/'
  {
    if path == [] then ([], [])
    else if path[|path| - 1] == '/' then (path, [])
    else
      var (dir, file) := Split(path[..|path| - 1]);
      assert path == path[..|path| - 1] + [path[|path| - 1]];
      (dir, file + [path[|path| - 1]])
  }

  /** `filepath.Join(dir, file)` for a `dir` produced by `Split` of an already clean path. */
  function Join(dir: string, file: string): string {
    dir + file
  }

  /** `Join` undoes `Split`, and `Split` undoes `Join` of a directory part ending in the separator
      and a file name without one. */
  lemma {:induction false} SplitJoin(dir: string, file: string)
    requires dir == [] || dir[|dir| - 1] == '/'
    requires forall i :: 0 <= i < |file| ==> file[i] != '/'
    ensures Split(Join(dir, file)) == (dir, file)
    ensures Join(Split(dir + file).0, Split(dir + file).1) == dir + file
    decreases |file|
  {
    var path := Join(dir, file);
    if file == [] {
      assert path == dir;
    } else {
      var init := file[..|file| - 1];
      assert path[..|path| - 1] == Join(dir, init);
      assert path[|path| - 1] == file[|file| - 1];
      SplitJoin(dir, init);
      assert init + [file[|file| - 1]] == file;
    }
  }
}
