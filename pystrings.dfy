/** The Python `str` operations the modelled code uses, on `string = seq<char>`. */
module PyStrings {
  import opened Outcome

  /** `s[i:j]` for non-negative `i` and `j`: both bounds are clamped to `len(s)`. */
  function Slice(s: string, i: nat, j: nat): (r: string)
    ensures |r| == if j <= i || |s| <= i then 0 else (if j <= |s| then j else |s|) - i
    ensures forall k :: 0 <= k < |r| ==> r[k] == s[i + k]
  {
    var lo := if i <= |s| then i else |s|;
    var hi := if j <= |s| then j else |s|;
    if lo <= hi then s[lo..hi] else ""
  }

  /** `sub` occurs in `s` starting at position `i`. */
  predicate OccursAt(s: string, sub: string, i: nat) {
    i + |sub| <= |s| && s[i..i + |sub|] == sub
  }

  /** `sub in s`. */
  predicate Contains(s: string, sub: string) {
    exists i: nat :: i <= |s| && OccursAt(s, sub, i)
  }

  /** The first position at or after `from` where `sub` occurs (`s.find(sub, from)`). */
  function FindFrom(s: string, sub: string, from: nat): (r: Option<nat>)
    decreases |s| - from
    ensures r.Some? ==> from <= r.value && OccursAt(s, sub, r.value)
    ensures r.Some? ==> forall m: nat :: from <= m < r.value ==> !OccursAt(s, sub, m)
    ensures r.None? ==> forall m: nat :: from <= m ==> !OccursAt(s, sub, m)
  {
    if |s| < from + |sub| then None
    else if OccursAt(s, sub, from) then Some(from)
    else FindFrom(s, sub, from + 1)
  }

  /** `s.split(sep)` for a non-empty separator (Python raises ValueError for an empty one). */
  function Split(s: string, sep: string): (r: seq<string>)
    requires |sep| > 0
    decreases |s|
    ensures |r| >= 1
    ensures |r| >= 2 <==> Contains(s, sep)
  {
    match FindFrom(s, sep, 0)
    case None => [s]
    case Some(i) => [s[..i]] + Split(s[i + |sep|..], sep)
  }

  /** `sep.join(parts)`. */
  function Join(parts: seq<string>, sep: string): string
    decreases |parts|
  {
    if |parts| == 0 then ""
    else if |parts| == 1 then parts[0]
    else parts[0] + sep + Join(parts[1..], sep)
  }

  /** `s.replace(target, with)` for a non-empty `target`: Python's replacement of every
      non-overlapping occurrence, left to right, is `with.join(s.split(target))`. */
  function Replace(s: string, target: string, with: string): string
    requires |target| > 0
  {
    Join(Split(s, target), with)
  }

  /** The first piece of a split is what precedes the first occurrence of the separator
      (the whole string without one); the other pieces are the split of what follows it. */
  lemma SplitFirst(s: string, sep: string)
    requires |sep| > 0
    ensures FindFrom(s, sep, 0).None? ==> Split(s, sep) == [s]
    ensures FindFrom(s, sep, 0).Some? ==>
              var i := FindFrom(s, sep, 0).value;
              i + |sep| <= |s| && Split(s, sep)[0] == s[..i] && Split(s, sep)[1..] == Split(s[i + |sep|..], sep)
  {
  }

  /** An occurrence in a suffix is an occurrence in the whole string, shifted. */
  lemma OccursShift(s: string, sub: string, k: nat, m: nat)
    requires k <= |s|
    ensures OccursAt(s[k..], sub, m) <==> OccursAt(s, sub, k + m)
  {
    if k + m + |sub| <= |s| {
      assert s[k..][m..m + |sub|] == s[k + m..k + m + |sub|];
    }
  }

  /** A character that is in neither the pieces nor the separator is not in their join. */
  lemma {:induction false} JoinAvoids(parts: seq<string>, sep: string, c: char)
    requires forall k :: 0 <= k < |parts| ==> c !in parts[k]
    requires c !in sep
    ensures c !in Join(parts, sep)
    decreases |parts|
  {
    if |parts| > 1 {
      JoinAvoids(parts[1..], sep, c);
    }
  }

  /** `s.replace(c, with)` for a single character `c` not in `with` leaves no `c`. */
  lemma ReplaceRemoves(s: string, c: char, with: string)
    requires c !in with
    ensures c !in Replace(s, [c], with)
  {
    var pieces := Split(s, [c]);
    SplitPiecesFree(s, [c]);
    forall k | 0 <= k < |pieces| ensures c !in pieces[k] {
      if c in pieces[k] {
        var t :| 0 <= t < |pieces[k]| && pieces[k][t] == c;
        assert OccursAt(pieces[k], [c], t);
      }
    }
    JoinAvoids(pieces, with, c);
  }

  /** Joining the pieces of a split with the same separator gives back the string. */
  lemma {:induction false} JoinSplit(s: string, sep: string)
    requires |sep| > 0
    decreases |s|
    ensures Join(Split(s, sep), sep) == s
  {
    match FindFrom(s, sep, 0)
    case None =>
    case Some(i) =>
      var rest := s[i + |sep|..];
      JoinSplit(rest, sep);
      assert s[i..i + |sep|] == sep;
      assert s == s[..i] + sep + rest;
  }

  /** No piece of a split contains the separator. */
  lemma {:induction false} SplitPiecesFree(s: string, sep: string)
    requires |sep| > 0
    decreases |s|
    ensures forall k :: 0 <= k < |Split(s, sep)| ==> !Contains(Split(s, sep)[k], sep)
  {
    match FindFrom(s, sep, 0)
    case None =>
    case Some(i) =>
      var rest := s[i + |sep|..];
      SplitPiecesFree(rest, sep);
      var head := s[..i];
      forall m: nat | m + |sep| <= |head|
        ensures !OccursAt(head, sep, m)
      {
        assert m < i && !OccursAt(s, sep, m);
        var hs, ss := head[m..m + |sep|], s[m..m + |sep|];
        forall t | 0 <= t < |sep| ensures hs[t] == ss[t] {
          assert head[m + t] == s[m + t];
        }
        assert hs == ss;
      }
      assert Split(s, sep) == [head] + Split(rest, sep);
  }

  /** The characters Python's `str.strip()` removes, restricted to ASCII: the ASCII
      characters for which `isspace()` holds. */
  const Whitespace: set<char> :=
    {' ', '\t', '\n', '\r', 11 as char, 12 as char, 28 as char, 29 as char, 30 as char, 31 as char}

  /** `s.lstrip(cs)`: drop leading characters that are in `cs`. */
  function TrimLeft(s: string, cs: set<char>): (r: string)
    ensures |r| <= |s| && r == s[|s| - |r|..]
    ensures r != [] ==> r[0] !in cs
    ensures forall k :: 0 <= k < |s| - |r| ==> s[k] in cs
  {
    if s != [] && s[0] in cs then TrimLeft(s[1..], cs) else s
  }

  /** `s.rstrip(cs)`: drop trailing characters that are in `cs`. */
  function TrimRight(s: string, cs: set<char>): (r: string)
    ensures |r| <= |s| && r == s[..|r|]
    ensures r != [] ==> r[|r| - 1] !in cs
    ensures forall k :: |r| <= k < |s| ==> s[k] in cs
  {
    if s != [] && s[|s| - 1] in cs then TrimRight(s[..|s| - 1], cs) else s
  }

  /** `s.strip(cs)`: the infix of `s` left after dropping characters of `cs` at both ends. */
  function StripChars(s: string, cs: set<char>): (r: string)
    ensures |r| <= |s|
    ensures r != [] ==> r[0] !in cs && r[|r| - 1] !in cs
  {
    TrimRight(TrimLeft(s, cs), cs)
  }

  /** `s.strip()`. */
  function Strip(s: string): string {
    StripChars(s, Whitespace)
  }

  /** `s.upper()` on ASCII letters. */
  function Upper(s: string): (r: string)
    ensures |r| == |s|
    ensures forall k :: 0 <= k < |s| ==> r[k] == if 'a' <= s[k] <= 'z' then (s[k] as int - 32) as char else s[k]
  {
    if s == [] then []
    else [if 'a' <= s[0] <= 'z' then (s[0] as int - 32) as char else s[0]] + Upper(s[1..])
  }

  /** `os.path.basename(path)`: what follows the last `'/'`. */
  function Basename(path: string): (r: string)
    ensures '/' !in r
    ensures |r| <= |path| && r == path[|path| - |r|..]
    ensures |r| < |path| ==> path[|path| - |r| - 1] == '/'
  {
    if path == [] then []
    else if path[|path| - 1] == '/' then []
    else Basename(path[..|path| - 1]) + [path[|path| - 1]]
  }
}
