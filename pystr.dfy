/**
 * The handful of Python `str` operations the agent graph relies on, with
 * Python's semantics: the `in` operator (substring test), `str.replace`
 * with no count (replace every non-overlapping occurrence, scanning left to
 * right), `str.split` on a non-empty separator and `str.join`.
 */
module PyStr {

  /** `p` occurs in `s` starting at index `i`. */
  predicate OccursAt(s: string, p: string, i: nat) {
    i + |p| <= |s| && s[i..i + |p|] == p
  }

  predicate StartsWith(s: string, p: string) {
    |p| <= |s| && s[..|p|] == p
  }

  /** Python's `p in s`; the empty string occurs in every string. */
  function Contains(s: string, p: string): (b: bool)
    ensures b <==> exists i: nat :: OccursAt(s, p, i)
    decreases |s|
  {
    if StartsWith(s, p) then
      assert OccursAt(s, p, 0);
      true
    else if s == [] then
      false
    else
      var b := Contains(s[1..], p);
      assert forall j: nat :: OccursAt(s[1..], p, j) <==> OccursAt(s, p, j + 1) by {
        forall j: nat ensures OccursAt(s[1..], p, j) <==> OccursAt(s, p, j + 1) {
          if j + 1 + |p| <= |s| {
            assert s[1..][j..j + |p|] == s[j + 1..j + 1 + |p|];
          }
        }
      }
      assert b ==> exists i: nat :: OccursAt(s, p, i) by {
        if b {
          var j: nat :| OccursAt(s[1..], p, j);
          assert OccursAt(s, p, j + 1);
        }
      }
      assert (exists i: nat :: OccursAt(s, p, i)) ==> b by {
        if exists i: nat :: OccursAt(s, p, i) {
          var i: nat :| OccursAt(s, p, i);
          assert i != 0;
          assert OccursAt(s[1..], p, i - 1);
        }
      }
      b
  }

  /** `r` before every character of `s` and once more at the end. */
  function Interleave(s: string, r: string): (t: string)
    decreases |s|
  {
    if s == [] then r else r + [s[0]] + Interleave(s[1..], r)
  }

  /**
   * Python's `s.replace(p, r)`: every non-overlapping occurrence of `p`,
   * found left to right, becomes `r`; for an empty `p`, Python inserts `r`
   * at every position (`"ab".replace("", "-") == "-a-b-"`).
   */
  function ReplaceAll(s: string, p: string, r: string): (t: string)
    decreases |s|
  {
    if p == [] then Interleave(s, r)
    else if !StartsWith(s, p) then
      if s == [] then [] else [s[0]] + ReplaceAll(s[1..], p, r)
    else r + ReplaceAll(s[|p|..], p, r)
  }

  /** Python's `sep.join(parts)`. */
  function Join(parts: seq<string>, sep: string): (t: string)
    decreases |parts|
  {
    if parts == [] then []
    else if |parts| == 1 then parts[0]
    else parts[0] + sep + Join(parts[1..], sep)
  }

  /** Python's `s.split(p)` for a non-empty separator `p`. */
  function Split(s: string, p: string): (parts: seq<string>)
    requires p != []
    ensures |parts| >= 1
    decreases |s|
  {
    if StartsWith(s, p) then [[]] + Split(s[|p|..], p)
    else if s == [] then [[]]
    else
      var t := Split(s[1..], p);
      [[s[0]] + t[0]] + t[1..]
  }

  // ---------------------------------------------------------------------
  // Properties of `in` and `replace`

  /** An occurrence in `t` is still an occurrence once `u` is put in front. */
  lemma ContainsAfterPrefix(u: string, t: string, p: string)
    requires Contains(t, p)
    ensures Contains(u + t, p)
  {
    var i: nat :| OccursAt(t, p, i);
    assert (u + t)[|u| + i..|u| + i + |p|] == t[i..i + |p|];
    assert OccursAt(u + t, p, |u| + i);
  }

  /** Replacing a string that does not occur changes nothing. */
  lemma {:induction false} ReplaceAbsent(s: string, p: string, r: string)
    requires !Contains(s, p)
    ensures ReplaceAll(s, p, r) == s
    decreases |s|
  {
    assert OccursAt(s, [], 0);
    if s != [] {
      ReplaceAbsent(s[1..], p, r);
    }
  }

  /** Replacing a string by itself changes nothing. */
  lemma {:induction false} ReplaceBySelf(s: string, p: string)
    ensures ReplaceAll(s, p, p) == s
    decreases |s|
  {
    if p == [] {
      InterleaveEmpty(s);
    } else if !StartsWith(s, p) {
      if s != [] {
        ReplaceBySelf(s[1..], p);
      }
    } else {
      ReplaceBySelf(s[|p|..], p);
      assert s == s[..|p|] + s[|p|..];
    }
  }

  lemma {:induction false} InterleaveEmpty(s: string)
    ensures Interleave(s, []) == s
    decreases |s|
  {
    if s != [] {
      InterleaveEmpty(s[1..]);
    }
  }

  // ---------------------------------------------------------------------
  // `replace` against the reference definition `r.join(s.split(p))`

  lemma JoinCons(x: string, parts: seq<string>, sep: string)
    requires parts != []
    ensures Join([x] + parts, sep) == x + sep + Join(parts, sep)
  {
    assert ([x] + parts)[1..] == parts;
  }

  /** Putting a character in front of the first part puts it in front of the whole. */
  lemma JoinPrependChar(c: char, parts: seq<string>, sep: string)
    requires parts != []
    ensures Join([[c] + parts[0]] + parts[1..], sep) == [c] + Join(parts, sep)
  {
    if |parts| > 1 {
      JoinCons([c] + parts[0], parts[1..], sep);
    }
  }

  /** Python's identity `s.replace(p, r) == r.join(s.split(p))` for a non-empty `p`. */
  lemma {:induction false} ReplaceIsJoinOfSplit(s: string, p: string, r: string)
    requires p != []
    ensures ReplaceAll(s, p, r) == Join(Split(s, p), r)
    decreases |s|
  {
    if StartsWith(s, p) {
      ReplaceIsJoinOfSplit(s[|p|..], p, r);
      JoinCons([], Split(s[|p|..], p), r);
    } else if s != [] {
      ReplaceIsJoinOfSplit(s[1..], p, r);
      JoinPrependChar(s[0], Split(s[1..], p), r);
    }
  }

  /** Joining the pieces of a split with the separator gives back the string. */
  lemma SplitJoinRoundTrip(s: string, p: string)
    requires p != []
    ensures Join(Split(s, p), p) == s
  {
    ReplaceIsJoinOfSplit(s, p, p);
    ReplaceBySelf(s, p);
  }

  /** `p` occurs in `s` exactly when splitting on it yields more than one piece. */
  lemma {:induction false} SplitMoreThanOneIffContains(s: string, p: string)
    requires p != []
    ensures |Split(s, p)| > 1 <==> Contains(s, p)
    decreases |s|
  {
    if StartsWith(s, p) {
      assert OccursAt(s, p, 0);
    } else if s != [] {
      SplitMoreThanOneIffContains(s[1..], p);
    }
  }

  // ---------------------------------------------------------------------
  // `join`

  /** Every part is a substring of the joined string. */
  lemma {:induction false} JoinContainsEachPart(parts: seq<string>, sep: string, i: nat)
    requires i < |parts|
    ensures Contains(Join(parts, sep), parts[i])
    decreases |parts|
  {
    if i == 0 {
      var j := Join(parts, sep);
      assert j[..|parts[0]|] == parts[0];
      assert OccursAt(j, parts[0], 0);
    } else {
      JoinContainsEachPart(parts[1..], sep, i - 1);
      ContainsAfterPrefix(parts[0] + sep, Join(parts[1..], sep), parts[i]);
    }
  }
}
