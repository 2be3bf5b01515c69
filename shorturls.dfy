/**
 * Restoring the short citation URLs in the synthesised answer
 * (the loop at the end of `finalize_answer`): each gathered source whose
 * `short_url` occurs in the answer as rewritten so far has every occurrence
 * replaced by its full URL and is kept; every other source is dropped.
 */
module ShortUrls {
  import opened PyStr

  /** One gathered source: the token the model saw and the URL it stands for. */
  datatype Source = Source(shortUrl: string, value: string)

  /** The rewritten answer and the sources it still cites. */
  datatype Restored = Restored(content: string, kept: seq<Source>)

  /**
   * What the restore loop computes, one source at a time, front to back:
   * the first source is tested against the content as it stands, and the
   * rest are processed on the content that test left behind.
   */
  function Restore(content: string, sources: seq<Source>): Restored
    decreases |sources|
  {
    if sources == [] then Restored(content, [])
    else
      var s := sources[0];
      if Contains(content, s.shortUrl) then
        var rest := Restore(ReplaceAll(content, s.shortUrl, s.value), sources[1..]);
        Restored(rest.content, [s] + rest.kept)
      else
        Restore(content, sources[1..])
  }

  /** `a` is `b` with some elements left out, the rest in their original order. */
  predicate IsSubsequence<T(==)>(a: seq<T>, b: seq<T>)
    decreases |b|
  {
    a == [] ||
    (b != [] && ((a[0] == b[0] && IsSubsequence(a[1..], b[1..])) || IsSubsequence(a, b[1..])))
  }

  lemma {:induction false} SubsequenceBounds<T>(a: seq<T>, b: seq<T>)
    requires IsSubsequence(a, b)
    ensures |a| <= |b|
    ensures forall x :: x in a ==> x in b
    decreases |b|
  {
    if a != [] {
      if a[0] == b[0] && IsSubsequence(a[1..], b[1..]) {
        SubsequenceBounds(a[1..], b[1..]);
        assert a == [a[0]] + a[1..];
      } else {
        SubsequenceBounds(a, b[1..]);
      }
    }
  }

  /**
   * Processing one more source extends the loop exactly as one more
   * iteration would: the new source is tested against the content produced
   * by all the earlier ones, kept and substituted when its token occurs there,
   * dropped with the content left as it was otherwise.
   */
  lemma {:induction false} RestoreSnoc(content: string, sources: seq<Source>, s: Source)
    ensures Restore(content, sources + [s]) ==
      var before := Restore(content, sources);
      if Contains(before.content, s.shortUrl) then
        Restored(ReplaceAll(before.content, s.shortUrl, s.value), before.kept + [s])
      else before
    decreases |sources|
  {
    if sources != [] {
      var h := sources[0];
      assert (sources + [s])[1..] == sources[1..] + [s];
      if Contains(content, h.shortUrl) {
        RestoreSnoc(ReplaceAll(content, h.shortUrl, h.value), sources[1..], s);
      } else {
        RestoreSnoc(content, sources[1..], s);
      }
    }
  }

  /** The kept sources are an order-preserving selection of the gathered ones. */
  lemma {:induction false} RestoreKeepsSubsequence(content: string, sources: seq<Source>)
    ensures IsSubsequence(Restore(content, sources).kept, sources)
    ensures |Restore(content, sources).kept| <= |sources|
    decreases |sources|
  {
    if sources != [] {
      var s := sources[0];
      if Contains(content, s.shortUrl) {
        var next := ReplaceAll(content, s.shortUrl, s.value);
        RestoreKeepsSubsequence(next, sources[1..]);
        assert ([s] + Restore(next, sources[1..]).kept)[1..] == Restore(next, sources[1..]).kept;
      } else {
        RestoreKeepsSubsequence(content, sources[1..]);
      }
    }
    SubsequenceBounds(Restore(content, sources).kept, sources);
  }

  /**
   * When no token occurs in the answer, the answer comes back verbatim and
   * no source is kept.
   */
  lemma {:induction false} RestoreNothingCited(content: string, sources: seq<Source>)
    requires forall j :: 0 <= j < |sources| ==> !Contains(content, sources[j].shortUrl)
    ensures Restore(content, sources) == Restored(content, [])
    decreases |sources|
  {
    if sources != [] {
      assert !Contains(content, sources[0].shortUrl);
      RestoreNothingCited(content, sources[1..]);
    }
  }

  /**
   * Each source is tested against the content as already rewritten, not
   * against the model's raw output: a token introduced by an earlier
   * substitution makes a later source count as cited.
   */
  lemma TestedAgainstRewrittenContent()
    ensures !Contains("A", "B")
    ensures Restore("A", [Source("A", "B"), Source("B", "C")]) ==
      Restored("C", [Source("A", "B"), Source("B", "C")])
  {
    assert StartsWith("A", "A");
    assert !StartsWith("A", "B");
    assert ReplaceAll("A", "A", "B") == "B" by {
      assert ReplaceAll("", "A", "B") == "";
    }
    assert StartsWith("B", "B");
    assert ReplaceAll("B", "B", "C") == "C" by {
      assert ReplaceAll("", "B", "C") == "";
    }
  }

  /**
   * Restoring does not guarantee that a kept token is gone afterwards:
   * removing "ab" from "aabb" joins an "a" and a "b" into a new "ab".
   */
  lemma TokenMayRemainAfterRestore()
    ensures Restore("aabb", [Source("ab", "")]) == Restored("ab", [Source("ab", "")])
    ensures Contains("ab", "ab")
  {
    assert "aabb"[..2] == "aa" && "aa"[1] != "ab"[1];
    assert !StartsWith("aabb", "ab");
    assert StartsWith("abb", "ab");
    assert "aabb"[1..] == "abb";
    assert "abb"[2..] == "b";
    assert !StartsWith("b", "ab");
    assert ReplaceAll("b", "ab", "") == "b" by {
      assert "b"[1..] == "";
      assert ReplaceAll("", "ab", "") == "";
    }
    assert ReplaceAll("abb", "ab", "") == "b";
    assert ReplaceAll("aabb", "ab", "") == "ab";
    assert StartsWith("ab", "ab");
  }

  /**
   * A second source with the same token, right after the first, is dropped
   * when restoring the first removed every occurrence of that token.
   */
  lemma RepeatedTokenDropped(content: string, sources: seq<Source>, s: Source, t: Source)
    requires t.shortUrl == s.shortUrl
    requires Contains(Restore(content, sources).content, s.shortUrl)
    requires !Contains(ReplaceAll(Restore(content, sources).content, s.shortUrl, s.value), s.shortUrl)
    ensures Restore(content, sources + [s, t]).kept == Restore(content, sources).kept + [s]
  {
    RestoreSnoc(content, sources, s);
    RestoreSnoc(content, sources + [s], t);
    assert sources + [s] + [t] == sources + [s, t];
  }

  /**
   * The loop does not remove duplicates as such: when restoring the first
   * copy leaves an occurrence of the token, a second copy is kept as well.
   */
  lemma RepeatedTokenMayBeKeptTwice()
    ensures Restore("aabb", [Source("ab", ""), Source("ab", "")]).kept ==
      [Source("ab", ""), Source("ab", "")]
  {
    TokenMayRemainAfterRestore();
    assert [Source("ab", ""), Source("ab", "")][1..] == [Source("ab", "")];
    assert StartsWith("ab", "ab");
    assert ReplaceAll("ab", "ab", "") == "" by {
      assert "ab"[2..] == "";
      assert ReplaceAll("", "ab", "") == "";
    }
  }
}
