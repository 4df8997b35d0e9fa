/**
 * Rust's `str::replace(&self, from, to)` on a non-empty pattern: every
 * non-overlapping occurrence of `from`, found scanning left to right, is
 * replaced by `to`, and everything between occurrences is copied unchanged.
 *
 * `ReplaceAll` is the scan itself. `Split` and `Join` (Rust's `str::split`
 * and `join`) give an independent description of it: the text is cut at the
 * occurrences into pieces that contain no occurrence, and the result glues
 * the same pieces back together with `to` instead of `from`.
 */
module Replace {

  /** `p` occurs in `s` at index `i`. */
  predicate OccursAt(s: string, p: string, i: nat)
  {
    i + |p| <= |s| && s[i..i + |p|] == p
  }

  /** `p` occurs somewhere in `s`. */
  ghost predicate Contains(s: string, p: string)
  {
    exists i: nat :: OccursAt(s, p, i)
  }

  /** An occurrence in the tail `s[d..]` is an occurrence in `s`. */
  lemma OccursInSuffix(s: string, p: string, d: nat, i: nat)
    requires d <= |s|
    requires OccursAt(s[d..], p, i)
    ensures OccursAt(s, p, d + i)
  {
    assert s[d + i..d + i + |p|] == s[d..][i..i + |p|];
  }

  /** Left-to-right replacement of every non-overlapping occurrence of `p`. */
  function ReplaceAll(s: string, p: string, r: string): (res: string)
    requires p != []
    ensures !Contains(s, p) ==> res == s
    decreases |s|
  {
    if |s| < |p| then s
    else if s[..|p|] == p then
      assert OccursAt(s, p, 0);
      r + ReplaceAll(s[|p|..], p, r)
    else
      NoMatchInTail(s, p);
      [s[0]] + ReplaceAll(s[1..], p, r)
  }

  /** A text without the pattern has no occurrence in its tail either. */
  lemma NoMatchInTail(s: string, p: string)
    requires |s| >= 1
    ensures !Contains(s, p) ==> !Contains(s[1..], p)
    ensures !Contains(s, p) ==> s == [s[0]] + s[1..]
  {
    if Contains(s[1..], p) {
      var i: nat :| OccursAt(s[1..], p, i);
      OccursInSuffix(s, p, 1, i);
    }
  }

  /** The pattern on its own is replaced by the replacement on its own. */
  lemma ReplaceWhole(p: string, r: string)
    requires p != []
    ensures ReplaceAll(p, p, r) == r
  {
    assert p[..|p|] == p;
    assert ReplaceAll(p[|p|..], p, r) == [];
  }

  /** The pieces glued together with `sep` between neighbours. */
  function Join(pieces: seq<string>, sep: string): string
    decreases |pieces|
  {
    if |pieces| == 0 then []
    else if |pieces| == 1 then pieces[0]
    else pieces[0] + sep + Join(pieces[1..], sep)
  }

  /** `s` cut at the non-overlapping occurrences of `p`, found left to right. */
  function Split(s: string, p: string): (pieces: seq<string>)
    requires p != []
    ensures |pieces| >= 1
    ensures pieces[0] <= s
    decreases |s|
  {
    if |s| < |p| then [s]
    else if s[..|p|] == p then [[]] + Split(s[|p|..], p)
    else
      var rest := Split(s[1..], p);
      [[s[0]] + rest[0]] + rest[1..]
  }

  /** Putting one more character in front of the first piece. */
  lemma JoinExtendFirst(c: char, pieces: seq<string>, sep: string)
    requires |pieces| >= 1
    ensures Join([[c] + pieces[0]] + pieces[1..], sep) == [c] + Join(pieces, sep)
  {
    var q := [[c] + pieces[0]] + pieces[1..];
    assert q[1..] == pieces[1..];
  }

  /** Joining the pieces with the pattern gives back the text. */
  lemma {:induction false} SplitJoin(s: string, p: string)
    requires p != []
    ensures Join(Split(s, p), p) == s
    decreases |s|
  {
    if |s| < |p| {
      assert Split(s, p) == [s];
    } else if s[..|p|] == p {
      var rest := Split(s[|p|..], p);
      SplitJoin(s[|p|..], p);
      var pieces := [[]] + rest;
      assert Split(s, p) == pieces;
      assert |pieces| >= 2 && pieces[0] == [] && pieces[1..] == rest;
      assert Join(pieces, p) == [] + p + Join(rest, p);
      assert s == s[..|p|] + s[|p|..];
    } else {
      var rest := Split(s[1..], p);
      SplitJoin(s[1..], p);
      assert Split(s, p) == [[s[0]] + rest[0]] + rest[1..];
      JoinExtendFirst(s[0], rest, p);
      assert s == [s[0]] + s[1..];
    }
  }

  /** Replacing is joining the same pieces with the replacement. */
  lemma {:induction false} ReplaceAllIsJoin(s: string, p: string, r: string)
    requires p != []
    ensures ReplaceAll(s, p, r) == Join(Split(s, p), r)
    decreases |s|
  {
    if |s| < |p| {
    } else if s[..|p|] == p {
      ReplaceAllIsJoin(s[|p|..], p, r);
      var rest := Split(s[|p|..], p);
      assert ([[]] + rest)[1..] == rest;
    } else {
      ReplaceAllIsJoin(s[1..], p, r);
      JoinExtendFirst(s[0], Split(s[1..], p), r);
    }
  }

  /** An occurrence in `[c] + t` past its first character is one in `t`. */
  lemma OccursAfterFirst(c: char, t: string, p: string, i: nat)
    requires i >= 1
    requires OccursAt([c] + t, p, i)
    ensures OccursAt(t, p, i - 1)
  {
    assert ([c] + t)[i..i + |p|] == t[i - 1..i - 1 + |p|];
  }

  /** No piece contains the pattern. */
  lemma {:induction false} SplitPiecesAvoid(s: string, p: string)
    requires p != []
    ensures forall k :: 0 <= k < |Split(s, p)| ==> !Contains(Split(s, p)[k], p)
    decreases |s|
  {
    var pieces := Split(s, p);
    if |s| < |p| {
    } else if s[..|p|] == p {
      SplitPiecesAvoid(s[|p|..], p);
      var rest := Split(s[|p|..], p);
      assert pieces == [[]] + rest;
      forall k | 0 <= k < |pieces| ensures !Contains(pieces[k], p) {
        if k > 0 {
          assert pieces[k] == rest[k - 1];
        }
      }
    } else {
      SplitPiecesAvoid(s[1..], p);
      var rest := Split(s[1..], p);
      var first := [s[0]] + rest[0];
      assert pieces == [first] + rest[1..];
      assert first <= s;
      forall k | 0 <= k < |pieces| ensures !Contains(pieces[k], p) {
        if k == 0 {
          if Contains(first, p) {
            var i: nat :| OccursAt(first, p, i);
            if i > 0 {
              OccursAfterFirst(s[0], rest[0], p, i);
            }
          }
        } else {
          assert pieces[k] == rest[k];
        }
      }
    }
  }

  /**
   * No occurrence of the pattern starts inside a piece that the pattern
   * follows: each cut is made at the leftmost occurrence.
   */
  lemma {:induction false} SplitCutsLeftmost(s: string, p: string)
    requires p != []
    ensures forall k, i: nat :: 0 <= k < |Split(s, p)| - 1 && i < |Split(s, p)[k]| ==>
              !OccursAt(Split(s, p)[k] + p, p, i)
    decreases |s|
  {
    var pieces := Split(s, p);
    if |s| < |p| {
    } else if s[..|p|] == p {
      SplitCutsLeftmost(s[|p|..], p);
      var rest := Split(s[|p|..], p);
      assert pieces == [[]] + rest;
      forall k, i: nat | 0 <= k < |pieces| - 1 && i < |pieces[k]|
        ensures !OccursAt(pieces[k] + p, p, i)
      {
        assert k >= 1 && pieces[k] == rest[k - 1];
      }
    } else {
      SplitCutsLeftmost(s[1..], p);
      SplitFirstFollowed(s[1..], p);
      var rest := Split(s[1..], p);
      var first := [s[0]] + rest[0];
      assert pieces == [first] + rest[1..];
      forall k, i: nat | 0 <= k < |pieces| - 1 && i < |pieces[k]|
        ensures !OccursAt(pieces[k] + p, p, i)
      {
        if k == 0 {
          assert rest[0] + p <= s[1..];
          assert first + p == [s[0]] + (rest[0] + p);
          if i == 0 {
            assert (first + p)[..|p|] == s[..|p|];
          } else if OccursAt(first + p, p, i) {
            OccursAfterFirst(s[0], rest[0] + p, p, i);
          }
        } else {
          assert pieces[k] == rest[k];
        }
      }
    }
  }

  /** When more than one piece results, the first piece is followed by `p` in `s`. */
  lemma {:induction false} SplitFirstFollowed(s: string, p: string)
    requires p != []
    ensures |Split(s, p)| > 1 ==> Split(s, p)[0] + p <= s
    decreases |s|
  {
    if |s| < |p| {
    } else if s[..|p|] == p {
    } else {
      SplitFirstFollowed(s[1..], p);
    }
  }

  /** A text not starting with the pattern keeps its first character. */
  lemma ReplaceAllStep(m: string, p: string, g: string)
    requires p != [] && m != [] && !(p <= m)
    ensures ReplaceAll(m, p, g) == [m[0]] + ReplaceAll(m[1..], p, g)
  {
    if |m| < |p| {
      assert ReplaceAll(m[1..], p, g) == m[1..];
      assert m == [m[0]] + m[1..];
    }
  }

  /** A prefix in which no occurrence of the pattern starts is copied unchanged. */
  lemma {:induction false} ReplaceSkip(w: string, rest: string, p: string, g: string)
    requires p != []
    requires forall i :: 0 <= i < |w| ==> !OccursAt(w + rest, p, i)
    ensures ReplaceAll(w + rest, p, g) == w + ReplaceAll(rest, p, g)
    decreases |w|
  {
    if w == [] {
      assert w + rest == rest;
    } else {
      var s := w + rest;
      assert s[1..] == w[1..] + rest;
      assert !(p <= s) by {
        assert !OccursAt(s, p, 0);
      }
      var tail, done := w[1..] + rest, ReplaceAll(rest, p, g);
      ReplaceAllStep(s, p, g);
      NoOccurrenceInTail(w, rest, p);
      ReplaceSkip(w[1..], rest, p, g);
      calc {
        ReplaceAll(s, p, g);
        [s[0]] + ReplaceAll(s[1..], p, g);
        { assert s[1..] == tail; }
        [w[0]] + ReplaceAll(tail, p, g);
        [w[0]] + (w[1..] + done);
        ([w[0]] + w[1..]) + done;
        { assert [w[0]] + w[1..] == w; }
        w + done;
      }
    }
  }

  /** Occurrence-freedom of a prefix carries over to the prefix without its first character. */
  lemma NoOccurrenceInTail(w: string, rest: string, p: string)
    requires w != []
    requires forall i :: 0 <= i < |w| ==> !OccursAt(w + rest, p, i)
    ensures forall i :: 0 <= i < |w[1..]| ==> !OccursAt(w[1..] + rest, p, i)
  {
    var s := w + rest;
    assert s[1..] == w[1..] + rest;
    forall i | 0 <= i < |w[1..]| ensures !OccursAt(w[1..] + rest, p, i) {
      if OccursAt(s[1..], p, i) {
        OccursInSuffix(s, p, 1, i);
      }
    }
  }

}
