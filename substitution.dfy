/**
 * Placeholder substitution as `process_message` performs it
 * (src/lib.rs:180-186): a left fold over the icon table in insertion order,
 * each step replacing every occurrence of one key's placeholder `{key}` by
 * that key's glyph. A later step scans the text the earlier steps produced,
 * so in general the table's order can decide the outcome; for an inert
 * table it cannot, and the fold is one left-to-right scan.
 */
module Substitution {
  import opened Options
  import opened Replace
  import opened Icons

  /** The placeholder `{key}` written in a message for `key`. */
  function Placeholder(key: string): (p: string)
    ensures |p| == |key| + 2 && p[0] == '{' && p[|p| - 1] == '}'
  {
    "{" + key + "}"
  }

  /**
   * The fold: replace each entry's placeholder in turn, first entry first.
   * A message without an opening brace holds no placeholder and passes
   * through unchanged.
   */
  function Substitute(t: seq<Entry>, message: string): (r: string)
    ensures '{' !in message ==> r == message
    decreases |t|
  {
    if t == [] then message
    else
      assert '{' !in message ==> !Contains(message, Placeholder(t[0].0)) by {
        if '{' !in message {
          NoBraceNoPlaceholder(message, t[0].0);
        }
      }
      Substitute(t[1..], ReplaceAll(message, Placeholder(t[0].0), t[0].1))
  }

  /** Substituting with two tables in a row is substituting with their concatenation. */
  lemma {:induction false} SubstituteAppend(t1: seq<Entry>, t2: seq<Entry>, message: string)
    ensures Substitute(t1 + t2, message) == Substitute(t2, Substitute(t1, message))
    decreases |t1|
  {
    if t1 == [] {
      assert t1 + t2 == t2;
    } else {
      assert (t1 + t2)[0] == t1[0] && (t1 + t2)[1..] == t1[1..] + t2;
      SubstituteAppend(t1[1..], t2, ReplaceAll(message, Placeholder(t1[0].0), t1[0].1));
    }
  }

  /** A message holding no placeholder of any key of the table comes out unchanged. */
  lemma {:induction false} SubstituteNoPlaceholder(t: seq<Entry>, message: string)
    requires forall i :: 0 <= i < |t| ==> !Contains(message, Placeholder(t[i].0))
    ensures Substitute(t, message) == message
    decreases |t|
  {
    if t != [] {
      assert !Contains(message, Placeholder(t[0].0));
      forall i | 0 <= i < |t[1..]| ensures !Contains(message, Placeholder(t[1..][i].0)) {
        assert t[1..][i] == t[i + 1];
      }
      SubstituteNoPlaceholder(t[1..], message);
    }
  }

  /** Between brace-free keys, one key's placeholder occurs in another's only when the keys are equal. */
  lemma PlaceholderInPlaceholder(k: string, k': string)
    requires BraceFree(k) && BraceFree(k')
    ensures Contains(Placeholder(k), Placeholder(k')) <==> k == k'
  {
    var s, q := Placeholder(k), Placeholder(k');
    if k == k' {
      assert OccursAt(s, q, 0);
    } else if Contains(s, q) {
      var i: nat :| OccursAt(s, q, i);
      PlaceholderOccurrence(k, k', i);
    }
  }

  /** Where one brace-free key's placeholder occurs in another's, it is the whole of it. */
  lemma PlaceholderOccurrence(k: string, k': string, i: nat)
    requires BraceFree(k) && BraceFree(k')
    requires OccursAt(Placeholder(k), Placeholder(k'), i)
    ensures i == 0 && k == k'
  {
    var s, q := Placeholder(k), Placeholder(k');
    assert forall j :: 1 <= j <= |k| ==> s[j] == k[j - 1];
    assert s[i] == q[0];
    assert s[i + |q| - 1] == q[|q| - 1];
    assert |q| == |s|;
    assert k == s[1..|s| - 1] && k' == q[1..|q| - 1];
  }

  /** A text without an opening brace contains no placeholder. */
  lemma NoBraceNoPlaceholder(g: string, k: string)
    requires '{' !in g
    ensures !Contains(g, Placeholder(k))
  {
  }

  /**
   * In a well-formed table the placeholder of a key becomes the glyph of the
   * key's first entry, and the placeholder of a key the table lacks is left
   * exactly as written, braces included.
   */
  lemma {:induction false} SubstitutePlaceholder(t: seq<Entry>, k: string)
    requires WellFormed(t)
    requires BraceFree(k)
    ensures Lookup(t, k) == None ==> Substitute(t, Placeholder(k)) == Placeholder(k)
    ensures Lookup(t, k) != None ==> Substitute(t, Placeholder(k)) == Lookup(t, k).value
    decreases |t|
  {
    if t != [] {
      var rest := t[1..];
      assert WellFormed(rest) by {
        forall i | 0 <= i < |rest| ensures BraceFree(rest[i].0) && '{' !in rest[i].1 {
          assert rest[i] == t[i + 1];
        }
      }
      assert BraceFree(t[0].0) && '{' !in t[0].1;
      PlaceholderInPlaceholder(k, t[0].0);
      if t[0].0 == k {
        ReplaceWhole(Placeholder(k), t[0].1);
        forall i | 0 <= i < |rest| ensures !Contains(t[0].1, Placeholder(rest[i].0)) {
          NoBraceNoPlaceholder(t[0].1, rest[i].0);
        }
        SubstituteNoPlaceholder(rest, t[0].1);
      } else {
        SubstitutePlaceholder(rest, k);
      }
    }
  }

  /** Dropping `{a}` from `{{a}b}` leaves `{b}`. */
  lemma DropInnerPlaceholder()
    ensures ReplaceAll("{{a}b}", Placeholder("a"), "") == "{b}"
  {
    var a := Placeholder("a");
    assert a == "{a}";
    assert ReplaceAll("b}", a, "") == "b}";
    assert "{a}b}"[..3] == a && "{a}b}"[3..] == "b}";
    assert ReplaceAll("{a}b}", a, "") == "b}";
    assert "{{a}b}"[..3][1] != a[1] && "{{a}b}"[1..] == "{a}b}";
  }

  /** `{{a}b}` holds no `{b}`. */
  lemma NoOuterPlaceholder()
    ensures ReplaceAll("{{a}b}", Placeholder("b"), "X") == "{{a}b}"
  {
    var b := Placeholder("b");
    assert b == "{b}";
    assert ReplaceAll("b}", b, "X") == "b}";
    assert "}b}"[..3][0] != b[0] && "}b}"[1..] == "b}";
    assert ReplaceAll("}b}", b, "X") == "}b}";
    assert "a}b}"[..3][0] != b[0] && "a}b}"[1..] == "}b}";
    assert ReplaceAll("a}b}", b, "X") == "a}b}";
    assert "{a}b}"[..3][1] != b[1] && "{a}b}"[1..] == "a}b}";
    assert ReplaceAll("{a}b}", b, "X") == "{a}b}";
    assert "{{a}b}"[..3][1] != b[1] && "{{a}b}"[1..] == "{a}b}";
  }

  /**
   * In a table that is not inert the order of the entries can matter: with
   * an empty glyph for `a` listed before `b`, the text `{{a}b}` first loses
   * `{a}` and so becomes `{b}`, which the later entry then replaces.
   */
  lemma LaterEntrySeesEarlierOutput()
    ensures Substitute([("a", ""), ("b", "X")], "{{a}b}") == "X"
  {
    DropInnerPlaceholder();
    ReplaceWhole(Placeholder("b"), "X");
    var t := [("a", ""), ("b", "X")];
    assert t[0].0 == "a" && t[1..] == [("b", "X")] && t[1..][1..] == [];
    assert Substitute(t[1..], "{b}") == Substitute([], "X");
  }

  /** Listed the other way round, the same text keeps `{b}`. */
  lemma EarlierEntryMissesLaterOutput()
    ensures Substitute([("b", "X"), ("a", "")], "{{a}b}") == "{b}"
  {
    NoOuterPlaceholder();
    DropInnerPlaceholder();
    var t := [("b", "X"), ("a", "")];
    assert t[0].0 == "b" && t[1..] == [("a", "")] && t[1..][1..] == [];
    assert Substitute(t[1..], "{{a}b}") == Substitute([], "{b}");
  }

  /*
   * The same substitution as one left-to-right scan over the message, and
   * the proof that the fold agrees with it whenever no glyph can complete or
   * break a placeholder.
   */

  /** The first entry, in table order, whose placeholder starts `m`. */
  function MatchAt(t: seq<Entry>, m: string): (r: Option<Entry>)
    ensures r == None <==> forall i :: 0 <= i < |t| ==> !(Placeholder(t[i].0) <= m)
    ensures r != None ==> r.value in t && Placeholder(r.value.0) <= m
    ensures r != None ==>
              exists i :: 0 <= i < |t| && t[i] == r.value && forall j :: 0 <= j < i ==> !(Placeholder(t[j].0) <= m)
    decreases |t|
  {
    if t == [] then None
    else if Placeholder(t[0].0) <= m then Some(t[0])
    else
      var u := t[1..];
      assert forall i :: 1 <= i < |t| ==> t[i] == u[i - 1];
      var r := MatchAt(u, m);
      assert r != None ==>
               exists i :: 0 <= i < |t| && t[i] == r.value && forall j :: 0 <= j < i ==> !(Placeholder(t[j].0) <= m) by {
        if r != None {
          var i :| 0 <= i < |u| && u[i] == r.value && forall j :: 0 <= j < i ==> !(Placeholder(u[j].0) <= m);
          assert t[i + 1] == r.value;
          forall j | 0 <= j < i + 1 ensures !(Placeholder(t[j].0) <= m) {
            if j > 0 {
              assert t[j] == u[j - 1];
            }
          }
        }
      }
      r
  }

  /**
   * One scan: where a placeholder of a table key starts, write that entry's
   * glyph and resume after the placeholder; elsewhere copy one character.
   * Text already written is never looked at again.
   */
  function Scan(t: seq<Entry>, m: string): (r: string)
    ensures '{' !in m ==> r == m
    decreases |m|
  {
    if m == [] then []
    else
      match MatchAt(t, m)
      case Some(e) => e.1 + Scan(t, m[|Placeholder(e.0)|..])
      case None => [m[0]] + Scan(t, m[1..])
  }

  /**
   * A text free of `{` and of the glyph's first character starts the text
   * after replacement exactly when it starts the text before.
   */
  lemma {:induction false} PrefixPreserved(m: string, p: string, g: string, w: string)
    requires p != [] && p[0] == '{' && g != []
    requires '{' !in w && g[0] !in w
    ensures w <= m <==> w <= ReplaceAll(m, p, g)
    decreases |m|
  {
    if w == [] || |m| < |p| {
    } else if m[..|p|] == p {
      var r := ReplaceAll(m, p, g);
      assert m[0] == '{' && r[0] == g[0];
      assert w[0] != m[0] && w[0] != r[0];
    } else {
      PrefixPreserved(m[1..], p, g, w[1..]);
      var r := ReplaceAll(m, p, g);
      assert r == [m[0]] + ReplaceAll(m[1..], p, g);
      assert w <= m <==> w[0] == m[0] && w[1..] <= m[1..];
      assert w <= r <==> w[0] == r[0] && w[1..] <= r[1..];
    }
  }

  /** No placeholder starts a text whose first character is not `{`. */
  lemma NoMatchWithoutBrace(t: seq<Entry>, m: string)
    requires m != [] && m[0] != '{'
    ensures MatchAt(t, m) == None
  {
    forall i | 0 <= i < |t| ensures !(Placeholder(t[i].0) <= m) {
      assert Placeholder(t[i].0)[0] == '{';
    }
  }

  /** Scanning a text without `{` copies it. */
  lemma {:induction false} ScanPrefix(t: seq<Entry>, g: string, x: string)
    requires '{' !in g
    ensures Scan(t, g + x) == g + Scan(t, x)
    decreases |g|
  {
    if g == [] {
      assert g + x == x;
    } else {
      var m, tail := g + x, g[1..] + x;
      assert m[0] == g[0] && m[1..] == tail;
      NoMatchWithoutBrace(t, m);
      ScanPrefix(t, g[1..], x);
      calc {
        Scan(t, m);
        [g[0]] + Scan(t, tail);
        [g[0]] + (g[1..] + Scan(t, x));
        ([g[0]] + g[1..]) + Scan(t, x);
        { assert [g[0]] + g[1..] == g; }
        g + Scan(t, x);
      }
    }
  }

  /** Two tables agree on the first match when their placeholders start the same texts. */
  lemma {:induction false} MatchAtAgree(t: seq<Entry>, x: string, y: string)
    requires forall i :: 0 <= i < |t| ==> (Placeholder(t[i].0) <= x <==> Placeholder(t[i].0) <= y)
    ensures MatchAt(t, x) == MatchAt(t, y)
    decreases |t|
  {
    if t != [] {
      assert forall i :: 0 <= i < |t[1..]| ==> t[1..][i] == t[i + 1];
      MatchAtAgree(t[1..], x, y);
    }
  }

  /**
   * Replacing `p0` by a plain glyph after a first character that does not
   * start `p0` changes no answer to "does this plain key's placeholder
   * start here".
   */
  lemma MatchAfterReplace(u: seq<Entry>, m: string, p0: string, g0: string)
    requires PlainKeys(u) && PlainGlyph(g0)
    requires p0 != [] && p0[0] == '{' && m != [] && !(p0 <= m)
    ensures MatchAt(u, [m[0]] + ReplaceAll(m[1..], p0, g0)) == MatchAt(u, m)
  {
    var x := [m[0]] + ReplaceAll(m[1..], p0, g0);
    forall i | 0 <= i < |u| ensures Placeholder(u[i].0) <= x <==> Placeholder(u[i].0) <= m {
      assert PlainKey(u[i].0);
      StartAfterReplace(u[i].0, m, p0, g0);
    }
    MatchAtAgree(u, x, m);
  }

  /** The same, for one plain key. */
  lemma StartAfterReplace(k: string, m: string, p0: string, g0: string)
    requires PlainKey(k) && PlainGlyph(g0)
    requires p0 != [] && p0[0] == '{' && m != []
    ensures Placeholder(k) <= [m[0]] + ReplaceAll(m[1..], p0, g0) <==> Placeholder(k) <= m
  {
    var r1 := ReplaceAll(m[1..], p0, g0);
    var x := [m[0]] + r1;
    assert x[0] == m[0] && x[1..] == r1;
    var w := k + "}";
    assert Placeholder(k) == ['{'] + w;
    assert '{' !in w && g0[0] !in w;
    PrefixPreserved(m[1..], p0, g0, w);
    ConsPrefix('{', w, x);
    ConsPrefix('{', w, m);
  }

  /** A text starts with `[c] + w` when it starts with `c` and its tail with `w`. */
  lemma ConsPrefix(c: char, w: string, x: string)
    ensures [c] + w <= x <==> x != [] && x[0] == c && w <= x[1..]
  {
    if x != [] && x[0] == c && w <= x[1..] {
      assert x[..|w| + 1] == [c] + x[1..][..|w|];
    }
  }

  /** Where a plain key's placeholder starts the text, replacing `p0` leaves that placeholder in place. */
  lemma SkipMatched(k: string, m: string, p0: string, g0: string)
    requires PlainKey(k) && Placeholder(k) <= m
    requires p0 != [] && p0[0] == '{' && !(p0 <= m)
    ensures ReplaceAll(m, p0, g0) == Placeholder(k) + ReplaceAll(m[|Placeholder(k)|..], p0, g0)
  {
    var pk := Placeholder(k);
    var rest := m[|pk|..];
    assert m == pk + rest;
    forall i | 0 <= i < |pk| ensures !OccursAt(pk + rest, p0, i) {
      if i > 0 {
        assert pk[i] != '{';
      }
    }
    ReplaceSkip(pk, rest, p0, g0);
  }

  /**
   * One step of the fold in an inert table: replacing the first entry's
   * placeholder and then scanning with the rest is scanning with the whole
   * table.
   */
  lemma {:induction false} ScanStep(t: seq<Entry>, m: string)
    requires |t| >= 1 && Inert(t)
    ensures Scan(t[1..], ReplaceAll(m, Placeholder(t[0].0), t[0].1)) == Scan(t, m)
    decreases |m|
  {
    var k0, g0 := t[0].0, t[0].1;
    var p0, u := Placeholder(k0), t[1..];
    assert PlainKey(k0) && PlainGlyph(g0);
    assert PlainKeys(u) by {
      assert forall i :: 0 <= i < |u| ==> u[i] == t[i + 1];
    }
    if m == [] {
    } else if p0 <= m {
      assert m[..|p0|] == p0;
      var rest := m[|p0|..];
      var r := ReplaceAll(rest, p0, g0);
      assert ReplaceAll(m, p0, g0) == g0 + r;
      ScanPrefix(u, g0, r);
      ScanStep(t, rest);
    } else {
      ReplaceAllStep(m, p0, g0);
      var x := ReplaceAll(m, p0, g0);
      var r1 := ReplaceAll(m[1..], p0, g0);
      assert x == [m[0]] + r1 && x != [] && x[1..] == r1;
      MatchAfterReplace(u, m, p0, g0);
      assert MatchAt(t, m) == MatchAt(u, m);
      match MatchAt(u, m)
      case None =>
        assert Scan(u, x) == [m[0]] + Scan(u, r1);
        ScanStep(t, m[1..]);
      case Some(e) =>
        assert e in u;
        assert PlainKey(e.0);
        SkipMatched(e.0, m, p0, g0);
        var rest := m[|Placeholder(e.0)|..];
        assert x[|Placeholder(e.0)|..] == ReplaceAll(rest, p0, g0);
        ScanStep(t, rest);
    }
  }

  /** Scanning with an empty table copies the message. */
  lemma {:induction false} ScanNothing(m: string)
    ensures Scan([], m) == m
    decreases |m|
  {
    if m != [] {
      ScanNothing(m[1..]);
    }
  }

  /**
   * In an inert table the fold over the entries gives the same text as one
   * scan over the message: no step creates or destroys a placeholder for a
   * later one.
   */
  lemma {:induction false} SubstituteIsScan(t: seq<Entry>, m: string)
    requires Inert(t)
    ensures Substitute(t, m) == Scan(t, m)
    decreases |t|
  {
    if t == [] {
      ScanNothing(m);
    } else {
      var u := t[1..];
      assert forall i :: 0 <= i < |u| ==> u[i] == t[i + 1];
      SubstituteIsScan(u, ReplaceAll(m, Placeholder(t[0].0), t[0].1));
      ScanStep(t, m);
    }
  }

  /** Two placeholders of brace-free keys that start the same text are the same. */
  lemma PlaceholderPrefixUnique(k: string, k': string, m: string)
    requires BraceFree(k) && BraceFree(k')
    requires Placeholder(k) <= m && Placeholder(k') <= m
    ensures k == k'
  {
    var p, q := Placeholder(k), Placeholder(k');
    if |p| == |q| {
      assert p == m[..|p|] == q;
      assert k == p[1..|p| - 1] && k' == q[1..|q| - 1];
    }
  }

  /** In tables holding the same entries, with distinct plain keys, the first match is the same entry. */
  lemma MatchAtSameEntries(t1: seq<Entry>, t2: seq<Entry>, m: string)
    requires PlainKeys(t1) && PlainKeys(t2) && DistinctKeys(t1) && DistinctKeys(t2)
    requires forall e :: e in t1 <==> e in t2
    ensures MatchAt(t1, m) == MatchAt(t2, m)
  {
    var r1, r2 := MatchAt(t1, m), MatchAt(t2, m);
    if r1.Some? {
      MatchedIn(t1, t2, m, r1.value);
    }
    if r2.Some? {
      MatchedIn(t2, t1, m, r2.value);
    }
  }

  /** An entry of `a` whose placeholder starts `m` is what `b` matches first, when `b` holds it too. */
  lemma MatchedIn(a: seq<Entry>, b: seq<Entry>, m: string, e: Entry)
    requires PlainKeys(a) && PlainKeys(b) && DistinctKeys(b)
    requires e in a && e in b && Placeholder(e.0) <= m
    ensures MatchAt(b, m) == Some(e)
  {
    var i :| 0 <= i < |b| && b[i] == e;
    assert PlainKey(b[i].0);
    var r := MatchAt(b, m);
    var j :| 0 <= j < |b| && b[j] == r.value;
    assert PlainKey(b[j].0);
    PlaceholderPrefixUnique(e.0, r.value.0, m);
    assert b[i].0 == b[j].0;
  }

  /** The scan depends on which entries a table holds, not on their order. */
  lemma {:induction false} ScanOrderFree(t1: seq<Entry>, t2: seq<Entry>, m: string)
    requires PlainKeys(t1) && PlainKeys(t2) && DistinctKeys(t1) && DistinctKeys(t2)
    requires forall e :: e in t1 <==> e in t2
    ensures Scan(t1, m) == Scan(t2, m)
    decreases |m|
  {
    if m != [] {
      MatchAtSameEntries(t1, t2, m);
      match MatchAt(t1, m)
      case Some(e) => ScanOrderFree(t1, t2, m[|Placeholder(e.0)|..]);
      case None => ScanOrderFree(t1, t2, m[1..]);
    }
  }

  /**
   * For inert tables without repeated keys, the order of the entries does
   * not change the result of the fold.
   */
  lemma SubstituteOrderFree(t1: seq<Entry>, t2: seq<Entry>, m: string)
    requires Inert(t1) && Inert(t2) && DistinctKeys(t1) && DistinctKeys(t2)
    requires forall e :: e in t1 <==> e in t2
    ensures Substitute(t1, m) == Substitute(t2, m)
  {
    SubstituteIsScan(t1, m);
    SubstituteIsScan(t2, m);
    ScanOrderFree(t1, t2, m);
  }
}
