/** The "new template" form: its fields, the save guard and the live preview
    that fills the placeholders with sample values. */
module TemplateEditor {
  import opened Text
  import opened SaveRequests

  /** `pat` occurs in `s` starting at index `i`. */
  predicate OccursAt(s: string, pat: string, i: nat) {
    i + |pat| <= |s| && s[i..i + |pat|] == pat
  }

  ghost predicate Occurs(s: string, pat: string) {
    exists i: nat :: OccursAt(s, pat, i)
  }

  /** `s.replace(new RegExp(pat, 'g'), val)` for a pattern without regular
      expression operators and a value without `$` replacement patterns: a
      left-to-right scan replacing each
      non-overlapping occurrence. A string without an occurrence is returned
      unchanged. */
  function ReplaceAll(s: string, pat: string, val: string): string
    requires |pat| > 0
    decreases |s|
  {
    if |s| < |pat| then s
    else if s[..|pat|] == pat then val + ReplaceAll(s[|pat|..], pat, val)
    else [s[0]] + ReplaceAll(s[1..], pat, val)
  }

  /** A string without an occurrence of the pattern is returned unchanged. */
  lemma {:induction false} ReplaceAllWithoutOccurrence(s: string, pat: string, val: string)
    requires |pat| > 0 && !Occurs(s, pat)
    ensures ReplaceAll(s, pat, val) == s
    decreases |s|
  {
    if |s| >= |pat| {
      assert !OccursAt(s, pat, 0);
      forall i: nat ensures !OccursAt(s[1..], pat, i) {
        assert !OccursAt(s, pat, i + 1);
      }
      ReplaceAllWithoutOccurrence(s[1..], pat, val);
    }
  }

  /** An occurrence at the front is replaced and the scan resumes after it. */
  lemma ReplaceAllAtFront(s: string, pat: string, val: string)
    requires |pat| > 0
    ensures ReplaceAll(pat + s, pat, val) == val + ReplaceAll(s, pat, val)
  {
    assert (pat + s)[..|pat|] == pat;
    assert (pat + s)[|pat|..] == s;
  }

  /** The sample values of the preview, in the order they are applied. */
  const SampleData: seq<(string, string)> := [
    ("name", "John"),
    ("email", "john@example.com"),
    ("company", "Acme Corp"),
    ("title", "CEO"),
    ("industry", "technology"),
    ("sender_name", "Sarah")
  ]

  /** The placeholder written for `key`: `{{key}}`. */
  function Placeholder(key: string): (p: string)
    ensures |p| == |key| + 4 && p[..2] == "{{" && p[2..|key| + 2] == key && p[|key| + 2..] == "}}"
  {
    "{{" + key + "}}"
  }

  /** Replace each entry's placeholder by its value, entry by entry. */
  function Substitute(text: string, entries: seq<(string, string)>): string
    decreases entries
  {
    if entries == [] then text
    else Substitute(ReplaceAll(text, Placeholder(entries[0].0), entries[0].1), entries[1..])
  }

  /** `getPreviewContent` and `getPreviewSubject` apply this same function to
      the content and to the subject. */
  function PreviewText(text: string): string {
    Substitute(text, SampleData)
  }

  /** Text in which none of the entries' placeholders occurs is unchanged. */
  lemma {:induction false} SubstituteWithoutPlaceholders(text: string, entries: seq<(string, string)>)
    requires forall e :: e in entries ==> !Occurs(text, Placeholder(e.0))
    ensures Substitute(text, entries) == text
  {
    if entries != [] {
      ReplaceAllWithoutOccurrence(text, Placeholder(entries[0].0), entries[0].1);
      SubstituteWithoutPlaceholders(text, entries[1..]);
    }
  }

  /** A preview of text without any of the six placeholders is the text itself. */
  lemma PreviewWithoutPlaceholders(text: string)
    ensures (forall e :: e in SampleData ==> !Occurs(text, Placeholder(e.0))) ==> PreviewText(text) == text
  {
    if forall e :: e in SampleData ==> !Occurs(text, Placeholder(e.0)) {
      SubstituteWithoutPlaceholders(text, SampleData);
    }
  }

  predicate NoBraces(s: string) {
    forall k :: 0 <= k < |s| ==> s[k] != '{' && s[k] != '}'
  }

  /** The placeholder of one brace-free key does not occur in the
      placeholder of a different brace-free key. */
  lemma {:induction false} PlaceholderOnlyInItself(k: string, other: string)
    requires NoBraces(k) && NoBraces(other) && k != other
    ensures !Occurs(Placeholder(k), Placeholder(other))
  {
    var s := Placeholder(k);
    var p := Placeholder(other);
    forall i: nat | i + |p| <= |s| ensures !OccursAt(s, p, i) {
      var w := s[i..i + |p|];
      if i > 0 {
        // the second character of the window is a key character, not a brace
        assert w[1] == s[2..|k| + 2][i - 1] == k[i - 1];
        assert w[1] != p[1];
      } else if |other| < |k| {
        // the window ends inside the key, where `p` has its closing brace
        assert w[|other| + 2] == s[2..|k| + 2][|other|] == k[|other|];
        assert p[|other| + 2] == p[|other| + 2..][0];
        assert w[|other| + 2] != p[|other| + 2];
      } else {
        // the same length: the keys differ somewhere
        var j :| 0 <= j < |k| && k[j] != other[j];
        assert w[j + 2] == s[2..|k| + 2][j];
        assert p[j + 2] == p[2..|other| + 2][j];
        assert w[j + 2] != p[j + 2];
      }
    }
  }

  /** A placeholder the preview does not know, such as `{{first_name}}`,
      stays verbatim. */
  lemma UnknownPlaceholderKept(k: string)
    requires NoBraces(k) && forall e :: e in SampleData ==> e.0 != k
    ensures PreviewText(Placeholder(k)) == Placeholder(k)
  {
    SampleDataPlain();
    forall e | e in SampleData ensures !Occurs(Placeholder(k), Placeholder(e.0)) {
      var i :| 0 <= i < |SampleData| && SampleData[i] == e;
      PlaceholderOnlyInItself(k, e.0);
    }
    PreviewWithoutPlaceholders(Placeholder(k));
  }

  /** The only `{{` of a placeholder is at its front, so the placeholder of
      another brace-free key cannot start inside it. */
  lemma NoPlaceholderInside(s: string, a: string, b: string, i: nat, j: nat)
    requires NoBraces(a) && NoBraces(b) && a != b
    requires OccursAt(s, Placeholder(a), i) && i <= j < i + |a| + 4
    ensures !OccursAt(s, Placeholder(b), j)
  {
    var pa, pb := Placeholder(a), Placeholder(b);
    if j + |pb| <= |s| {
      var w := s[j..j + |pb|];
      assert forall m :: 0 <= m < |pa| ==> s[i + m] == pa[m] by {
        forall m | 0 <= m < |pa| ensures s[i + m] == pa[m] {
          assert s[i..i + |pa|][m] == s[i + m];
        }
      }
      if j == i {
        if |a| == |b| {
          var m :| 0 <= m < |a| && a[m] != b[m];
          assert w[m + 2] == pa[m + 2] == pa[2..|a| + 2][m];
          assert pb[m + 2] == pb[2..|b| + 2][m];
          assert w[m + 2] != pb[m + 2];
        } else if |a| < |b| {
          assert w[|a| + 2] == pa[|a| + 2] == pa[|a| + 2..][0];
          assert pb[|a| + 2] == pb[2..|b| + 2][|a|];
          assert w[|a| + 2] != pb[|a| + 2];
        } else {
          assert w[|b| + 2] == pa[|b| + 2] == pa[2..|a| + 2][|b|];
          assert pb[|b| + 2] == pb[|b| + 2..][0];
          assert w[|b| + 2] != pb[|b| + 2];
        }
      } else if j == i + 1 {
        if |a| == 0 {
          assert w[1] == pa[2] == pa[2..][0];
        } else {
          assert w[1] == pa[2] == pa[2..|a| + 2][0];
        }
        assert w[1] != pb[1];
      } else if j < i + |a| + 2 {
        assert w[0] == pa[j - i] == pa[2..|a| + 2][j - i - 2];
        assert w[0] != pb[0];
      } else {
        assert w[0] == pa[j - i] == pa[|a| + 2..][j - i - |a| - 2];
        assert w[0] != pb[0];
      }
    }
  }

  /** Two occurrences of placeholders of different brace-free keys never
      overlap. */
  lemma PlaceholdersApart(s: string, a: string, b: string, i: nat, j: nat)
    requires NoBraces(a) && NoBraces(b) && a != b
    requires OccursAt(s, Placeholder(a), i) && OccursAt(s, Placeholder(b), j)
    ensures i + |a| + 4 <= j || j + |b| + 4 <= i
  {
    if i <= j && j < i + |a| + 4 {
      NoPlaceholderInside(s, a, b, i, j);
      assert false;
    } else if j < i && i < j + |b| + 4 {
      NoPlaceholderInside(s, b, a, j, i);
      assert false;
    }
  }

  /** A prefix of `s` at none of whose positions the pattern starts is copied
      to the front of the result. */
  lemma {:induction false} ReplaceAllKeepsPlainPrefix(s: string, x: string, pat: string, val: string)
    requires |pat| > 0 && |x| <= |s| && s[..|x|] == x
    requires forall p: nat :: p < |x| ==> !OccursAt(s, pat, p)
    ensures |x| <= |ReplaceAll(s, pat, val)| && ReplaceAll(s, pat, val)[..|x|] == x
    decreases |s|
  {
    if x != [] && |s| >= |pat| {
      assert !OccursAt(s, pat, 0);
      var t := s[1..];
      forall p: nat | p < |x| - 1 ensures !OccursAt(t, pat, p) {
        assert !OccursAt(s, pat, p + 1);
      }
      ReplaceAllKeepsPlainPrefix(t, x[1..], pat, val);
      assert ReplaceAll(s, pat, val) == [s[0]] + ReplaceAll(t, pat, val);
      assert x == [s[0]] + x[1..];
    }
  }

  /** An occurrence stays an occurrence when text is put in front. */
  lemma OccursAtAfterPrefix(a: string, t: string, q: string, n: nat)
    requires OccursAt(t, q, n)
    ensures OccursAt(a + t, q, |a| + n)
  {
    assert (a + t)[|a| + n..|a| + n + |q|] == t[n..n + |q|];
  }

  /** An occurrence at or after `m` is an occurrence in `s[m..]`. */
  lemma OccursAtInSuffix(s: string, q: string, i: nat, m: nat)
    requires OccursAt(s, q, i) && m <= i
    ensures OccursAt(s[m..], q, i - m)
  {
    assert s[m..][i - m..i - m + |q|] == s[i..i + |q|];
  }

  /** An occurrence of the placeholder of a brace-free key survives the
      replacement of another brace-free key's placeholder, whatever its
      value. */
  lemma {:induction false} ReplaceAllKeepsOtherPlaceholder(s: string, key: string, val: string, k: string, i: nat)
    requires NoBraces(key) && NoBraces(k) && key != k
    requires OccursAt(s, Placeholder(k), i)
    ensures Occurs(ReplaceAll(s, Placeholder(key), val), Placeholder(k))
    decreases |s|
  {
    var p, q := Placeholder(key), Placeholder(k);
    if |s| < |p| {
      assert OccursAt(ReplaceAll(s, p, val), q, i);
    } else if s[..|p|] == p {
      PlaceholdersApart(s, key, k, 0, i);
      var t := s[|p|..];
      OccursAtInSuffix(s, q, i, |p|);
      ReplaceAllKeepsOtherPlaceholder(t, key, val, k, i - |p|);
      var n: nat :| OccursAt(ReplaceAll(t, p, val), q, n);
      OccursAtAfterPrefix(val, ReplaceAll(t, p, val), q, n);
    } else if i > 0 {
      var t := s[1..];
      OccursAtInSuffix(s, q, i, 1);
      ReplaceAllKeepsOtherPlaceholder(t, key, val, k, i - 1);
      var n: nat :| OccursAt(ReplaceAll(t, p, val), q, n);
      OccursAtAfterPrefix([s[0]], ReplaceAll(t, p, val), q, n);
    } else {
      forall m: nat | m < |q| ensures !OccursAt(s, p, m) {
        NoPlaceholderInside(s, k, key, 0, m);
      }
      ReplaceAllKeepsPlainPrefix(s, q, p, val);
      assert OccursAt(ReplaceAll(s, p, val), q, 0);
    }
  }

  /** Dropping a prefix creates no occurrence. */
  lemma NoOccurrenceInSuffix(s: string, pat: string, n: nat)
    requires n <= |s| && !Occurs(s, pat)
    ensures !Occurs(s[n..], pat)
  {
    forall i: nat ensures !OccursAt(s[n..], pat, i) {
      assert !OccursAt(s, pat, i + n);
      if i + |pat| <= |s[n..]| {
        assert s[n..][i..i + |pat|] == s[i + n..i + n + |pat|];
      }
    }
  }

  /** The characters of `{{k}}`, position by position. */
  lemma PlaceholderChars(k: string)
    ensures var w := Placeholder(k);
      w[0] == '{' && w[1] == '{' && w[|k| + 2] == '}' && w[|k| + 3] == '}' &&
      forall m :: 0 <= m < |k| ==> w[m + 2] == k[m]
  {
  }

  /** A brace-free value that occurs nowhere in `k` does not start a tail of
      `{{k}}`, and no tail of `{{k}}` starts the value. */
  lemma ValueStartsNoPlaceholderTail(k: string, val: string, j: nat)
    requires NoBraces(val) && !Occurs(k, val) && j < |k| + 4
    ensures var q := Placeholder(k)[j..];
      (|q| <= |val| ==> val[..|q|] != q) && (|val| < |q| ==> q[..|val|] != val)
  {
    var w := Placeholder(k);
    PlaceholderChars(k);
    var q := w[j..];
    assert OccursAt(k, [], 0);
    if |q| <= |val| {
      assert q[|q| - 1] == w[|k| + 3];
      assert val[..|q|][|q| - 1] != q[|q| - 1];
    } else {
      TailDoesNotStartWithValue(k, val, j);
    }
  }

  lemma TailDoesNotStartWithValue(k: string, val: string, j: nat)
    requires NoBraces(val) && !Occurs(k, val) && 0 < |val| < |k| + 4 - j
    ensures Placeholder(k)[j..][..|val|] != val
  {
    var w := Placeholder(k);
    PlaceholderChars(k);
    var v := w[j..][..|val|];
    if j <= 1 {
      assert v[0] == w[j];
    } else if j + |val| > |k| + 2 {
      assert v[|k| + 2 - j] == w[|k| + 2];
    } else {
      InsideKey(k, j, |val|);
      assert !OccursAt(k, val, j - 2);
    }
  }

  /** A window of `{{k}}` that lies between the braces is a window of `k`. */
  lemma InsideKey(k: string, j: nat, n: nat)
    requires 2 <= j && j + n <= |k| + 2
    ensures Placeholder(k)[j..][..n] == k[j - 2..j - 2 + n]
  {
    var w := Placeholder(k);
    assert w[2..|k| + 2] == k;
    assert w[j..][..n] == w[2..|k| + 2][j - 2..j - 2 + n];
  }

  /** When the value is brace-free and occurs nowhere in `k`, a result that
      starts with a tail of `{{k}}` comes from a text that starts with the
      same tail. */
  lemma {:induction false} ReplaceAllTailOrigin(t: string, pat: string, val: string, k: string, j: nat)
    requires |pat| > 0 && NoBraces(val) && !Occurs(k, val) && j < |k| + 4
    ensures var q, r := Placeholder(k)[j..], ReplaceAll(t, pat, val);
      |q| <= |r| && r[..|q|] == q ==> |q| <= |t| && t[..|q|] == q
    decreases |t|
  {
    var q := Placeholder(k)[j..];
    if |t| < |pat| {
    } else if t[..|pat|] == pat {
      ValueStartsNoPlaceholderTail(k, val, j);
      ValueInFrontStartsNoTail(val, ReplaceAll(t[|pat|..], pat, val), q);
    } else {
      var rt := ReplaceAll(t[1..], pat, val);
      if j + 1 < |k| + 4 {
        ReplaceAllTailOrigin(t[1..], pat, val, k, j + 1);
        assert Placeholder(k)[j + 1..] == q[1..];
      }
      CopiedCharKeepsTailOrigin(t[0], rt, t[1..], q);
      assert t == [t[0]] + t[1..];
    }
  }

  /** `q` does not start `val + rest` when it does not start `val` and `val`
      does not start `q`. */
  lemma ValueInFrontStartsNoTail(val: string, rest: string, q: string)
    requires |q| <= |val| ==> val[..|q|] != q
    requires |val| < |q| ==> q[..|val|] != val
    ensures !(|q| <= |val + rest| && (val + rest)[..|q|] == q)
  {
    var r := val + rest;
    if |q| <= |r| {
      if |q| <= |val| {
        assert r[..|q|] == val[..|q|];
      } else {
        assert r[..|q|][..|val|] == val;
      }
    }
  }

  /** A character copied in front keeps "a result starting with the tail
      comes from a text starting with it" one position further. */
  lemma CopiedCharKeepsTailOrigin(c: char, rt: string, t: string, q: string)
    requires |q| > 0
    requires |q| - 1 <= |rt| && rt[..|q| - 1] == q[1..] ==> |q| - 1 <= |t| && t[..|q| - 1] == q[1..]
    ensures |q| <= |[c] + rt| && ([c] + rt)[..|q|] == q ==> |q| <= |[c] + t| && ([c] + t)[..|q|] == q
  {
    if |q| <= |[c] + rt| && ([c] + rt)[..|q|] == q {
      assert ([c] + rt)[..|q|] == [c] + rt[..|q| - 1];
      assert q == [q[0]] + q[1..];
      assert ([c] + t)[..|q|] == [c] + t[..|q| - 1];
    }
  }

  /** A brace-free value in front adds no occurrence of a pattern that starts
      with a brace. */
  lemma ValueInFrontAddsNoPlaceholder(val: string, rt: string, q: string)
    requires NoBraces(val) && |q| > 0 && q[0] == '{' && !Occurs(rt, q)
    ensures !Occurs(val + rt, q)
  {
    var r := val + rt;
    forall i: nat | i + |q| <= |r| ensures !OccursAt(r, q, i) {
      if i < |val| {
        assert r[i..i + |q|][0] == val[i];
      } else {
        assert !OccursAt(rt, q, i - |val|);
        assert r[i..i + |q|] == rt[i - |val|..i - |val| + |q|];
      }
    }
  }

  /** A character copied in front of the rest of the scan adds no `{{k}}`
      unless the text itself had one at its front. */
  lemma CopiedCharAddsNoPlaceholder(s: string, pat: string, val: string, k: string)
    requires |pat| > 0 && NoBraces(val) && !Occurs(k, val) && |s| > 0
    requires !OccursAt(s, Placeholder(k), 0) && !Occurs(ReplaceAll(s[1..], pat, val), Placeholder(k))
    ensures !Occurs([s[0]] + ReplaceAll(s[1..], pat, val), Placeholder(k))
  {
    CopiedCharNoPlaceholderAtFront(s, pat, val, k);
    NoOccurrenceBehindFront(s[0], ReplaceAll(s[1..], pat, val), Placeholder(k));
  }

  /** With none at the front, `[c] + rt` has an occurrence only where `rt` has
      one. */
  lemma NoOccurrenceBehindFront(c: char, rt: string, q: string)
    requires !Occurs(rt, q) && !OccursAt([c] + rt, q, 0)
    ensures !Occurs([c] + rt, q)
  {
    var r := [c] + rt;
    forall i: nat | 0 < i && i + |q| <= |r| ensures !OccursAt(r, q, i) {
      assert !OccursAt(rt, q, i - 1);
      assert r[i..i + |q|] == rt[i - 1..i - 1 + |q|];
    }
  }

  /** The front of that result: `{{k}}` there would have to come from a
      `{{k}}` at the front of the text. */
  lemma CopiedCharNoPlaceholderAtFront(s: string, pat: string, val: string, k: string)
    requires |pat| > 0 && NoBraces(val) && !Occurs(k, val) && |s| > 0
    requires !OccursAt(s, Placeholder(k), 0)
    ensures !OccursAt([s[0]] + ReplaceAll(s[1..], pat, val), Placeholder(k), 0)
  {
    var q, t := Placeholder(k), s[1..];
    var rt := ReplaceAll(t, pat, val);
    var r, tail := [s[0]] + rt, q[1..];
    if |q| <= |r| {
      if s[0] != q[0] {
        assert r[..|q|][0] != q[0];
      } else {
        if |tail| <= |t| {
          assert s[..|q|] == [s[0]] + t[..|tail|];
          assert q == [q[0]] + tail;
          assert t[..|tail|] != tail;
        }
        ReplaceAllTailOrigin(t, pat, val, k, 1);
        assert rt[..|tail|] != tail;
        assert r[..|q|] == [s[0]] + rt[..|tail|];
        assert r[..|q|][1..] == rt[..|tail|];
      }
    }
  }

  /** Replacing by a brace-free value that occurs nowhere in `k` leaves no
      `{{k}}`: none is left when `{{k}}` is the pattern replaced, and none is
      created when there was none. */
  lemma {:induction false} ReplaceAllLeavesNoPlaceholder(s: string, pat: string, val: string, k: string)
    requires |pat| > 0 && NoBraces(val) && !Occurs(k, val)
    requires pat == Placeholder(k) || !Occurs(s, Placeholder(k))
    ensures !Occurs(ReplaceAll(s, pat, val), Placeholder(k))
    decreases |s|
  {
    var q := Placeholder(k);
    if |s| < |pat| {
      if pat == q {
        forall i: nat ensures !OccursAt(s, q, i) {}
      }
    } else if s[..|pat|] == pat {
      var t := s[|pat|..];
      if pat != q {
        NoOccurrenceInSuffix(s, q, |pat|);
      }
      ReplaceAllLeavesNoPlaceholder(t, pat, val, k);
      assert q[0] == q[..2][0];
      ValueInFrontAddsNoPlaceholder(val, ReplaceAll(t, pat, val), q);
    } else {
      if pat != q {
        NoOccurrenceInSuffix(s, q, 1);
      }
      ReplaceAllLeavesNoPlaceholder(s[1..], pat, val, k);
      assert !OccursAt(s, q, 0);
      CopiedCharAddsNoPlaceholder(s, pat, val, k);
    }
  }

  /** Once absent, a placeholder stays absent through replacements by
      brace-free values that occur nowhere in its key. */
  lemma {:induction false} SubstituteKeepsPlaceholderAbsent(text: string, entries: seq<(string, string)>, k: string)
    requires !Occurs(text, Placeholder(k))
    requires forall j :: 0 <= j < |entries| ==> NoBraces(entries[j].1) && !Occurs(k, entries[j].1)
    ensures !Occurs(Substitute(text, entries), Placeholder(k))
    decreases entries
  {
    if entries != [] {
      var next := ReplaceAll(text, Placeholder(entries[0].0), entries[0].1);
      ReplaceAllLeavesNoPlaceholder(text, Placeholder(entries[0].0), entries[0].1, k);
      SubstituteKeepsPlaceholderAbsent(next, entries[1..], k);
    }
  }

  /** When every value is brace-free and occurs in neither its own key nor an
      earlier one, every entry's placeholder is gone after the substitution. */
  lemma {:induction false} SubstituteClearsPlaceholders(text: string, entries: seq<(string, string)>)
    requires forall i, j :: 0 <= i <= j < |entries| ==> NoBraces(entries[j].1) && !Occurs(entries[i].0, entries[j].1)
    ensures forall i :: 0 <= i < |entries| ==> !Occurs(Substitute(text, entries), Placeholder(entries[i].0))
    decreases entries
  {
    if entries != [] {
      var key, val := entries[0].0, entries[0].1;
      var next := ReplaceAll(text, Placeholder(key), val);
      ReplaceAllLeavesNoPlaceholder(text, Placeholder(key), val, key);
      SubstituteKeepsPlaceholderAbsent(next, entries[1..], key);
      SubstituteClearsPlaceholders(next, entries[1..]);
    }
  }

  /** A value holding a character its key lacks does not occur in the key. */
  lemma ForeignCharBlocks(key: string, val: string, c: char)
    requires c in val && c !in key
    ensures !Occurs(key, val)
  {
    forall i: nat | i + |val| <= |key| ensures !OccursAt(key, val, i) {
      var m :| 0 <= m < |val| && val[m] == c;
      assert key[i..i + |val|][m] == key[i + m] != c;
    }
  }

  /** No key or value of the sample data has a brace, and every value holds a
      character no key has ('J', '@', 'A', 'C', 'h', 'S'), so no value occurs
      in any key. */
  lemma SampleDataPlain()
    ensures forall i :: 0 <= i < |SampleData| ==> NoBraces(SampleData[i].0) && NoBraces(SampleData[i].1)
    ensures forall i, j :: 0 <= i < |SampleData| && 0 <= j < |SampleData| ==> !Occurs(SampleData[i].0, SampleData[j].1)
  {
    forall i, j | 0 <= i < |SampleData| && 0 <= j < |SampleData| ensures !Occurs(SampleData[i].0, SampleData[j].1) {
      SampleValueNotInKey(SampleData[i].0, j);
    }
  }

  /** The value of entry `j` holds a character that a key made of the
      characters of the six keys cannot hold. */
  lemma SampleValueNotInKey(key: string, j: nat)
    requires key in ["name", "email", "company", "title", "industry", "sender_name"] && j < |SampleData|
    ensures !Occurs(key, SampleData[j].1)
  {
    var marks, at := "J@AChS", [0, 4, 0, 0, 3, 0];
    var val := SampleData[j].1;
    assert val[at[j]] == marks[j];
    ForeignCharBlocks(key, val, marks[j]);
  }

  /** Whatever the text, no `{{key}}` of the six sample keys is left in its
      preview. */
  lemma PreviewLeavesNoSamplePlaceholder(text: string)
    ensures forall e :: e in SampleData ==> !Occurs(PreviewText(text), Placeholder(e.0))
  {
    SampleDataPlain();
    SubstituteClearsPlaceholders(text, SampleData);
  }

  /** An occurrence of a placeholder whose key no entry has survives the
      substitution. */
  lemma {:induction false} SubstituteKeepsOtherPlaceholder(text: string, entries: seq<(string, string)>, k: string)
    requires NoBraces(k) && Occurs(text, Placeholder(k))
    requires forall j :: 0 <= j < |entries| ==> NoBraces(entries[j].0) && entries[j].0 != k
    ensures Occurs(Substitute(text, entries), Placeholder(k))
    decreases entries
  {
    if entries != [] {
      var i: nat :| OccursAt(text, Placeholder(k), i);
      ReplaceAllKeepsOtherPlaceholder(text, entries[0].0, entries[0].1, k, i);
      SubstituteKeepsOtherPlaceholder(ReplaceAll(text, Placeholder(entries[0].0), entries[0].1), entries[1..], k);
    }
  }

  /** A placeholder the preview does not know, such as `{{first_name}}`,
      is still present in the preview of any text that has it. */
  lemma PreviewKeepsUnknownPlaceholder(text: string, k: string)
    requires NoBraces(k) && forall e :: e in SampleData ==> e.0 != k
    ensures Occurs(text, Placeholder(k)) ==> Occurs(PreviewText(text), Placeholder(k))
  {
    if Occurs(text, Placeholder(k)) {
      SampleDataPlain();
      SubstituteKeepsOtherPlaceholder(text, SampleData, k);
    }
  }

  /** Text before the first occurrence of the pattern is copied unchanged; the
      occurrence becomes the value. */
  lemma {:induction false} ReplaceAllAfterPlainPrefix(a: string, pat: string, b: string, val: string)
    requires |pat| > 0 && forall i: nat :: i < |a| ==> !OccursAt(a + pat + b, pat, i)
    ensures ReplaceAll(a + pat + b, pat, val) == a + val + ReplaceAll(b, pat, val)
  {
    if a == [] {
      assert a + pat + b == pat + b;
      ReplaceAllAtFront(b, pat, val);
    } else {
      var s, rest := a + pat + b, a[1..];
      var s' := rest + pat + b;
      assert !OccursAt(s, pat, 0);
      assert s[1..] == s';
      assert ReplaceAll(s, pat, val) == [s[0]] + ReplaceAll(s', pat, val);
      NoEarlyOccurrenceInTail(s, pat, |rest|);
      ReplaceAllAfterPlainPrefix(rest, pat, b, val);
      assert a == [a[0]] + rest;
    }
  }

  /** Dropping the first character moves the positions without an
      occurrence one place to the left. */
  lemma NoEarlyOccurrenceInTail(s: string, pat: string, n: nat)
    requires 0 < |s| && forall i: nat :: i <= n ==> !OccursAt(s, pat, i)
    ensures forall i: nat :: i < n ==> !OccursAt(s[1..], pat, i)
  {
    forall i: nat | i < n ensures !OccursAt(s[1..], pat, i) {
      assert !OccursAt(s, pat, i + 1);
      if i + |pat| < |s| {
        assert s[1..][i..i + |pat|] == s[i + 1..i + 1 + |pat|];
      }
    }
  }

  lemma GreetingNameReplaced()
    ensures ReplaceAll("Hi {{name}},", "{{name}}", "John") == "Hi John,"
  {
    var s := "Hi {{name}},";
    assert s == "Hi " + "{{name}}" + ",";
    forall i: nat | i < 3 ensures !OccursAt(s, "{{name}}", i) {
      assert s[i..i + 8][0] == s[i] != '{';
    }
    ReplaceAllAfterPlainPrefix("Hi ", "{{name}}", ",", "John");
  }

  lemma GreetingKeepsOtherKeys()
    ensures Substitute("Hi John,", SampleData[1..]) == "Hi John,"
  {
    forall e | e in SampleData[1..] ensures !Occurs("Hi John,", Placeholder(e.0)) {
      assert |Placeholder(e.0)| > 8;
    }
    SubstituteWithoutPlaceholders("Hi John,", SampleData[1..]);
  }

  /** The preview of "Hi {{name}}," is "Hi John,". */
  lemma PreviewGreeting()
    ensures PreviewText("Hi {{name}},") == "Hi John,"
  {
    assert Placeholder(SampleData[0].0) == "{{name}}";
    GreetingNameReplaced();
    GreetingKeepsOtherKeys();
  }

  /** The guard of `handleSave`: name, then subject, then content must not be
      blank after trimming; the first blank one stops the save. */
  function SaveDecision(data: map<string, string>): (r: SaveRequest)
    requires "name" in data && "subject" in data && "content" in data
    ensures r.Create? <==> Trim(data["name"]) != "" && Trim(data["subject"]) != "" && Trim(data["content"]) != ""
    ensures r.Create? ==> r.data == data
    ensures Trim(data["name"]) == "" ==> r == Rejected("Template name is required")
    ensures Trim(data["name"]) != "" && Trim(data["subject"]) == "" ==> r == Rejected("Subject line is required")
    ensures Trim(data["name"]) != "" && Trim(data["subject"]) != "" && Trim(data["content"]) == "" ==>
      r == Rejected("Email content is required")
  {
    if Trim(data["name"]) == "" then Rejected("Template name is required")
    else if Trim(data["subject"]) == "" then Rejected("Subject line is required")
    else if Trim(data["content"]) == "" then Rejected("Email content is required")
    else Create(data)
  }

  /** The default body the form starts with. */
  const DefaultContent: string :=
    "Hi {{name}},\n\nI hope this email finds you well. I came across {{company}} and was impressed by your work in {{industry}}.\n\nI believe we could potentially collaborate on some exciting opportunities. Would you be interested in a brief 15-minute call to discuss how we might work together?\n\nLooking forward to hearing from you.\n\nBest regards,\n{{sender_name}}"

  class Form {
    var templateData: map<string, string>

    /** The fields the guard and the preview read are always present. */
    ghost predicate Valid()
      reads this
    {
      "name" in templateData && "subject" in templateData && "content" in templateData
    }

    constructor ()
      ensures Valid()
      ensures templateData == map["name" := "", "description" := "", "subject" := "", "content" := DefaultContent]
    {
      templateData := map["name" := "", "description" := "", "subject" := "", "content" := DefaultContent];
    }

    /** `handleInputChange`: only `templateData[field]` changes. */
    method InputChange(field: string, value: string)
      requires Valid()
      modifies this
      ensures Valid()
      ensures templateData == old(templateData)[field := value]
    {
      templateData := templateData[field := value];
    }

    /** `handleSave` up to the `create` call. */
    method Save() returns (request: SaveRequest)
      requires Valid()
      ensures request == SaveDecision(templateData)
    {
      if Trim(templateData["name"]) == "" {
        return Rejected("Template name is required");
      }
      if Trim(templateData["subject"]) == "" {
        return Rejected("Subject line is required");
      }
      if Trim(templateData["content"]) == "" {
        return Rejected("Email content is required");
      }
      request := Create(templateData);
    }

    /** `getPreviewContent`. */
    function PreviewContent(): (r: string)
      requires Valid()
      reads this
      ensures forall e :: e in SampleData ==> !Occurs(r, Placeholder(e.0))
      ensures (forall e :: e in SampleData ==> !Occurs(templateData["content"], Placeholder(e.0))) ==>
        r == templateData["content"]
    {
      PreviewLeavesNoSamplePlaceholder(templateData["content"]);
      PreviewWithoutPlaceholders(templateData["content"]);
      PreviewText(templateData["content"])
    }

    /** `getPreviewSubject`: the same substitution, on the subject. */
    function PreviewSubject(): (r: string)
      requires Valid()
      reads this
      ensures forall e :: e in SampleData ==> !Occurs(r, Placeholder(e.0))
      ensures (forall e :: e in SampleData ==> !Occurs(templateData["subject"], Placeholder(e.0))) ==>
        r == templateData["subject"]
    {
      PreviewLeavesNoSamplePlaceholder(templateData["subject"]);
      PreviewWithoutPlaceholders(templateData["subject"]);
      PreviewText(templateData["subject"])
    }
  }
}
