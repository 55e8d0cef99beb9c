/** The parts of Go's `strings` and `unicode` packages that xtemplate relies on,
    over sequences of characters, with the laws the other modules use. */
module Text {

  /** unicode.IsSpace */
  predicate IsSpace(c: char) {
    '\t' <= c <= '\r' || c == ' ' || c == '\U{85}' || c == '\U{A0}' || c == '\U{1680}' ||
    '\U{2000}' <= c <= '\U{200A}' || c == '\U{2028}' || c == '\U{2029}' || c == '\U{202F}' ||
    c == '\U{205F}' || c == '\U{3000}'
  }

  predicate AllSpace(s: string) {
    forall i :: 0 <= i < |s| ==> IsSpace(s[i])
  }

  predicate Trimmed(s: string) {
    s != "" ==> !IsSpace(s[0]) && !IsSpace(s[|s| - 1])
  }

  function TrimLeft(s: string): string {
    if s != "" && IsSpace(s[0]) then TrimLeft(s[1..]) else s
  }

  function TrimRight(s: string): string {
    if s != "" && IsSpace(s[|s| - 1]) then TrimRight(s[..|s| - 1]) else s
  }

  /** strings.TrimSpace */
  function TrimSpace(s: string): string {
    TrimRight(TrimLeft(s))
  }

  lemma {:induction false} TrimLeftSkips(w: string, s: string)
    requires AllSpace(w)
    ensures TrimLeft(w + s) == TrimLeft(s)
  {
    if w == "" {
      assert w + s == s;
    } else {
      assert (w + s)[1..] == w[1..] + s;
      TrimLeftSkips(w[1..], s);
    }
  }

  lemma {:induction false} TrimRightSkips(s: string, w: string)
    requires AllSpace(w)
    ensures TrimRight(s + w) == TrimRight(s)
  {
    if w == "" {
      assert s + w == s;
    } else {
      assert (s + w)[..|s + w| - 1] == s + w[..|w| - 1];
      TrimRightSkips(s, w[..|w| - 1]);
    }
  }

  /** Stripping white space off both ends leaves a trimmed core, and that core is the only one. */
  lemma TrimSpaceUnique(l: string, t: string, r: string)
    requires AllSpace(l) && AllSpace(r) && Trimmed(t)
    ensures TrimSpace(l + t + r) == t
  {
    assert l + t + r == l + (t + r);
    TrimLeftSkips(l, t + r);
    if t == "" {
      TrimLeftSkips(r, "");
      assert r + "" == r && t + r == r;
    } else {
      TrimRightSkips(t, r);
    }
  }

  lemma {:induction false} TrimLeftSplits(s: string) returns (l: string)
    ensures AllSpace(l) && s == l + TrimLeft(s)
    ensures TrimLeft(s) != "" ==> !IsSpace(TrimLeft(s)[0])
  {
    if s != "" && IsSpace(s[0]) {
      l := TrimLeftSplits(s[1..]);
      l := [s[0]] + l;
    } else {
      l := "";
    }
  }

  lemma {:induction false} TrimRightSplits(s: string) returns (r: string)
    ensures AllSpace(r) && s == TrimRight(s) + r
    ensures TrimRight(s) != "" ==> !IsSpace(TrimRight(s)[|TrimRight(s)| - 1])
  {
    if s != "" && IsSpace(s[|s| - 1]) {
      r := TrimRightSplits(s[..|s| - 1]);
      r := r + [s[|s| - 1]];
    } else {
      r := "";
    }
  }

  lemma TrimSpaceSplits(s: string) returns (l: string, r: string)
    ensures AllSpace(l) && AllSpace(r) && Trimmed(TrimSpace(s))
    ensures s == l + TrimSpace(s) + r
  {
    l := TrimLeftSplits(s);
    r := TrimRightSplits(TrimLeft(s));
  }

  /** Extra white space around a text does not change its trimmed form. */
  lemma TrimSpaceAbsorbs(l: string, s: string, r: string)
    requires AllSpace(l) && AllSpace(r)
    ensures TrimSpace(l + s + r) == TrimSpace(s)
  {
    var l', r' := TrimSpaceSplits(s);
    assert l + s + r == (l + l') + TrimSpace(s) + (r' + r);
    TrimSpaceUnique(l + l', TrimSpace(s), r' + r);
  }

  /** strings.Split with a one-character separator */
  function Split(s: string, sep: char): (parts: seq<string>)
    ensures |parts| >= 1
  {
    if s == "" then [""]
    else
      var rest := Split(s[1..], sep);
      if s[0] == sep then [""] + rest else [[s[0]] + rest[0]] + rest[1..]
  }

  function Join(parts: seq<string>, sep: char): string {
    if parts == [] then ""
    else if |parts| == 1 then parts[0]
    else parts[0] + [sep] + Join(parts[1..], sep)
  }

  predicate Free(s: string, c: char) {
    forall i :: 0 <= i < |s| ==> s[i] != c
  }

  predicate AllFree(parts: seq<string>, c: char) {
    forall i :: 0 <= i < |parts| ==> Free(parts[i], c)
  }

  lemma {:induction false} SplitFree(s: string, sep: char)
    requires Free(s, sep)
    ensures Split(s, sep) == [s]
  {
    if s != "" {
      SplitFree(s[1..], sep);
      assert [s[0]] + s[1..] == s;
    }
  }

  /** Splitting distributes over a separator. */
  lemma {:induction false} SplitConcat(a: string, b: string, sep: char)
    ensures Split(a + [sep] + b, sep) == Split(a, sep) + Split(b, sep)
  {
    if a == "" {
      assert a + [sep] + b == [sep] + b;
      assert ([sep] + b)[1..] == b;
    } else {
      assert (a + [sep] + b)[1..] == a[1..] + [sep] + b;
      SplitConcat(a[1..], b, sep);
    }
  }

  lemma {:induction false} SplitPrefix(w: string, s: string, sep: char)
    requires Free(w, sep)
    ensures Split(w + s, sep) == [w + Split(s, sep)[0]] + Split(s, sep)[1..]
  {
    if w == "" {
      assert w + s == s && w + Split(s, sep)[0] == Split(s, sep)[0];
    } else {
      assert (w + s)[1..] == w[1..] + s;
      SplitPrefix(w[1..], s, sep);
      assert [w[0]] + (w[1..] + Split(s, sep)[0]) == w + Split(s, sep)[0];
    }
  }

  /** Growing a list of parts at the front commutes with growing its last part. */
  lemma AppendToLast(c: char, parts: seq<string>, w: string, sep: char)
    requires parts != []
    ensures var n := |parts| - 1;
            var grown := parts[..n] + [parts[n] + w];
            var p := if c == sep then [""] + parts else [[c] + parts[0]] + parts[1..];
            (if c == sep then [""] + grown else [[c] + grown[0]] + grown[1..]) == p[..|p| - 1] + [p[|p| - 1] + w]
  {
    if |parts| == 1 {
      assert [c] + (parts[0] + w) == [c] + parts[0] + w;
    }
  }

  lemma {:induction false} SplitSuffix(s: string, w: string, sep: char)
    requires Free(w, sep)
    ensures var p := Split(s, sep);
            Split(s + w, sep) == p[..|p| - 1] + [p[|p| - 1] + w]
  {
    if s == "" {
      assert s + w == w;
      SplitFree(w, sep);
    } else {
      assert (s + w)[1..] == s[1..] + w;
      SplitSuffix(s[1..], w, sep);
      AppendToLast(s[0], Split(s[1..], sep), w, sep);
    }
  }

  lemma {:induction false} SplitParts(s: string, sep: char)
    ensures AllFree(Split(s, sep), sep)
    ensures Join(Split(s, sep), sep) == s
  {
    if s != "" {
      SplitParts(s[1..], sep);
      var rest := Split(s[1..], sep);
      if s[0] != sep {
        var p := [[s[0]] + rest[0]] + rest[1..];
        if |rest| > 1 {
          assert p[1..] == rest[1..];
        }
        assert [s[0]] + s[1..] == s;
      } else {
        assert ([""] + rest)[1..] == rest;
      }
    }
  }

  /** Join is undone by Split, so joining separator-free parts loses nothing. */
  lemma {:induction false} SplitJoin(parts: seq<string>, sep: char)
    requires parts != [] && AllFree(parts, sep)
    ensures Split(Join(parts, sep), sep) == parts
  {
    SplitFree(parts[0], sep);
    if |parts| > 1 {
      SplitConcat(parts[0], Join(parts[1..], sep), sep);
      SplitJoin(parts[1..], sep);
    }
  }

  predicate OccursAt(s: string, sub: string, i: int) {
    0 <= i && i + |sub| <= |s| && s[i..i + |sub|] == sub
  }

  predicate Occurs(s: string, sub: string) {
    exists i :: 0 <= i <= |s| && OccursAt(s, sub, i)
  }

  /** strings.Index: the earliest occurrence, or -1 when there is none */
  function Index(s: string, sub: string, from: nat := 0): (i: int)
    requires from <= |s|
    ensures i == -1 || from <= i
    ensures i >= 0 ==> OccursAt(s, sub, i)
    ensures forall j :: from <= j && (i == -1 || j < i) ==> !OccursAt(s, sub, j)
    decreases |s| - from
  {
    if OccursAt(s, sub, from) then from
    else if from == |s| then -1
    else Index(s, sub, from + 1)
  }

  predicate HasSuffix(s: string, suffix: string) {
    |suffix| <= |s| && s[|s| - |suffix|..] == suffix
  }

  /** strings.TrimSuffix */
  function TrimSuffix(s: string, suffix: string): string {
    if HasSuffix(s, suffix) then s[..|s| - |suffix|] else s
  }
}
