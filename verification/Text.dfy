/** The parts of Python's str that several components use. */
module Text {

  /** str.isspace for one character: what str.strip() removes. */
  predicate IsSpace(c: char) {
    || '\t' <= c <= '\r' || '\U{1c}' <= c <= ' '
    || c == '\U{85}' || c == '\U{a0}' || c == '\U{1680}' || '\U{2000}' <= c <= '\U{200a}'
    || c == '\U{2028}' || c == '\U{2029}' || c == '\U{202f}' || c == '\U{205f}' || c == '\U{3000}'
  }

  predicate Blank(s: string) {
    forall i :: 0 <= i < |s| ==> IsSpace(s[i])
  }

  // ---------------------------------------------------------------- str.split

  /** s.split(sep) */
  function Split(s: string, sep: char): (parts: seq<string>)
    ensures parts != []
  {
    if s == "" then [""]
    else if s[0] == sep then [""] + Split(s[1..], sep)
    else
      var parts := Split(s[1..], sep);
      [[s[0]] + parts[0]] + parts[1..]
  }

  lemma {:induction false} SplitPrefix(a: string, b: string, sep: char)
    requires sep !in a
    ensures Split(a + [sep] + b, sep) == [a] + Split(b, sep)
  {
    if a != "" {
      SplitPrefix(a[1..], b, sep);
      assert (a + [sep] + b)[1..] == a[1..] + [sep] + b;
      assert [a[0]] + a[1..] == a;
    } else {
      assert (a + [sep] + b)[1..] == b;
    }
  }

  lemma {:induction false} SplitNone(a: string, sep: char)
    requires sep !in a
    ensures Split(a, sep) == [a]
  {
    if a != "" {
      SplitNone(a[1..], sep);
      assert [a[0]] + a[1..] == a;
    }
  }

  lemma {:induction false} SplitPartsFree(s: string, sep: char)
    ensures forall i :: 0 <= i < |Split(s, sep)| ==> sep !in Split(s, sep)[i]
  {
    if s != "" {
      SplitPartsFree(s[1..], sep);
    }
  }

  /** The position of the first occurrence of c in s, or |s|. */
  function Find(s: string, c: char): (k: nat)
    ensures k <= |s| && c !in s[..k] && (k < |s| ==> s[k] == c)
  {
    if s == "" || s[0] == c then 0 else
      var k := 1 + Find(s[1..], c);
      assert s[..k] == [s[0]] + s[1..][..k - 1];
      k
  }

  /** w stands in s from a on, between separators or ends. */
  ghost predicate PartAt(s: string, sep: char, w: string, a: nat) {
    && a + |w| <= |s| && s[a..a + |w|] == w
    && (a == 0 || s[a - 1] == sep) && (a + |w| == |s| || s[a + |w|] == sep)
  }

  /** The parts of a split are what stands between separators or ends. */
  lemma {:induction false} SplitHas(s: string, sep: char, w: string)
    requires sep !in w
    ensures w in Split(s, sep) <==> exists a: nat :: PartAt(s, sep, w, a)
    decreases |s|
  {
    var k := Find(s, sep);
    if k == |s| {
      assert s[..k] == s;
      SplitNone(s, sep);
      WholePart(s, sep, w);
    } else {
      var head, rest := s[..k], s[k + 1..];
      assert s == head + [sep] + rest;
      SplitPrefix(head, rest, sep);
      SplitHas(rest, sep, w);
      HeadOrRest(s, sep, w, head, rest);
    }
  }

  lemma WholePart(s: string, sep: char, w: string)
    requires sep !in s
    ensures w == s <==> exists a: nat :: PartAt(s, sep, w, a)
  {
    if w == s {
      assert PartAt(s, sep, w, 0);
    }
  }

  lemma HeadOrRest(s: string, sep: char, w: string, head: string, rest: string)
    requires s == head + [sep] + rest && sep !in head && sep !in w
    ensures (exists a: nat :: PartAt(s, sep, w, a)) <==> w == head || exists a: nat :: PartAt(rest, sep, w, a)
  {
    var k := |head|;
    assert s[k] == sep && s[..k] == head && s[k + 1..] == rest;
    if w == head {
      assert PartAt(s, sep, w, 0);
    }
    if a: nat :| PartAt(rest, sep, w, a) {
      PartMoved(s, sep, w, k, rest, a);
    }
    if a: nat :| PartAt(s, sep, w, a) {
      PartOfEither(s, sep, w, k, a);
      if a > k {
        PartMoved(s, sep, w, k, rest, a - k - 1);
      }
    }
  }

  /** What stands behind a separator stands there in the rest, too. */
  lemma PartMoved(s: string, sep: char, w: string, k: nat, rest: string, a: nat)
    requires k < |s| && s[k] == sep && rest == s[k + 1..]
    ensures PartAt(rest, sep, w, a) <==> PartAt(s, sep, w, k + 1 + a)
  {
    if a + |w| <= |rest| {
      assert s[k + 1 + a..k + 1 + a + |w|] == rest[a..a + |w|];
    }
  }

  lemma PartOfEither(s: string, sep: char, w: string, k: nat, a: nat)
    requires k < |s| && s[k] == sep && sep !in s[..k] && sep !in w && PartAt(s, sep, w, a)
    ensures a > k || (a == 0 && w == s[..k])
  {
    assert forall i :: 0 <= i < k ==> s[i] == s[..k][i] && s[i] != sep;
    assert forall i :: 0 <= i < |w| ==> w[i] == s[a + i] && w[i] != sep;
    if a <= k {
      assert a == 0;
      assert |w| == k;
    }
  }

  /** s.split(sep, n): at most n splits, so the last part keeps any further separators. */
  function SplitMax(s: string, sep: char, n: nat): (parts: seq<string>)
    ensures 1 <= |parts| <= n + 1
  {
    var k := Find(s, sep);
    if n == 0 || k == |s| then [s] else [s[..k]] + SplitMax(s[k + 1..], sep, n - 1)
  }

  /** fields and last, with sep after every field. */
  function JoinWith(fields: seq<string>, last: string, sep: char): string {
    if fields == [] then last else fields[0] + [sep] + JoinWith(fields[1..], last, sep)
  }

  /** Splitting at the first separator. */
  lemma FindIs(a: string, b: string, sep: char)
    requires sep !in a
    ensures Find(a + [sep] + b, sep) == |a|
    ensures (a + [sep] + b)[..|a|] == a && (a + [sep] + b)[|a| + 1..] == b
  {
    var s := a + [sep] + b;
    var k := Find(s, sep);
    assert s[|a|] == sep;
    assert forall i :: 0 <= i < |a| ==> s[i] == a[i];
    assert forall i :: 0 <= i < k ==> s[..k][i] == s[i];
  }

  lemma SplitOnce(a: string, b: string, sep: char, n: nat)
    requires sep !in a && n > 0
    ensures SplitMax(a + [sep] + b, sep, n) == [a] + SplitMax(b, sep, n - 1)
  {
    FindIs(a, b, sep);
  }

  lemma {:induction false} SplitMaxJoin(fields: seq<string>, last: string, sep: char)
    requires forall i :: 0 <= i < |fields| ==> sep !in fields[i]
    ensures SplitMax(JoinWith(fields, last, sep), sep, |fields|) == fields + [last]
  {
    if fields != [] {
      SplitMaxJoin(fields[1..], last, sep);
      SplitOnce(fields[0], JoinWith(fields[1..], last, sep), sep, |fields|);
      assert fields == [fields[0]] + fields[1..];
    } else {
      assert fields + [last] == [last];
    }
  }

  lemma {:induction false} SplitMaxInverts(s: string, sep: char, n: nat, parts: seq<string>)
    requires parts == SplitMax(s, sep, n) && |parts| == n + 1
    ensures JoinWith(parts[..n], parts[n], sep) == s
    ensures forall i :: 0 <= i < n ==> sep !in parts[i]
  {
    if n > 0 {
      var k := Find(s, sep);
      var first, rest := s[..k], SplitMax(s[k + 1..], sep, n - 1);
      SplitMaxInverts(s[k + 1..], sep, n - 1, rest);
      JoinWithPart(first, rest, n - 1, sep);
      CutAt(s, k);
      FirstAndRest(first, rest, n, sep);
    }
  }

  lemma FirstAndRest(first: string, rest: seq<string>, n: nat, sep: char)
    requires 0 < n == |rest| && sep !in first && forall i :: 0 <= i < n - 1 ==> sep !in rest[i]
    ensures forall i :: 0 <= i < n ==> sep !in ([first] + rest)[i]
  {
  }

  lemma CutAt(s: string, k: nat)
    requires k < |s|
    ensures s == s[..k] + [s[k]] + s[k + 1..]
  {
  }

  lemma JoinWithPart(first: string, rest: seq<string>, n: nat, sep: char)
    requires |rest| == n + 1
    ensures var parts := [first] + rest;
            JoinWith(parts[..n + 1], parts[n + 1], sep) == first + [sep] + JoinWith(rest[..n], rest[n], sep)
  {
    assert ([first] + rest)[..n + 1] == [first] + rest[..n];
    JoinWithStep(first, rest[..n], rest[n], sep);
  }

  lemma JoinWithStep(first: string, rest: seq<string>, last: string, sep: char)
    ensures JoinWith([first] + rest, last, sep) == first + [sep] + JoinWith(rest, last, sep)
  {
    assert ([first] + rest)[1..] == rest;
  }
}
