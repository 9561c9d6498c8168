/** _conflict_key and statement_digest: what the key of a conflict set tells about the set, and what it loses. */
module ConflictKeys {
  import opened Order
  import opened Sorting
  import opened Text
  import opened PackModel

  // ---------------------------------------------------------------- the text behind the key

  function Bars(ks: seq<Key>): string {
    if ks == [] then "" else ['|'] + (ks[0] + Bars(ks[1..]))
  }

  /** reason + "|" + "|".join(sorted(members)) */
  function KeyText(c: Conflict): string { c.reason + Bars(SortedKeys(c.members)) }

  /** str.casefold, character by character; one character can become several. */
  type Casefold = char -> string

  function Casefolded(s: string, fold: Casefold): string {
    if s == "" then "" else fold(s[0]) + Casefolded(s[1..], fold)
  }

  function WordEnd(s: string): (k: nat)
    ensures k <= |s| && (s != "" && !IsSpace(s[0]) ==> k > 0)
  {
    if s == "" || IsSpace(s[0]) then 0 else 1 + WordEnd(s[1..])
  }

  /** s.split() */
  function Words(s: string): seq<string> {
    if s == "" then []
    else if IsSpace(s[0]) then Words(s[1..])
    else [s[..WordEnd(s)]] + Words(s[WordEnd(s)..])
  }

  /** " ".join(words) */
  function Spaced(words: seq<string>): string {
    if words == [] then "" else if |words| == 1 then words[0] else words[0] + " " + Spaced(words[1..])
  }

  /** " ".join(s.casefold().split()), which is what gets hashed. */
  function Normalized(s: string, fold: Casefold): string { Spaced(Words(Casefolded(s, fold))) }

  function ConflictName(fold: Casefold, hash: string -> string): Naming {
    (c: Conflict) => "CONFLICT-" + hash(Normalized(KeyText(c), fold))
  }

  ghost predicate Injective(hash: string -> string) { forall s, t :: hash(s) == hash(t) ==> s == t }

  /** Two sets share a key exactly when their texts are the same once normalized. */
  lemma SameKeyExactlyWhen(fold: Casefold, hash: string -> string, c: Conflict, d: Conflict)
    requires Injective(hash)
    ensures ConflictName(fold, hash)(c) == ConflictName(fold, hash)(d) <==>
              Normalized(KeyText(c), fold) == Normalized(KeyText(d), fold)
  {
    var s, t := hash(Normalized(KeyText(c), fold)), hash(Normalized(KeyText(d), fold));
    assert ("CONFLICT-" + s)[9..] == s && ("CONFLICT-" + t)[9..] == t;
  }

  // ---------------------------------------------------------------- words

  /** A word is not empty and has no space in it. */
  predicate Word(s: string) { s != "" && NoSpace(s) }

  lemma OneWord(s: string)
    requires Word(s)
    ensures Words(s) == [s]
  {
    WholeWord(s);
    assert s[..|s|] == s && s[|s|..] == "";
  }

  lemma {:induction false} WordEndBefore(a: string, space: char, b: string)
    requires IsSpace(space)
    ensures WordEnd(a + [space] + b) == WordEnd(a)
  {
    if a != "" && !IsSpace(a[0]) {
      WordEndBefore(a[1..], space, b);
      assert (a + [space] + b)[1..] == a[1..] + [space] + b;
    }
  }

  /** The words of two texts with a space between them are the words of the one and then those of the other. */
  lemma {:induction false} WordsConcat(a: string, space: char, b: string)
    requires IsSpace(space)
    ensures Words(a + [space] + b) == Words(a) + Words(b)
    decreases |a|
  {
    var s := a + [space] + b;
    if a == "" {
      assert s[1..] == b;
    } else if IsSpace(a[0]) {
      WordsConcat(a[1..], space, b);
      assert s[1..] == a[1..] + [space] + b;
    } else {
      var n := WordEnd(a);
      WordEndBefore(a, space, b);
      WordsConcat(a[n..], space, b);
      assert s[n..] == a[n..] + [space] + b && s[..n] == a[..n];
    }
  }

  function Length(words: seq<string>): nat { if words == [] then 0 else |words[0]| + Length(words[1..]) }

  /** Joined by single spaces, words can be read back. */
  lemma {:induction false} WordsOfSpaced(words: seq<string>)
    requires forall w :: w in words ==> Word(w)
    ensures Words(Spaced(words)) == words
    ensures words != [] ==> |Spaced(words)| == Length(words) + |words| - 1
  {
    if |words| == 1 {
      OneWord(words[0]);
      assert words[1..] == [];
    } else if words != [] {
      WordsOfSpaced(words[1..]);
      OneWord(words[0]);
      WordsConcat(words[0], ' ', Spaced(words[1..]));
      assert words == [words[0]] + words[1..];
    }
  }

  lemma {:induction false} WordEndPlain(s: string)
    ensures NoSpace(s[..WordEnd(s)])
  {
    if s != "" && !IsSpace(s[0]) {
      WordEndPlain(s[1..]);
      assert forall i :: 0 < i < WordEnd(s) ==> s[i] == s[1..][..WordEnd(s[1..])][i - 1];
    }
  }

  lemma {:induction false} WordsAreWords(s: string)
    ensures forall w :: w in Words(s) ==> Word(w)
    decreases |s|
  {
    if s != "" {
      if IsSpace(s[0]) {
        WordsAreWords(s[1..]);
      } else {
        WordEndPlain(s);
        WordsAreWords(s[WordEnd(s)..]);
      }
    }
  }

  /** Two texts are the same once normalized exactly when they have the same words once their case is folded. */
  lemma SameTextExactlyWhen(s: string, t: string, fold: Casefold)
    ensures Normalized(s, fold) == Normalized(t, fold) <==> Words(Casefolded(s, fold)) == Words(Casefolded(t, fold))
  {
    WordsAreWords(Casefolded(s, fold));
    WordsAreWords(Casefolded(t, fold));
    WordsOfSpaced(Words(Casefolded(s, fold)));
    WordsOfSpaced(Words(Casefolded(t, fold)));
  }

  /** White space between two parts of a text counts once, whatever it is. */
  lemma SpacesAreLost(a: string, space: char, b: string, blank: char, fold: Casefold)
    requires IsSpace(space) && IsSpace(blank) && fold(space) == [space] && fold(blank) == [blank]
    ensures Normalized(a + [space] + b, fold) == Normalized(a + [blank] + b, fold)
  {
    FirstLetter(a, space, b, fold);
    FirstLetter(a, blank, b, fold);
    WordsConcat(Casefolded(a, fold), space, Casefolded(b, fold));
    WordsConcat(Casefolded(a, fold), blank, Casefolded(b, fold));
  }

  // ---------------------------------------------------------------- different sets under one key

  lemma SameFoldedText(fold: Casefold, hash: string -> string, c: Conflict, d: Conflict)
    requires Casefolded(KeyText(c), fold) == Casefolded(KeyText(d), fold)
    ensures ConflictName(fold, hash)(c) == ConflictName(fold, hash)(d)
  {
    assert Normalized(KeyText(c), fold) == Normalized(KeyText(d), fold);
  }

  lemma {:induction false} CasefoldedConcat(a: string, b: string, fold: Casefold)
    ensures Casefolded(a + b, fold) == Casefolded(a, fold) + Casefolded(b, fold)
  {
    if a != "" {
      CasefoldedConcat(a[1..], b, fold);
      assert (a + b)[1..] == a[1..] + b;
    } else {
      assert a + b == b;
    }
  }

  lemma SortedKeysAre(keys: set<Key>, ks: seq<Key>)
    requires SortedBy(StrLess, ks) && Elements(ks, keys)
    ensures SortedKeys(keys) == ks
  {
    StrLessStrictTotal();
    SortedUnique(StrLess, SortedKeys(keys), ks);
  }

  lemma OneKeyText(reason: string, k: Key)
    ensures KeyText(Conflict(reason, {k})) == reason + ['|'] + k
  {
    SortedKeysAre({k}, [k]);
    assert Bars([k][1..]) == "";
  }

  /** Two items whose keys differ only in a letter that folds alike give two conflict sets with one key. */
  lemma CaseIsLost(fold: Casefold, hash: string -> string, reason: string, c: char, d: char, rest: string)
    requires fold(c) == fold(d)
    ensures var name := ConflictName(fold, hash);
            name(Conflict(reason, {[c] + rest})) == name(Conflict(reason, {[d] + rest}))
  {
    var k, l := [c] + rest, [d] + rest;
    OneKeyText(reason, k);
    OneKeyText(reason, l);
    FirstLetter(reason + ['|'], c, rest, fold);
    FirstLetter(reason + ['|'], d, rest, fold);
    assert reason + ['|'] + ([c] + rest) == reason + ['|'] + [c] + rest;
    assert reason + ['|'] + ([d] + rest) == reason + ['|'] + [d] + rest;
    SameFoldedText(fold, hash, Conflict(reason, {k}), Conflict(reason, {l}));
  }

  lemma FirstLetter(a: string, c: char, b: string, fold: Casefold)
    ensures Casefolded(a + [c] + b, fold) == Casefolded(a, fold) + fold(c) + Casefolded(b, fold)
  {
    CasefoldedConcat(a + [c], b, fold);
    CasefoldedConcat(a, [c], fold);
    assert [c][1..] == "";
    assert Casefolded([c], fold) == fold(c) + "";
  }

  /** A bar inside a memory key shifts the boundary between two of them. */
  lemma BarsAreLost(fold: Casefold, hash: string -> string, reason: string, j: Key, k: Key, l: Key)
    requires StrLess(j + ['|'] + k, l) && StrLess(j, k + ['|'] + l)
    ensures var name := ConflictName(fold, hash);
            name(Conflict(reason, {j + ['|'] + k, l})) == name(Conflict(reason, {j, k + ['|'] + l}))
  {
    var jk, kl := j + ['|'] + k, k + ['|'] + l;
    TwoKeyText(reason, jk, l);
    TwoKeyText(reason, j, kl);
    assert reason + (['|'] + jk + ['|'] + l) == reason + (['|'] + j + ['|'] + kl);
    SameFoldedText(fold, hash, Conflict(reason, {jk, l}), Conflict(reason, {j, kl}));
  }

  lemma TwoKeyText(reason: string, j: Key, k: Key)
    requires StrLess(j, k)
    ensures KeyText(Conflict(reason, {j, k})) == reason + (['|'] + j + ['|'] + k)
  {
    StrLessStrictTotal();
    SortedKeysAre({j, k}, [j, k]);
    TwoBars(j, k);
  }

  lemma TwoBars(j: Key, k: Key)
    ensures Bars([j, k]) == ['|'] + j + ['|'] + k
  {
    assert [j, k][1..] == [k] && [k][1..] == [];
    assert Bars([k]) == ['|'] + (k + "");
  }

  // ---------------------------------------------------------------- when the key tells the set

  predicate NoSpace(s: string) { forall i :: 0 <= i < |s| ==> !IsSpace(s[i]) }

  /**
   * What Unicode's case folding is like: the bar is left alone, and neither bars nor spaces come out of anything else.
   */
  ghost predicate LeavesBars(fold: Casefold) {
    && fold('|') == "|"
    && (forall c :: c != '|' ==> '|' !in fold(c))
    && (forall c :: !IsSpace(c) ==> NoSpace(fold(c)))
  }

  predicate Plain(s: string) { '|' !in s && NoSpace(s) }

  /** Texts without bars and spaces that remain different when their case is folded. */
  ghost predicate Apart(texts: set<string>, fold: Casefold) {
    && (forall s :: s in texts ==> Plain(s))
    && (forall s, t :: s in texts && t in texts && Casefolded(s, fold) == Casefolded(t, fold) ==> s == t)
  }

  function Folds(ks: seq<Key>, fold: Casefold): seq<string> {
    seq(|ks|, i requires 0 <= i < |ks| => Casefolded(ks[i], fold))
  }

  lemma {:induction false} FoldedPlain(s: string, fold: Casefold)
    requires LeavesBars(fold)
    ensures NoSpace(s) ==> NoSpace(Casefolded(s, fold))
    ensures '|' !in s ==> '|' !in Casefolded(s, fold)
  {
    if s != "" {
      assert s == [s[0]] + s[1..];
      assert NoSpace(s) ==> NoSpace(s[1..]);
      FoldedPlain(s[1..], fold);
    }
  }

  lemma {:induction false} FoldedBars(ks: seq<Key>, fold: Casefold)
    requires LeavesBars(fold)
    ensures Casefolded(Bars(ks), fold) == Bars(Folds(ks, fold))
  {
    if ks != [] {
      FoldedBars(ks[1..], fold);
      CasefoldedConcat(ks[0], Bars(ks[1..]), fold);
      CasefoldedConcat(['|'], ks[0] + Bars(ks[1..]), fold);
      assert ['|'][1..] == "" && Casefolded(['|'], fold) == ['|'];
      assert Folds(ks, fold)[1..] == Folds(ks[1..], fold);
    }
  }

  lemma {:induction false} SplitBars(a: string, ks: seq<string>)
    requires '|' !in a && forall k :: k in ks ==> '|' !in k
    ensures Split(a + Bars(ks), '|') == [a] + ks
    decreases |ks|
  {
    if ks == [] {
      assert a + "" == a;
      SplitNone(a, '|');
    } else {
      var rest := ks[0] + Bars(ks[1..]);
      assert ks[0] in ks && forall k :: k in ks[1..] ==> k in ks;
      SplitBars(ks[0], ks[1..]);
      SplitPrefix(a, rest, '|');
      assert a + Bars(ks) == a + ['|'] + rest;
      assert ks == [ks[0]] + ks[1..];
    }
  }

  lemma {:induction false} WholeWord(s: string)
    requires NoSpace(s)
    ensures WordEnd(s) == |s|
  {
    if s != "" {
      WholeWord(s[1..]);
    }
  }

  /** A text without spaces is only folded. */
  lemma NoSpaceNormalized(s: string)
    requires NoSpace(s)
    ensures Spaced(Words(s)) == s
  {
    if s != "" {
      WholeWord(s);
      assert s[..|s|] == s && s[|s|..] == "";
      assert Words(s) == [s];
    }
  }

  lemma {:induction false} BarsNoSpace(ks: seq<string>)
    requires forall k :: k in ks ==> NoSpace(k)
    ensures NoSpace(Bars(ks))
  {
    if ks != [] {
      assert ks[0] in ks && forall k :: k in ks[1..] ==> k in ks;
      BarsNoSpace(ks[1..]);
    }
  }

  /** The normalized text of a conflict of plain parts, and what splitting it at the bars gives back. */
  lemma PlainText(c: Conflict, fold: Casefold)
    requires LeavesBars(fold) && Plain(c.reason) && forall k :: k in c.members ==> Plain(k)
    ensures Split(Normalized(KeyText(c), fold), '|') ==
              [Casefolded(c.reason, fold)] + Folds(SortedKeys(c.members), fold)
  {
    var a, ks := Casefolded(c.reason, fold), Folds(SortedKeys(c.members), fold);
    CasefoldedConcat(c.reason, Bars(SortedKeys(c.members)), fold);
    FoldedBars(SortedKeys(c.members), fold);
    FoldedPlain(c.reason, fold);
    forall k | k in ks ensures '|' !in k && NoSpace(k) {
      var i :| 0 <= i < |ks| && ks[i] == k;
      assert SortedKeys(c.members)[i] in c.members;
      FoldedPlain(SortedKeys(c.members)[i], fold);
    }
    BarsNoSpace(ks);
    NoSpaceNormalized(a + Bars(ks));
    SplitBars(a, ks);
  }

  lemma SameFolds(a: seq<Key>, b: seq<Key>, keys: set<Key>, fold: Casefold)
    requires Apart(keys, fold) && (forall k :: k in a || k in b ==> k in keys) && Folds(a, fold) == Folds(b, fold)
    ensures a == b
  {
    assert |Folds(a, fold)| == |Folds(b, fold)|;
    forall i | 0 <= i < |a| ensures a[i] == b[i] {
      assert Folds(a, fold)[i] == Folds(b, fold)[i];
      assert a[i] in keys && b[i] in keys;
    }
  }

  lemma PlainTextTellsTheSet(c: Conflict, d: Conflict, reasons: set<string>, keys: set<Key>, fold: Casefold)
    requires LeavesBars(fold) && Apart(reasons, fold) && Apart(keys, fold)
    requires c.reason in reasons && d.reason in reasons && c.members <= keys && d.members <= keys
    requires Normalized(KeyText(c), fold) == Normalized(KeyText(d), fold)
    ensures c == d
  {
    PlainText(c, fold);
    PlainText(d, fold);
    var s, t := [Casefolded(c.reason, fold)] + Folds(SortedKeys(c.members), fold),
                [Casefolded(d.reason, fold)] + Folds(SortedKeys(d.members), fold);
    assert s == t && s[0] == t[0] && s[1..] == t[1..];
    assert s[1..] == Folds(SortedKeys(c.members), fold) && t[1..] == Folds(SortedKeys(d.members), fold);
    SameFolds(SortedKeys(c.members), SortedKeys(d.members), keys, fold);
    SameSortedKeys(c.members, d.members);
  }

  /** Memory keys without bars and spaces that differ in more than case keep the keys of all their conflicts apart. */
  lemma KeysDifferWhen(conflicts: set<Conflict>, reasons: set<string>, keys: set<Key>, fold: Casefold,
                       hash: string -> string)
    requires Injective(hash) && LeavesBars(fold) && Apart(reasons, fold) && Apart(keys, fold)
    requires forall c :: c in conflicts ==> c.reason in reasons && c.members <= keys
    ensures KeysDiffer(ConflictName(fold, hash), conflicts)
  {
    var name := ConflictName(fold, hash);
    forall c, d | c in conflicts && d in conflicts && name(c) == name(d) ensures c == d {
      SameKeyExactlyWhen(fold, hash, c, d);
      PlainTextTellsTheSet(c, d, reasons, keys, fold);
    }
  }

  /** A folding that makes one letter small. */
  function Lowered(c: char): string { if c == 'A' then "a" else [c] }

  lemma LoweredOne(c: char)
    requires c != 'A'
    ensures Casefolded([c], Lowered) == [c]
  {
    assert [c][1..] == "" && Casefolded([c][1..], Lowered) == "";
  }

  lemma LoweredLeavesBars()
    ensures LeavesBars(Lowered)
  {
    forall c: char | !IsSpace(c) ensures NoSpace(Lowered(c)) {
      assert !IsSpace('a');
    }
  }

  /** Such a folding and a hash that keeps its text are among those spoken of here. */
  lemma AssumptionsCanBeMet()
    ensures LeavesBars(Lowered) && Injective((s: string) => s) && Apart({['a'], ['b']}, Lowered)
  {
    LoweredLeavesBars();
    LoweredOne('a');
    LoweredOne('b');
    assert Plain(['a']) && Plain(['b']);
    forall s: string | s in {['a'], ['b']} ensures Casefolded(s, Lowered) == s {
      assert s == ['a'] || s == ['b'];
    }
  }
}
