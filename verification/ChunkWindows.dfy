/** Where chunks are cut, told by positions in the text. */
module ChunkWindows {
  import opened Text
  import opened Chunking

  // ---------------------------------------------------------------- line ends

  /** A carriage return directly before a line feed goes; every other character stays. */
  predicate Stays(s: string, i: int)
    requires 0 <= i < |s|
  {
    !(s[i] == '\r' && i + 1 < |s| && s[i + 1] == '\n')
  }

  function Staying(s: string, n: nat): nat
    requires n <= |s|
  {
    if n == 0 then 0 else Staying(s, n - 1) + if Stays(s, n - 1) then 1 else 0
  }

  lemma {:induction false} StayingAfter(s: string, t: string, k: nat, n: nat)
    requires k + n <= |s| && n <= |t| && s[k..] == t
    ensures Staying(s, k + n) == Staying(s, k) + Staying(t, n)
  {
    if n > 0 {
      StayingAfter(s, t, k, n - 1);
      assert s[k + n - 1] == t[n - 1];
      assert k + n < |s| ==> s[k + n] == t[n];
    }
  }

  /** u consists of the characters of s that stay. */
  ghost predicate HoldsStaying(s: string, u: string) {
    && |u| == Staying(s, |s|)
    && forall i :: 0 <= i < |s| && Stays(s, i) ==> Staying(s, i) < |u| && u[Staying(s, i)] == s[i]
  }

  /** One more character in front, or a carriage return and a line feed. */
  lemma StayingInFront(s: string, t: string, k: nat, u: string)
    requires k <= |s| && s[k..] == t && HoldsStaying(t, u)
    requires (k == 1 && Stays(s, 0)) || (k == 2 && !Stays(s, 0))
    ensures HoldsStaying(s, [s[k - 1]] + u)
  {
    assert Staying(s, 1) == if Stays(s, 0) then 1 else 0;
    assert Staying(s, k) == 1;
    StayingAfter(s, t, k, |t|);
    var v := [s[k - 1]] + u;
    forall i | 0 <= i < |s| && Stays(s, i) ensures Staying(s, i) < |v| && v[Staying(s, i)] == s[i] {
      if i < k {
        assert i == k - 1 && Staying(s, i) == 0;
      } else {
        LaterStays(s, t, k, i);
        assert v[Staying(s, i)] == u[Staying(t, i - k)];
      }
    }
  }

  lemma LaterStays(s: string, t: string, k: nat, i: nat)
    requires k <= i < |s| && s[k..] == t && Stays(s, i)
    ensures Stays(t, i - k) && s[i] == t[i - k] && Staying(s, i) == Staying(s, k) + Staying(t, i - k)
  {
    StayingAfter(s, t, k, i - k);
    assert i + 1 < |s| ==> s[i + 1] == t[i - k + 1];
  }

  /** The text with Unix line ends consists of the characters that stay, in their order. */
  lemma {:induction false} UnixMeans(s: string)
    ensures |UnixNewlines(s)| == Staying(s, |s|)
    ensures forall i :: 0 <= i < |s| && Stays(s, i) ==>
              Staying(s, i) < |UnixNewlines(s)| && UnixNewlines(s)[Staying(s, i)] == s[i]
  {
    if s != "" {
      var k := if |s| >= 2 && s[0] == '\r' && s[1] == '\n' then 2 else 1;
      UnixMeans(s[k..]);
      StayingInFront(s, s[k..], k, UnixNewlines(s[k..]));
      assert UnixNewlines(s) == [s[k - 1]] + UnixNewlines(s[k..]);
    }
  }

  // ---------------------------------------------------------------- the end of a window

  /** An empty line begins at k, late enough in the window that starts at pos, and its line ends fit the window. */
  predicate LateBreak(clean: string, target: nat, pos: nat, k: int) {
    && pos + 3 * target / 5 <= k <= pos + target - 2 && 0 <= k && k + 1 < |clean|
    && clean[k] == '\n' && clean[k + 1] == '\n'
  }

  /**
   * A window reaches to the end of the text if that is near enough. Otherwise it ends behind the last late empty line,
   * or after the target if there is none.
   */
  lemma EndMeans(clean: string, target: nat, pos: nat)
    requires pos < |clean| && target >= 128
    ensures var end := EndOf(clean, target, pos);
            if |clean| <= pos + target then end == |clean|
            else if exists k :: LateBreak(clean, target, pos, k) then
              LateBreak(clean, target, pos, end - 2) && forall k :: LateBreak(clean, target, pos, k) ==> k + 2 <= end
            else end == pos + target
  {
    if |clean| > pos + target {
      forall k | LateBreak(clean, target, pos, k) ensures BreakAt(clean, k) {
      }
      var r := LastBreak(clean, pos + SearchOffset(target), pos + target);
      if r >= 0 {
        assert LateBreak(clean, target, pos, r);
      }
    }
  }

  // ---------------------------------------------------------------- all windows

  /** The next window starts the overlap before the end of the last one, but at least one character further on. */
  predicate StartsAfter(w: Window, next: Window, overlap: nat) {
    && next.lo >= w.lo + 1 && next.lo >= w.hi - overlap
    && (next.lo == w.lo + 1 || next.lo == w.hi - overlap)
  }

  lemma {:induction false} WindowsMean(clean: string, target: nat, overlap: nat, pos: nat)
    requires Parameters(target, overlap) && pos < |clean|
    ensures var ws := Windows(clean, target, overlap, pos);
            && ws != [] && ws[0].lo == pos
            && (forall k :: 0 <= k < |ws| ==>
                  && ws[k].lo < |clean| && ws[k].hi == EndOf(clean, target, ws[k].lo)
                  && (k == |ws| - 1 <==> ws[k].hi == |clean|))
            && (forall k, l :: 0 <= k < |ws| && l == k + 1 < |ws| ==> StartsAfter(ws[k], ws[l], overlap))
    decreases |clean| - pos
  {
    var end := EndOf(clean, target, pos);
    if end < |clean| {
      var next := NextOf(pos, end, overlap);
      var rest := Windows(clean, target, overlap, next);
      WindowsMean(clean, target, overlap, next);
      var ws := [Window(pos, end)] + rest;
      assert Windows(clean, target, overlap, pos) == ws;
      assert forall k :: 1 <= k < |ws| ==> ws[k] == rest[k - 1];
    } else {
      assert Windows(clean, target, overlap, pos) == [Window(pos, end)];
    }
  }

  // ---------------------------------------------------------------- the pieces

  /** The windows in which there is anything to read, before the n-th. */
  function Readable(clean: string, ws: seq<Window>, n: nat): nat
    requires n <= |ws| && Inside(ws, |clean|)
  {
    if n == 0 then 0 else Readable(clean, ws, n - 1) + if Blank(clean[ws[n - 1].lo..ws[n - 1].hi]) then 0 else 1
  }

  lemma {:induction false} ReadableAfter(clean: string, ws: seq<Window>, n: nat)
    requires 1 <= n <= |ws| && Inside(ws, |clean|)
    ensures Readable(clean, ws, n) ==
              (if Blank(clean[ws[0].lo..ws[0].hi]) then 0 else 1) + Readable(clean, ws[1..], n - 1)
  {
    if n > 1 {
      ReadableAfter(clean, ws, n - 1);
      assert ws[1..][n - 2] == ws[n - 1];
    }
  }

  /** Every readable window gives one piece, its text without the blank ends; the pieces stand in the windows' order. */
  lemma {:induction false} PiecesMean(clean: string, ws: seq<Window>)
    requires Inside(ws, |clean|)
    ensures |Pieces(clean, ws)| == Readable(clean, ws, |ws|)
    ensures forall k :: 0 <= k < |ws| && !Blank(clean[ws[k].lo..ws[k].hi]) ==>
              Readable(clean, ws, k) < |Pieces(clean, ws)| &&
              Pieces(clean, ws)[Readable(clean, ws, k)] == Strip(clean[ws[k].lo..ws[k].hi])
  {
    if ws != [] {
      PiecesMean(clean, ws[1..]);
      ReadableAfter(clean, ws, |ws|);
      forall k | 0 <= k < |ws| && !Blank(clean[ws[k].lo..ws[k].hi])
        ensures Readable(clean, ws, k) < |Pieces(clean, ws)|
        ensures Pieces(clean, ws)[Readable(clean, ws, k)] == Strip(clean[ws[k].lo..ws[k].hi])
      {
        PieceAt(clean, ws, k);
      }
    }
  }

  lemma PieceAt(clean: string, ws: seq<Window>, k: nat)
    requires k < |ws| && Inside(ws, |clean|) && !Blank(clean[ws[k].lo..ws[k].hi])
    requires k > 0 ==>
               var pieces := Pieces(clean, ws[1..]);
               Readable(clean, ws[1..], k - 1) < |pieces| &&
               pieces[Readable(clean, ws[1..], k - 1)] == Strip(clean[ws[k].lo..ws[k].hi])
    ensures Readable(clean, ws, k) < |Pieces(clean, ws)|
    ensures Pieces(clean, ws)[Readable(clean, ws, k)] == Strip(clean[ws[k].lo..ws[k].hi])
  {
    if k > 0 {
      ReadableAfter(clean, ws, k);
    }
  }

  /** A quarter of the length, rounded to the nearest whole number, halves to the even one, and at least one. */
  lemma EstimateMeans(n: nat)
    ensures Estimate(n) >= 1 && (n <= 2 ==> Estimate(n) == 1)
    ensures n > 2 ==> n - 2 <= 4 * Estimate(n) <= n + 2
    ensures n > 2 && (4 * Estimate(n) == n - 2 || 4 * Estimate(n) == n + 2) ==> Estimate(n) % 2 == 0
  {
  }

  /** Starts advance by 60 percent of the target, less the overlap, and the two line ends; never by less than one. */
  lemma AdvanceMeans(target: nat, overlap: nat)
    ensures Advance(target, overlap) >= 1 && Advance(target, overlap) + overlap >= 3 * target / 5 + 2
    ensures Advance(target, overlap) == 1 || Advance(target, overlap) + overlap == 3 * target / 5 + 2
  {
  }

  /** What counts as blank, by code point. */
  lemma SpacesAre(c: char)
    ensures IsSpace(c) <==>
              || c as int in {9, 10, 11, 12, 13, 28, 29, 30, 31, 32, 133, 160, 5760}
              || c as int in {8192, 8193, 8194, 8195, 8196, 8197, 8198, 8199, 8200, 8201, 8202}
              || c as int in {8232, 8233, 8239, 8287, 12288}
  {
  }
}
