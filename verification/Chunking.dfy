/** chunk_text: overlapping windows over cleaned text, cut at paragraph boundaries where one is late enough. */
module Chunking {
  import opened Text

  datatype TextChunk = TextChunk(ordinal: nat, content: string, tokenEstimate: nat)
  datatype Outcome = InvalidParameters | Chunks(chunks: seq<TextChunk>)

  // ---------------------------------------------------------------- str.replace, str.strip, str.rfind

  /** text.replace("\r\n", "\n") */
  function UnixNewlines(s: string): string {
    if s == [] then []
    else if |s| >= 2 && s[0] == '\r' && s[1] == '\n' then ['\n'] + UnixNewlines(s[2..])
    else [s[0]] + UnixNewlines(s[1..])
  }

  function SkipSpaces(s: string): (k: nat)
    ensures k <= |s| && (forall i :: 0 <= i < k ==> IsSpace(s[i])) && (k < |s| ==> !IsSpace(s[k]))
  {
    if s == [] || !IsSpace(s[0]) then 0 else 1 + SkipSpaces(s[1..])
  }

  function SkipSpacesBack(s: string): (k: nat)
    ensures k <= |s| && (forall i :: k <= i < |s| ==> IsSpace(s[i])) && (k > 0 ==> !IsSpace(s[k - 1]))
  {
    if s == [] || !IsSpace(s[|s| - 1]) then |s| else SkipSpacesBack(s[..|s| - 1])
  }

  /** s.strip() as the slice it keeps. */
  function Strip(s: string): (r: string)
    ensures |r| <= |s| && (r == "" <==> Blank(s))
  {
    var hi := SkipSpacesBack(s);
    s[SkipSpaces(s[..hi])..hi]
  }

  /** Stripping takes a blank prefix and a blank suffix, and no more. */
  lemma StripIsExact(s: string) returns (before: string, after: string)
    ensures s == before + Strip(s) + after && Blank(before) && Blank(after)
    ensures Strip(s) != "" ==> !IsSpace(Strip(s)[0]) && !IsSpace(Strip(s)[|Strip(s)| - 1])
    ensures Strip(Strip(s)) == Strip(s)
  {
    var hi := SkipSpacesBack(s);
    var lo := SkipSpaces(s[..hi]);
    before, after := s[..lo], s[hi..];
    assert forall i :: 0 <= i < lo ==> s[i] == s[..hi][i];
    assert Strip(s) == s[lo..hi];
    StrippedStays(s[lo..hi]);
  }

  /** There is nothing to strip between two characters that are no spaces. */
  lemma StrippedStays(s: string)
    requires s != "" ==> !IsSpace(s[0]) && !IsSpace(s[|s| - 1])
    ensures Strip(s) == s
  {
    assert SkipSpacesBack(s) == |s| && s[..|s|] == s;
  }

  /** The same text with DOS line ends. */
  function DosNewlines(s: string): string {
    if s == [] then [] else (if s[0] == '\n' then ['\r', '\n'] else [s[0]]) + DosNewlines(s[1..])
  }

  /** A text arrives the same with either line end. */
  lemma {:induction false} UnixUndoesDos(s: string)
    requires '\r' !in s
    ensures UnixNewlines(DosNewlines(s)) == s
  {
    if s != [] {
      var rest := DosNewlines(s[1..]);
      UnixUndoesDos(s[1..]);
      if s[0] == '\n' {
        assert (['\r', '\n'] + rest)[2..] == rest;
      } else {
        assert ([s[0]] + rest)[1..] == rest;
      }
      assert s == [s[0]] + s[1..];
    }
  }

  predicate BreakAt(s: string, k: nat) {
    k + 2 <= |s| && s[k] == '\n' && s[k + 1] == '\n'
  }

  /** s.rfind("\n\n", from, limit) */
  function LastBreak(s: string, from: nat, limit: nat): (r: int)
    requires limit <= |s|
    ensures r == -1 || (from <= r && r + 2 <= limit && BreakAt(s, r))
    ensures forall k :: from <= k && k + 2 <= limit && BreakAt(s, k) ==> k <= r
  {
    if limit < from + 2 then -1
    else if BreakAt(s, limit - 2) then limit - 2
    else LastBreak(s, from, limit - 1)
  }

  // ---------------------------------------------------------------- the windows

  /** int(target_chars * 0.6) */
  function SearchOffset(target: nat): nat { 3 * target / 5 }

  /** Where the window that starts at pos ends. */
  function EndOf(clean: string, target: nat, pos: nat): (end: nat)
    requires pos < |clean| && target >= 128
    ensures pos < end <= |clean| && end <= pos + target
    ensures end < |clean| ==> end >= pos + SearchOffset(target) + 2
  {
    if pos + target >= |clean| then |clean|
    else
      var boundary := LastBreak(clean, pos + SearchOffset(target), pos + target);
      if boundary > pos then boundary + 2 else pos + target
  }

  function NextOf(pos: nat, end: nat, overlap: nat): (next: nat)
    requires pos < end
    ensures pos < next <= end
  {
    if end - overlap > pos + 1 then end - overlap else pos + 1
  }

  datatype Window = Window(lo: nat, hi: nat)

  predicate Parameters(target: int, overlap: int) {
    target >= 128 && 0 <= overlap < target
  }

  predicate Inside(ws: seq<Window>, length: nat) {
    forall k :: 0 <= k < |ws| ==> ws[k].lo <= ws[k].hi <= length
  }

  /** The windows that the loop visits from pos on. */
  function Windows(clean: string, target: nat, overlap: nat, pos: nat): (ws: seq<Window>)
    requires Parameters(target, overlap) && pos <= |clean|
    ensures Inside(ws, |clean|)
    decreases |clean| - pos
  {
    if pos == |clean| then []
    else
      var end := EndOf(clean, target, pos);
      [Window(pos, end)] + if end == |clean| then [] else Windows(clean, target, overlap, NextOf(pos, end, overlap))
  }

  /** How far a window's start moves at least: floor(0.6 * target) + 2 - overlap, and never less than one character. */
  function Advance(target: nat, overlap: nat): (step: nat)
    ensures step >= 1
  {
    if SearchOffset(target) + 2 > overlap + 1 then SearchOffset(target) + 2 - overlap else 1
  }

  /** The windows tile the text from pos to its end: no gap, bounded size, starts that advance by at least Advance. */
  ghost predicate Tiles(ws: seq<Window>, length: nat, pos: nat, target: nat, overlap: nat) {
    && ws != [] && ws[0].lo == pos && ws[|ws| - 1].hi == length
    && (forall k :: 0 <= k < |ws| ==> ws[k].lo < ws[k].hi <= length && ws[k].hi - ws[k].lo <= target)
    && (forall k, l :: 0 <= k < |ws| && l == k + 1 < |ws| ==>
          ws[k].lo + Advance(target, overlap) <= ws[l].lo <= ws[k].hi)
  }

  /** The next window starts far enough on, but not behind the end of this one. */
  lemma NextAdvances(clean: string, target: nat, overlap: nat, pos: nat)
    requires Parameters(target, overlap) && pos < |clean| && EndOf(clean, target, pos) < |clean|
    ensures var end := EndOf(clean, target, pos);
            pos + Advance(target, overlap) <= NextOf(pos, end, overlap) <= end
  {
  }

  lemma TileMore(w: Window, ws: seq<Window>, length: nat, next: nat, target: nat, overlap: nat)
    requires Tiles(ws, length, next, target, overlap)
    requires w.lo < w.hi <= length && w.hi - w.lo <= target && w.lo + Advance(target, overlap) <= next <= w.hi
    ensures Tiles([w] + ws, length, w.lo, target, overlap)
  {
    var all := [w] + ws;
    forall k, l | 0 <= k < |all| && l == k + 1 < |all|
      ensures all[k].lo + Advance(target, overlap) <= all[l].lo <= all[k].hi
    {
      if k > 0 {
        assert all[k] == ws[k - 1] && all[l] == ws[k];
      }
    }
  }

  lemma {:induction false} WindowsTile(clean: string, target: nat, overlap: nat, pos: nat)
    requires Parameters(target, overlap) && pos < |clean|
    ensures Tiles(Windows(clean, target, overlap, pos), |clean|, pos, target, overlap)
    decreases |clean| - pos
  {
    var end := EndOf(clean, target, pos);
    if end < |clean| {
      var next := NextOf(pos, end, overlap);
      NextAdvances(clean, target, overlap, pos);
      WindowsTile(clean, target, overlap, next);
      TileMore(Window(pos, end), Windows(clean, target, overlap, next), |clean|, next, target, overlap);
    }
  }

  /** In a tiling, every position lies in some window. */
  lemma {:induction false} TilesCover(ws: seq<Window>, length: nat, pos: nat, target: nat, overlap: nat, i: nat)
    returns (k: nat)
    requires Tiles(ws, length, pos, target, overlap) && pos <= i < length
    ensures k < |ws| && ws[k].lo <= i < ws[k].hi
  {
    k := 0;
    while k + 1 < |ws| && ws[k + 1].lo <= i
      invariant k < |ws| && ws[k].lo <= i
      decreases |ws| - k
    {
      k := k + 1;
    }
  }

  lemma {:induction false} StartsAdvance(ws: seq<Window>, step: nat, k: nat)
    requires k < |ws| && forall i, j :: 0 <= i < |ws| && j == i + 1 < |ws| ==> ws[i].lo + step <= ws[j].lo
    ensures ws[0].lo + k * step <= ws[k].lo
  {
    if k > 0 {
      StartsAdvance(ws, step, k - 1);
      assert k * step == (k - 1) * step + step;
      assert ws[k - 1].lo + step <= ws[k].lo;
    }
  }

  /** The number of windows is bounded by the length over the guaranteed advance. */
  lemma TilesAreFew(ws: seq<Window>, length: nat, pos: nat, target: nat, overlap: nat)
    requires Tiles(ws, length, pos, target, overlap)
    ensures (|ws| - 1) * Advance(target, overlap) < length - pos
  {
    StartsAdvance(ws, Advance(target, overlap), |ws| - 1);
  }

  // ---------------------------------------------------------------- from windows to chunks

  /** round(n / 4) in Python rounds halves to even. */
  function RoundedQuarter(n: nat): nat {
    var q := n / 4;
    if n % 4 == 3 || (n % 4 == 2 && q % 2 == 1) then q + 1 else q
  }

  function Estimate(n: nat): nat {
    if RoundedQuarter(n) > 1 then RoundedQuarter(n) else 1
  }

  function Pieces(clean: string, ws: seq<Window>): seq<string>
    requires Inside(ws, |clean|)
  {
    if ws == [] then []
    else
      var piece := Strip(clean[ws[0].lo..ws[0].hi]);
      (if piece == "" then [] else [piece]) + Pieces(clean, ws[1..])
  }

  function Cleaned(text: string): string { Strip(UnixNewlines(text)) }

  /** piece is the stretch of clean that begins at lo. */
  predicate Occurs(clean: string, piece: string, lo: nat) {
    lo + |piece| <= |clean| && clean[lo..lo + |piece|] == piece
  }

  /** Some piece contains the character at position i. */
  ghost predicate Covered(clean: string, pieces: seq<string>, i: nat) {
    exists k, lo: nat :: 0 <= k < |pieces| && Occurs(clean, pieces[k], lo) && lo <= i < lo + |pieces[k]|
  }

  lemma SliceOfSlice(s: string, lo: nat, hi: nat, from: nat, limit: nat)
    requires lo <= hi <= |s| && from <= limit <= hi - lo
    ensures s[lo..hi][from..limit] == s[lo + from..lo + limit]
  {
    var inner, outer := s[lo..hi][from..limit], s[lo + from..lo + limit];
    forall i | 0 <= i < limit - from ensures inner[i] == outer[i] {
      assert inner[i] == s[lo..hi][from + i];
    }
  }

  lemma StripKeeps(clean: string, w: Window, i: nat)
    requires w.lo <= i < w.hi <= |clean| && !IsSpace(clean[i])
    ensures exists lo: nat :: Occurs(clean, Strip(clean[w.lo..w.hi]), lo) && lo <= i < lo + |Strip(clean[w.lo..w.hi])|
  {
    var s := clean[w.lo..w.hi];
    assert s[i - w.lo] == clean[i];
    var hi := SkipSpacesBack(s);
    var lo := SkipSpaces(s[..hi]);
    assert i - w.lo < hi;
    assert s[..hi][i - w.lo] == clean[i];
    assert lo <= i - w.lo;
    SliceOfSlice(clean, w.lo, w.hi, lo, hi);
    assert Strip(s) == s[lo..hi] && |s[lo..hi]| == hi - lo;
    assert Occurs(clean, s[lo..hi], w.lo + lo);
  }

  lemma {:induction false} PiecesCover(clean: string, ws: seq<Window>, k: nat, i: nat)
    requires Inside(ws, |clean|)
    requires k < |ws| && ws[k].lo <= i < ws[k].hi && !IsSpace(clean[i])
    ensures Covered(clean, Pieces(clean, ws), i)
  {
    var pieces, later := Pieces(clean, ws), Pieces(clean, ws[1..]);
    if k > 0 {
      PiecesCover(clean, ws[1..], k - 1, i);
      var j, lo: nat :| 0 <= j < |later| && Occurs(clean, later[j], lo) && lo <= i < lo + |later[j]|;
      assert pieces[|pieces| - |later| + j] == later[j];
    } else {
      StripKeeps(clean, ws[0], i);
      assert pieces[0] == Strip(clean[ws[0].lo..ws[0].hi]);
    }
  }

  lemma {:induction false} PiecesBounded(clean: string, ws: seq<Window>, target: nat)
    requires Inside(ws, |clean|) && forall j :: 0 <= j < |ws| ==> ws[j].hi - ws[j].lo <= target
    ensures |Pieces(clean, ws)| <= |ws|
    ensures forall k :: 0 <= k < |Pieces(clean, ws)| ==> 0 < |Pieces(clean, ws)[k]| <= target
  {
    if ws != [] {
      PiecesBounded(clean, ws[1..], target);
    }
  }

  function Contents(chunks: seq<TextChunk>): seq<string> {
    seq(|chunks|, i requires 0 <= i < |chunks| => chunks[i].content)
  }

  lemma FewerPieces(n: nat, m: nat, step: nat)
    requires n <= m
    ensures (n - 1) * step <= (m - 1) * step
  {
  }

  /** The pieces a call must produce. */
  function Expected(clean: string, target: nat, overlap: nat): seq<string>
    requires Parameters(target, overlap)
  {
    Pieces(clean, Windows(clean, target, overlap, 0))
  }

  /**
   * Nothing readable is lost and nothing is oversized: every non-space character of the cleaned text is in a chunk,
   * every chunk is a non-empty stretch of it with at most target characters, and there are not too many chunks.
   */
  lemma ChunksCoverText(clean: string, target: nat, overlap: nat)
    requires Parameters(target, overlap) && clean != ""
    ensures forall i :: 0 <= i < |clean| && !IsSpace(clean[i]) ==> Covered(clean, Expected(clean, target, overlap), i)
    ensures forall k :: 0 <= k < |Expected(clean, target, overlap)| ==>
                0 < |Expected(clean, target, overlap)[k]| <= target
    ensures (|Expected(clean, target, overlap)| - 1) * Advance(target, overlap) < |clean|
  {
    WindowsTile(clean, target, overlap, 0);
    TilesGiveChunks(clean, Windows(clean, target, overlap, 0), target, overlap);
  }

  lemma TilesGiveChunks(clean: string, ws: seq<Window>, target: nat, overlap: nat)
    requires Inside(ws, |clean|) && Tiles(ws, |clean|, 0, target, overlap)
    ensures forall i :: 0 <= i < |clean| && !IsSpace(clean[i]) ==> Covered(clean, Pieces(clean, ws), i)
    ensures forall k :: 0 <= k < |Pieces(clean, ws)| ==> 0 < |Pieces(clean, ws)[k]| <= target
    ensures (|Pieces(clean, ws)| - 1) * Advance(target, overlap) < |clean|
  {
    PiecesBounded(clean, ws, target);
    TilesAreFew(ws, |clean|, 0, target, overlap);
    FewerPieces(|Pieces(clean, ws)|, |ws|, Advance(target, overlap));
    forall i | 0 <= i < |clean| && !IsSpace(clean[i]) ensures Covered(clean, Pieces(clean, ws), i) {
      var k := TilesCover(ws, |clean|, 0, target, overlap, i);
      PiecesCover(clean, ws, k, i);
    }
  }

  method ChunkText(text: string, target: int, overlap: int) returns (r: Outcome)
    ensures r == InvalidParameters <==> !Parameters(target, overlap)
    ensures r.Chunks? ==> Contents(r.chunks) == Expected(Cleaned(text), target, overlap)
    ensures r.Chunks? ==> forall i :: 0 <= i < |r.chunks| ==>
                                        r.chunks[i].ordinal == i &&
                                          r.chunks[i].tokenEstimate == Estimate(|r.chunks[i].content|)
  {
    if target < 128 {
      return InvalidParameters;
    }
    if overlap < 0 || overlap >= target {
      return InvalidParameters;
    }
    var clean := Cleaned(text);
    var out := ChunkClean(clean, target, overlap);
    return Chunks(out);
  }

  method ChunkClean(clean: string, target: nat, overlap: nat) returns (out: seq<TextChunk>)
    requires Parameters(target, overlap)
    ensures Contents(out) == Expected(clean, target, overlap)
    ensures forall i :: 0 <= i < |out| ==> out[i].ordinal == i && out[i].tokenEstimate == Estimate(|out[i].content|)
  {
    if clean == "" {
      return [];
    }
    var values := CollectPieces(clean, target, overlap);
    assert forall k :: 0 <= k < |values| ==> |values[k]| <= target by {
      ChunksCoverText(clean, target, overlap);
    }
    out := Numbered(values, target);
  }

  /** The while loop of chunk_text. */
  method CollectPieces(clean: string, target: nat, overlap: nat) returns (values: seq<string>)
    requires Parameters(target, overlap) && clean != ""
    ensures values == Expected(clean, target, overlap)
  {
    values := [];
    var pos := 0;
    while pos < |clean|
      invariant pos < |clean|
      invariant values + Pieces(clean, Windows(clean, target, overlap, pos)) == Expected(clean, target, overlap)
      decreases |clean| - pos
    {
      var end := FindEnd(clean, target, pos);
      var value := Strip(clean[pos..end]);
      PiecesStep(clean, target, overlap, pos, values, value);
      if value != "" {
        values := values + [value];
      }
      if end >= |clean| {
        break;
      }
      var nextPos := if pos + 1 > end - overlap then pos + 1 else end - overlap;
      assert nextPos == NextOf(pos, end, overlap);
      pos := nextPos;
    }
  }

  lemma PiecesStep(clean: string, target: nat, overlap: nat, pos: nat, values: seq<string>, value: string)
    requires Parameters(target, overlap) && pos < |clean| && value == Strip(clean[pos..EndOf(clean, target, pos)])
    ensures var end := EndOf(clean, target, pos);
            var collected := if value == "" then values else values + [value];
            values + Pieces(clean, Windows(clean, target, overlap, pos)) ==
            if end == |clean| then collected
            else collected + Pieces(clean, Windows(clean, target, overlap, NextOf(pos, end, overlap)))
  {
    var end := EndOf(clean, target, pos);
    var rest := if end == |clean| then [] else Windows(clean, target, overlap, NextOf(pos, end, overlap));
    PiecesMore(clean, Window(pos, end), rest);
    Regroup(values, value, Pieces(clean, rest));
  }

  lemma Regroup(values: seq<string>, value: string, more: seq<string>)
    ensures values + ((if value == "" then [] else [value]) + more) ==
              (if value == "" then values else values + [value]) + more
    ensures more == [] ==> values + more == values && values + [value] + more == values + [value]
  {
    assert [] + more == more;
    assert values + ([value] + more) == values + [value] + more;
  }

  lemma PiecesMore(clean: string, w: Window, rest: seq<Window>)
    requires w.lo <= w.hi <= |clean| && Inside(rest, |clean|)
    ensures Inside([w] + rest, |clean|)
    ensures var piece := Strip(clean[w.lo..w.hi]);
            Pieces(clean, [w] + rest) == (if piece == "" then [] else [piece]) + Pieces(clean, rest)
  {
    assert ([w] + rest)[1..] == rest;
  }

  /** The choice between the hard end and the last paragraph boundary. */
  method FindEnd(clean: string, target: nat, pos: nat) returns (end: nat)
    requires pos < |clean| && target >= 128
    ensures end == EndOf(clean, target, pos)
  {
    var hardEnd := if |clean| < pos + target then |clean| else pos + target;
    end := hardEnd;
    if hardEnd < |clean| {
      var boundary := LastBreak(clean, pos + SearchOffset(target), hardEnd);
      if boundary > pos {
        end := boundary + 2;
      }
    }
  }

  /** The second loop; its assertion that no chunk is oversized never fires. */
  method Numbered(values: seq<string>, target: nat) returns (out: seq<TextChunk>)
    requires forall k :: 0 <= k < |values| ==> |values[k]| <= target
    ensures Contents(out) == values
    ensures forall i :: 0 <= i < |out| ==> out[i].ordinal == i && out[i].tokenEstimate == Estimate(|out[i].content|)
  {
    out := [];
    for i := 0 to |values|
      invariant |out| == i && forall k :: 0 <= k < i ==> out[k] == TextChunk(k, values[k], Estimate(|values[k]|))
    {
      assert |values[i]| <= target;
      out := out + [TextChunk(i, values[i], Estimate(|values[i]|))];
    }
  }
}
