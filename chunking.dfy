/** The fixed-window chunker of the Chroma-backed document store
    (`VectorDBService._chunk_text`): windows of `chunkSize` characters, a window
    moved back to a sentence end when one lies past its middle, every piece
    stripped, each window restarting `overlap` characters before the previous cut. */
module Chunking {
  import opened Common

  /** Sentence endings tried in this order; the cut keeps the punctuation mark. */
  const Separators: seq<string> := [". ", ".\n", "! ", "?\n", "? "]

  const DefaultChunkSize: nat := 500
  const DefaultOverlap: nat := 50

  /** The last index below k at which pat occurs in s. */
  function LastOccurrenceBelow(s: string, pat: string, k: nat): (r: Option<nat>)
    ensures r.Some? ==> r.value < k && OccursAt(s, pat, r.value)
    ensures r.Some? ==> forall j: nat :: r.value < j < k ==> !OccursAt(s, pat, j)
    ensures r.None? ==> forall j: nat :: j < k ==> !OccursAt(s, pat, j)
    decreases k
  {
    if k == 0 then None
    else if OccursAt(s, pat, k - 1) then Some(k - 1)
    else LastOccurrenceBelow(s, pat, k - 1)
  }

  /** Python `s.rfind(pat)`, with None for -1. */
  function RFind(s: string, pat: string): (r: Option<nat>)
    ensures r.Some? ==> OccursAt(s, pat, r.value)
    ensures r.Some? ==> forall j: nat :: r.value < j ==> !OccursAt(s, pat, j)
    ensures r.None? ==> forall j: nat :: !OccursAt(s, pat, j)
  {
    LastOccurrenceBelow(s, pat, |s| + 1)
  }

  /** Separator k's last occurrence in the window lies past half the chunk size
      (the source's `last_sentence > chunk_size * 0.5`). */
  predicate Qualifies(window: string, chunkSize: nat, k: nat)
    requires k < |Separators|
  {
    var p := RFind(window, Separators[k]);
    p.Some? && 2 * p.value > chunkSize
  }

  /** The first separator, from index k on in the fixed order, that qualifies. */
  function FirstQualifying(window: string, chunkSize: nat, k: nat): (r: Option<nat>)
    requires k <= |Separators|
    ensures r.Some? ==> k <= r.value < |Separators| && Qualifies(window, chunkSize, r.value)
    ensures r.Some? ==> forall i :: k <= i < r.value ==> !Qualifies(window, chunkSize, i)
    ensures r.None? ==> forall i :: k <= i < |Separators| ==> !Qualifies(window, chunkSize, i)
    decreases |Separators| - k
  {
    if k == |Separators| then None
    else if Qualifies(window, chunkSize, k) then Some(k)
    else FirstQualifying(window, chunkSize, k + 1)
  }

  /** Where the window that starts at `start` is cut (may lie past the end of the text). */
  function WindowEnd(text: string, start: nat, chunkSize: nat): (e: nat)
    requires 0 < chunkSize
    ensures start < e <= start + chunkSize
    ensures chunkSize < 2 * (e - start)
  {
    if start + chunkSize < |text| then
      var window := text[start..start + chunkSize];
      match FirstQualifying(window, chunkSize, 0)
      case Some(k) =>
        var p := RFind(window, Separators[k]).value;
        assert p + |Separators[k]| <= chunkSize && |Separators[k]| == 2;
        start + p + 1
      case None => start + chunkSize
    else start + chunkSize
  }

  /** A window is shortened exactly when it does not reach the end of the text and a
      separator qualifies; it then ends just after the punctuation mark of the first
      qualifying separator's last occurrence, which lies past half the window. */
  lemma WindowCut(text: string, start: nat, chunkSize: nat)
    requires 0 < chunkSize
    ensures var e := WindowEnd(text, start, chunkSize);
      e < start + chunkSize <==>
        start + chunkSize < |text| && FirstQualifying(text[start..start + chunkSize], chunkSize, 0).Some?
    ensures var e := WindowEnd(text, start, chunkSize);
      e < start + chunkSize ==>
        var k := FirstQualifying(text[start..start + chunkSize], chunkSize, 0).value;
        && OccursAt(text, Separators[k], e - 1)
        && text[e - 1] == Separators[k][0] && text[e - 1] in ".!?"
        && chunkSize < 2 * (e - 1 - start)
  {
    var e := WindowEnd(text, start, chunkSize);
    if start + chunkSize < |text| {
      var window := text[start..start + chunkSize];
      var fq := FirstQualifying(window, chunkSize, 0);
      if fq.Some? {
        var k := fq.value;
        var p := RFind(window, Separators[k]).value;
        assert OccursAt(window, Separators[k], p);
        var sep := Separators[k];
        assert |sep| == 2 && p + 2 <= |window|;
        assert window[p] == sep[0] && window[p + 1] == sep[1];
        assert text[start + p] == sep[0] && text[start + p + 1] == sep[1];
        assert text[start + p..start + p + 2] == sep;
        assert e - 1 == start + p;
        assert Separators[k][0] in ".!?";
      }
    }
  }

  /** The raw window [start, end) of one loop iteration; Python clamps `end` to the text. */
  datatype Window = Window(start: nat, end: nat)

  /** The windows the loop visits from `start` on. */
  function WindowsFrom(text: string, start: nat, chunkSize: nat, overlap: nat): seq<Window>
    requires 0 < chunkSize && 2 * overlap <= chunkSize
    decreases |text| - start
  {
    if start >= |text| then []
    else
      var e := WindowEnd(text, start, chunkSize);
      [Window(start, e)] + WindowsFrom(text, e - overlap, chunkSize, overlap)
  }

  function Windows(text: string, chunkSize: nat, overlap: nat): seq<Window>
    requires 0 < chunkSize && 2 * overlap <= chunkSize
  {
    WindowsFrom(text, 0, chunkSize, overlap)
  }

  /** The stripped piece of text under each window. */
  function ChunksOf(text: string, ws: seq<Window>): seq<string>
  {
    seq(|ws|, i requires 0 <= i < |ws| => Strip(PySlice(text, ws[i].start, ws[i].end)))
  }

  /** What `_chunk_text(text, chunkSize, overlap)` returns. */
  function Chunks(text: string, chunkSize: nat, overlap: nat): seq<string>
    requires 0 < chunkSize && 2 * overlap <= chunkSize
  {
    if |text| <= chunkSize then [text] else ChunksOf(text, Windows(text, chunkSize, overlap))
  }

  ghost predicate IsSubstring(c: string, text: string) {
    exists lo: nat, hi: nat :: lo <= hi <= |text| && c == text[lo..hi]
  }

  /** `text[lo..hi].strip()` for a slice no longer than chunkSize. */
  ghost predicate IsStrippedSlice(c: string, text: string, chunkSize: nat) {
    exists lo: nat, hi: nat :: lo <= hi <= |text| && hi - lo <= chunkSize && c == Strip(text[lo..hi])
  }

  lemma StrippedSliceIsSubstring(c: string, text: string, chunkSize: nat)
    requires IsStrippedSlice(c, text, chunkSize)
    ensures IsSubstring(c, text) && |c| <= chunkSize
  {
    var lo: nat, hi: nat :| lo <= hi <= |text| && hi - lo <= chunkSize && c == Strip(text[lo..hi]);
    var x := text[lo..hi];
    var a, b := StripStart(x), StripEnd(x);
    SliceOfSlice(text, lo, hi, a, b);
    assert c == text[lo + a..lo + b];
  }

  lemma SliceOfSlice(s: string, lo: nat, hi: nat, a: nat, b: nat)
    requires lo <= hi <= |s| && a <= b <= hi - lo
    ensures s[lo..hi][a..b] == s[lo + a..lo + b]
  {
    forall i | 0 <= i < b - a ensures s[lo..hi][a..b][i] == s[lo + a..lo + b][i] {
      assert s[lo..hi][a..b][i] == s[lo..hi][a + i] == s[lo + a + i];
    }
  }

  /** The shape of the window sequence: it starts at `start`, every window begins inside
      the text and is at most chunkSize long, each window after the first begins exactly
      `overlap` characters before the previous one ends, and the last reaches the end. */
  lemma WindowsFromShape(text: string, start: nat, chunkSize: nat, overlap: nat)
    requires 0 < chunkSize && 2 * overlap <= chunkSize
    ensures var ws := WindowsFrom(text, start, chunkSize, overlap);
      && (|ws| > 0 <==> start < |text|)
      && (|ws| > 0 ==> ws[0].start == start && ws[|ws| - 1].end >= |text|)
      && (forall i :: 0 <= i < |ws| ==>
            && start <= ws[i].start < |text|
            && ws[i].start < ws[i].end <= ws[i].start + chunkSize
            && ws[i].end == WindowEnd(text, ws[i].start, chunkSize))
      && (forall i, j :: 0 <= i && j == i + 1 && j < |ws| ==> ws[j].start + overlap == ws[i].end)
  {
    var ws := WindowsFrom(text, start, chunkSize, overlap);
    WindowsFromEnds(text, start, chunkSize, overlap);
    forall i | 0 <= i < |ws|
      ensures && start <= ws[i].start < |text|
              && ws[i].start < ws[i].end <= ws[i].start + chunkSize
              && ws[i].end == WindowEnd(text, ws[i].start, chunkSize)
    {
      WindowAt(text, start, chunkSize, overlap, i);
    }
    forall i, j | 0 <= i && j == i + 1 && j < |ws|
      ensures ws[j].start + overlap == ws[i].end
    {
      WindowsChainAt(text, start, chunkSize, overlap, i);
    }
  }

  /** The first window starts at `start` and the last reaches the end of the text. */
  lemma {:induction false} WindowsFromEnds(text: string, start: nat, chunkSize: nat, overlap: nat)
    requires 0 < chunkSize && 2 * overlap <= chunkSize
    ensures var ws := WindowsFrom(text, start, chunkSize, overlap);
      && (|ws| > 0 <==> start < |text|)
      && (|ws| > 0 ==> ws[0].start == start && ws[|ws| - 1].end >= |text|)
    decreases |text| - start
  {
    if start < |text| {
      var e := WindowEnd(text, start, chunkSize);
      var rest := WindowsFrom(text, e - overlap, chunkSize, overlap);
      WindowsFromEnds(text, e - overlap, chunkSize, overlap);
      var ws := WindowsFrom(text, start, chunkSize, overlap);
      assert ws == [Window(start, e)] + rest;
      if rest != [] {
        assert ws[|ws| - 1] == rest[|rest| - 1];
      }
    }
  }

  /** Window i begins inside the text, at or after `start`, and is the window the loop
      computes from its own start. */
  lemma {:induction false} WindowAt(text: string, start: nat, chunkSize: nat, overlap: nat, i: nat)
    requires 0 < chunkSize && 2 * overlap <= chunkSize
    requires i < |WindowsFrom(text, start, chunkSize, overlap)|
    ensures var w := WindowsFrom(text, start, chunkSize, overlap)[i];
      && start <= w.start < |text|
      && w.start < w.end <= w.start + chunkSize
      && w.end == WindowEnd(text, w.start, chunkSize)
    decreases i
  {
    var e := WindowEnd(text, start, chunkSize);
    var rest := WindowsFrom(text, e - overlap, chunkSize, overlap);
    assert WindowsFrom(text, start, chunkSize, overlap) == [Window(start, e)] + rest;
    if i > 0 {
      WindowAt(text, e - overlap, chunkSize, overlap, i - 1);
      assert WindowsFrom(text, start, chunkSize, overlap)[i] == rest[i - 1];
    }
  }

  /** The first window starts where the loop starts. */
  lemma WindowHead(text: string, start: nat, chunkSize: nat, overlap: nat)
    requires 0 < chunkSize && 2 * overlap <= chunkSize
    requires |WindowsFrom(text, start, chunkSize, overlap)| > 0
    ensures WindowsFrom(text, start, chunkSize, overlap)[0].start == start
  {
  }

  /** Window i + 1 begins `overlap` characters before window i ends. */
  lemma {:induction false} WindowsChainAt(text: string, start: nat, chunkSize: nat, overlap: nat, i: nat)
    requires 0 < chunkSize && 2 * overlap <= chunkSize
    requires i + 1 < |WindowsFrom(text, start, chunkSize, overlap)|
    ensures var ws := WindowsFrom(text, start, chunkSize, overlap);
      ws[i + 1].start + overlap == ws[i].end
    decreases i
  {
    var e := WindowEnd(text, start, chunkSize);
    var rest := WindowsFrom(text, e - overlap, chunkSize, overlap);
    var ws := WindowsFrom(text, start, chunkSize, overlap);
    assert ws == [Window(start, e)] + rest;
    if i == 0 {
      WindowHead(text, e - overlap, chunkSize, overlap);
      assert ws[1] == rest[0];
    } else {
      WindowsChainAt(text, e - overlap, chunkSize, overlap, i - 1);
      assert ws[i] == rest[i - 1] && ws[i + 1] == rest[i];
    }
  }

  /** Some window of ws contains index k. */
  ghost predicate Covered(ws: seq<Window>, k: nat) {
    exists i :: 0 <= i < |ws| && ws[i].start <= k < ws[i].end
  }

  /** The windows jointly cover every index of the text from `start` on. */
  lemma {:induction false} ChainCovers(ws: seq<Window>, overlap: nat, n: nat, k: nat)
    requires |ws| > 0 && ws[0].start <= k < n <= ws[|ws| - 1].end
    requires forall i, j :: 0 <= i && j == i + 1 && j < |ws| ==> ws[j].start + overlap == ws[i].end
    ensures Covered(ws, k)
    decreases |ws|
  {
    if k >= ws[0].end {
      var rest := ws[1..];
      assert rest[0] == ws[1] && ws[1].start <= ws[0].end;
      forall i, j | 0 <= i && j == i + 1 && j < |rest|
        ensures rest[j].start + overlap == rest[i].end
      {
        assert rest[j] == ws[j + 1] && rest[i] == ws[i + 1];
      }
      ChainCovers(rest, overlap, n, k);
      var i :| 0 <= i < |rest| && rest[i].start <= k < rest[i].end;
      assert ws[i + 1] == rest[i];
    }
  }

  /** Coverage of the whole text by the windows of `_chunk_text`, which start at 0. */
  lemma WindowsCoverText(text: string, chunkSize: nat, overlap: nat)
    requires 0 < chunkSize && 2 * overlap <= chunkSize
    ensures var ws := Windows(text, chunkSize, overlap);
      && (|text| > 0 ==> |ws| > 0 && ws[0].start == 0 && ws[|ws| - 1].end >= |text|)
      && forall k: nat :: k < |text| ==> Covered(ws, k)
  {
    var ws := Windows(text, chunkSize, overlap);
    WindowsFromShape(text, 0, chunkSize, overlap);
    forall k: nat | k < |text|
      ensures Covered(ws, k)
    {
      ChainCovers(ws, overlap, |text|, k);
    }
  }

  /** Every chunk of a long text is a stripped slice of at most chunkSize characters. */
  lemma ChunksAreStrippedSlices(text: string, chunkSize: nat, overlap: nat)
    requires 0 < chunkSize && 2 * overlap <= chunkSize
    requires |text| > chunkSize
    ensures forall c :: c in Chunks(text, chunkSize, overlap) ==> IsStrippedSlice(c, text, chunkSize)
  {
    var ws := Windows(text, chunkSize, overlap);
    WindowsFromShape(text, 0, chunkSize, overlap);
    var cs := ChunksOf(text, ws);
    assert Chunks(text, chunkSize, overlap) == cs;
    forall c | c in cs ensures IsStrippedSlice(c, text, chunkSize) {
      var i :| 0 <= i < |cs| && cs[i] == c;
      WindowChunkIsStrippedSlice(text, chunkSize, ws[i]);
    }
  }

  lemma WindowChunkIsStrippedSlice(text: string, chunkSize: nat, w: Window)
    requires w.start <= w.end <= w.start + chunkSize
    ensures IsStrippedSlice(Strip(PySlice(text, w.start, w.end)), text, chunkSize)
  {
    var hi := if w.end < |text| then w.end else |text|;
    var lo := if w.start < hi then w.start else hi;
    assert PySlice(text, w.start, w.end) == text[lo..hi];
  }

  /** What every result of `_chunk_text` satisfies: a short text comes back whole;
      otherwise each chunk is a stripped slice; every chunk is a substring of at most
      chunkSize characters. */
  lemma ChunksFacts(text: string, chunkSize: nat, overlap: nat)
    requires 0 < chunkSize && 2 * overlap <= chunkSize
    ensures |text| <= chunkSize ==> Chunks(text, chunkSize, overlap) == [text]
    ensures |text| > chunkSize ==>
      forall c :: c in Chunks(text, chunkSize, overlap) ==> IsStrippedSlice(c, text, chunkSize)
    ensures forall c :: c in Chunks(text, chunkSize, overlap) ==> |c| <= chunkSize && IsSubstring(c, text)
  {
    var cs := Chunks(text, chunkSize, overlap);
    if |text| <= chunkSize {
      assert text == text[0..|text|];
    } else {
      ChunksAreStrippedSlices(text, chunkSize, overlap);
      forall c | c in cs ensures |c| <= chunkSize && IsSubstring(c, text) {
        StrippedSliceIsSubstring(c, text, chunkSize);
      }
    }
  }

  lemma ChunksOfSnoc(text: string, ws: seq<Window>, w: Window)
    ensures ChunksOf(text, ws + [w]) == ChunksOf(text, ws) + [Strip(PySlice(text, w.start, w.end))]
  {
  }

  /** The search stops at separator k when it is the first that qualifies. */
  lemma CutAt(text: string, start: nat, chunkSize: nat, k: nat)
    requires 0 < chunkSize && start + chunkSize < |text| && k < |Separators|
    requires FirstQualifying(text[start..start + chunkSize], chunkSize, k)
      == FirstQualifying(text[start..start + chunkSize], chunkSize, 0)
    requires Qualifies(text[start..start + chunkSize], chunkSize, k)
    ensures WindowEnd(text, start, chunkSize)
      == start + RFind(text[start..start + chunkSize], Separators[k]).value + 1
  {
  }

  /** When the search runs through every separator the window keeps its full length. */
  lemma NoCut(text: string, start: nat, chunkSize: nat)
    requires 0 < chunkSize && start + chunkSize < |text|
    requires FirstQualifying(text[start..start + chunkSize], chunkSize, |Separators|)
      == FirstQualifying(text[start..start + chunkSize], chunkSize, 0)
    ensures WindowEnd(text, start, chunkSize) == start + chunkSize
  {
  }

  /** One iteration of the loop moves one window from the pending part to the done part. */
  lemma WindowsStep(text: string, start: nat, chunkSize: nat, overlap: nat, done: seq<Window>, e: nat)
    requires 0 < chunkSize && 2 * overlap <= chunkSize && start < |text|
    requires Windows(text, chunkSize, overlap) == done + WindowsFrom(text, start, chunkSize, overlap)
    requires e == WindowEnd(text, start, chunkSize)
    ensures e >= overlap
    ensures Windows(text, chunkSize, overlap)
      == (done + [Window(start, e)]) + WindowsFrom(text, e - overlap, chunkSize, overlap)
  {
    WindowsFromUnfold(text, start, chunkSize, overlap);
    SeqAssoc(done, [Window(start, e)], WindowsFrom(text, e - overlap, chunkSize, overlap));
  }

  /** One unfolding of `WindowsFrom` at a start inside the text. */
  lemma WindowsFromUnfold(text: string, start: nat, chunkSize: nat, overlap: nat)
    requires 0 < chunkSize && 2 * overlap <= chunkSize && start < |text|
    ensures WindowEnd(text, start, chunkSize) >= overlap
    ensures WindowsFrom(text, start, chunkSize, overlap)
      == [Window(start, WindowEnd(text, start, chunkSize))]
         + WindowsFrom(text, WindowEnd(text, start, chunkSize) - overlap, chunkSize, overlap)
  {
  }

  lemma SeqAssoc<T>(a: seq<T>, b: seq<T>, c: seq<T>)
    ensures a + (b + c) == (a + b) + c
  {
  }

  /** The first half of one iteration of `_chunk_text`'s loop: the window end, moved back
      by the `for` over the separators that stops (`break`) at the first that qualifies. */
  method FindWindowEnd(text: string, start: nat, chunkSize: nat) returns (end: nat)
    requires 0 < chunkSize
    ensures end == WindowEnd(text, start, chunkSize)
  {
    end := start + chunkSize;
    if end < |text| {
      var window := text[start..end];
      ghost var found := false;
      for k := 0 to |Separators|
        invariant !found
        invariant end == start + chunkSize
        invariant FirstQualifying(window, chunkSize, k) == FirstQualifying(window, chunkSize, 0)
      {
        var last := RFind(window, Separators[k]);
        if last.Some? && 2 * last.value > chunkSize {
          end := start + last.value + 1;
          CutAt(text, start, chunkSize, k);
          found := true;
          break;
        }
      }
      if !found {
        NoCut(text, start, chunkSize);
      }
    }
  }

  /** The loop of `_chunk_text`. */
  method ChunkText(text: string, chunkSize: nat, overlap: nat) returns (chunks: seq<string>)
    requires 0 < chunkSize && 2 * overlap <= chunkSize
    ensures chunks == Chunks(text, chunkSize, overlap)
  {
    if |text| <= chunkSize {
      return [text];
    }
    chunks := [];
    var start: nat := 0;
    ghost var done: seq<Window> := [];
    while start < |text|
      invariant Windows(text, chunkSize, overlap) == done + WindowsFrom(text, start, chunkSize, overlap)
      invariant chunks == ChunksOf(text, done)
      decreases |text| - start
    {
      var end := FindWindowEnd(text, start, chunkSize);
      ChunksOfSnoc(text, done, Window(start, end));
      chunks := chunks + [Strip(PySlice(text, start, end))];
      WindowsStep(text, start, chunkSize, overlap, done, end);
      done := done + [Window(start, end)];
      start := end - overlap;
    }
    assert done == Windows(text, chunkSize, overlap);
  }
}
