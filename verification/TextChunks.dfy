/** Overlap chunking of a text for the semantic index (populate_embeddings.py, `chunk_text`). */
module TextChunks {
  import opened Text

  const BREAK := "\n\n"

  // ---------------------------------------------------------------- paragraphs

  /** The first place at or after i where a paragraph break stands, or |s|. */
  function NextBreak(s: string, i: nat): (k: nat)
    requires i <= |s|
    ensures i <= k <= |s|
    ensures k < |s| ==> k + 2 <= |s| && s[k] == '\n' && s[k+1] == '\n'
    ensures forall j :: i <= j < k && j + 1 < |s| ==> !(s[j] == '\n' && s[j+1] == '\n')
    decreases |s| - i
  {
    if i + 1 >= |s| then |s| else if s[i] == '\n' && s[i+1] == '\n' then i else NextBreak(s, i + 1)
  }

  /** `str.split("\n\n")` */
  function Split(s: string): (parts: seq<string>)
    ensures parts != []
    decreases |s|
  {
    var k := NextBreak(s, 0);
    if k == |s| then [s] else [s[..k]] + Split(s[k+2..])
  }

  function Join(parts: seq<string>): string
    requires parts != []
  {
    if |parts| == 1 then parts[0] else parts[0] + BREAK + Join(parts[1..])
  }

  ghost predicate Contains(s: string, q: string) { exists a: nat :: At(s, q, a) }

  predicate At(s: string, q: string, a: nat) { a + |q| <= |s| && s[a..a+|q|] == q }

  /** Splitting loses nothing and leaves no break inside a part. */
  lemma {:induction false} SplitThenJoin(s: string)
    ensures Join(Split(s)) == s
    ensures forall i :: 0 <= i < |Split(s)| ==> !Contains(Split(s)[i], BREAK)
    decreases |s|
  {
    var k := NextBreak(s, 0);
    if k == |s| {
      NoBreakBefore(s, k);
      assert s[..k] == s;
    } else {
      SplitThenJoin(s[k+2..]);
      NoBreakBefore(s, k);
      assert Split(s)[1..] == Split(s[k+2..]);
      assert s == s[..k] + BREAK + s[k+2..];
    }
  }

  lemma NoBreakBefore(s: string, k: nat)
    requires k == NextBreak(s, 0)
    ensures !Contains(s[..k], BREAK)
  {
    forall a: nat ensures !At(s[..k], BREAK, a) {
      if a + 2 <= k { assert s[..k][a..a+2][0] == s[a] && s[..k][a..a+2][1] == s[a+1]; }
    }
  }

  /** The stripped parts that are not empty. */
  function NonEmpty(parts: seq<string>): seq<string> {
    if parts == [] then []
    else
      var p := Strip(parts[|parts|-1]);
      NonEmpty(parts[..|parts|-1]) + if p == "" then [] else [p]
  }

  function Paragraphs(text: string): seq<string> { NonEmpty(Split(text)) }

  predicate AllTrimmed(ps: seq<string>) { forall i :: 0 <= i < |ps| ==> Trimmed(ps[i]) }

  lemma {:induction false} ParagraphsAreTrimmed(parts: seq<string>)
    ensures AllTrimmed(NonEmpty(parts))
  {
    if parts != [] {
      ParagraphsAreTrimmed(parts[..|parts|-1]);
      var i, j := StripCuts(parts[|parts|-1]);
    }
  }

  // ---------------------------------------------------------------- what chunking does

  datatype Cut = Cut(size: nat, overlap: nat)

  predicate CutOk(c: Cut) { 1 <= c.overlap < c.size }

  /** The chunks closed so far, and the one being filled. */
  datatype Filling = Filling(chunks: seq<string>, current: string)

  function Window(p: string, i: nat, c: Cut): string {
    if i + c.size <= |p| then p[i..i+c.size] else if i <= |p| then p[i..] else ""
  }

  /** The chunk that the window at i makes, if it is not blank. */
  function Piece(p: string, c: Cut, i: nat): seq<string> {
    var sub := Strip(Window(p, i, c));
    if sub == "" then [] else [sub]
  }

  type Pieces = nat -> seq<string>

  function PiecesOf(p: string, c: Cut): Pieces { (i: nat) => Piece(p, c, i) }

  /** The chunks, with the pieces at i, i + step, ... below n. */
  function Windows(chunks: seq<string>, pieces: Pieces, n: nat, i: nat, step: nat): seq<string>
    requires step >= 1
    decreases n - i
  {
    if i >= n then chunks else Windows(chunks + pieces(i), pieces, n, i + step, step)
  }

  function Tail(s: string, c: Cut): string {
    if |s| > c.overlap then s[|s|-c.overlap..] else ""
  }

  function Flushed(f: Filling): seq<string> {
    if f.current == "" then f.chunks else f.chunks + [Strip(f.current)]
  }

  function AfterParagraph(f: Filling, p: string, c: Cut): Filling
    requires CutOk(c)
  {
    if |p| > c.size then
      Filling(Windows(Flushed(f), PiecesOf(p, c), |p|, 0, c.size - c.overlap), "")
    else if |f.current| + |p| + 2 > c.size then
      Filling(f.chunks + [Strip(f.current)], Tail(f.current, c) + BREAK + p)
    else
      f.(current := if f.current == "" then p else f.current + BREAK + p)
  }

  function AfterParagraphs(ps: seq<string>, c: Cut): Filling
    requires CutOk(c)
  {
    if ps == [] then Filling([], "") else AfterParagraph(AfterParagraphs(ps[..|ps|-1], c), ps[|ps|-1], c)
  }

  function Closed(f: Filling): seq<string> {
    if Strip(f.current) == "" then f.chunks else f.chunks + [Strip(f.current)]
  }

  function Chunks(ps: seq<string>, c: Cut): seq<string>
    requires CutOk(c)
  {
    Closed(AfterParagraphs(ps, c))
  }

  // ---------------------------------------------------------------- nothing is lost

  ghost predicate InSome(chunks: seq<string>, q: string) { exists i: nat :: InChunk(chunks, i, q) }

  ghost predicate InChunk(chunks: seq<string>, i: nat, q: string) { i < |chunks| && Contains(chunks[i], q) }

  ghost predicate Kept(f: Filling, q: string) { Contains(f.current, q) || InSome(f.chunks, q) }

  lemma SliceOfSlice(s: string, i: nat, j: nat, a: nat, b: nat)
    requires i <= a <= b <= j <= |s|
    ensures s[i..j][a-i..b-i] == s[a..b]
  {
    var x := s[i..j];
    forall t | 0 <= t < b - a ensures x[a-i..b-i][t] == s[a..b][t] {
      assert x[a-i..b-i][t] == x[a - i + t] == s[a + t];
    }
  }

  /** Stripping keeps whatever starts and ends with a non-blank. */
  lemma StripKeeps(s: string, q: string)
    requires Contains(s, q) && Trimmed(q)
    ensures Contains(Strip(s), q) && Strip(s) != ""
  {
    var i, j := StripCuts(s);
    var a: nat :| At(s, q, a);
    assert s[a] == q[0] && s[a+|q|-1] == q[|q|-1];
    forall t: nat | t < i ensures IsSpace(s[t]) { assert s[..i][t] == s[t]; }
    forall t: nat | j <= t < |s| ensures IsSpace(s[t]) { assert s[j..][t-j] == s[t]; }
    SliceOfSlice(s, i, j, a, a + |q|);
    assert At(Strip(s), q, a - i);
  }

  lemma ContainsInside(x: string, s: string, y: string, q: string)
    requires Contains(s, q)
    ensures Contains(x + s + y, q)
  {
    var a: nat :| At(s, q, a);
    assert (x + s + y)[|x| + a..|x| + a + |q|] == s[a..a+|q|];
    assert At(x + s + y, q, |x| + a);
  }

  lemma InSomeOf(before: seq<string>, mid: seq<string>, after: seq<string>, q: string)
    requires InSome(mid, q)
    ensures InSome(before + mid + after, q)
  {
    var i: nat :| InChunk(mid, i, q);
    assert (before + mid + after)[|before| + i] == mid[i];
    assert InChunk(before + mid + after, |before| + i, q);
  }

  lemma InLast(chunks: seq<string>, s: string, q: string)
    requires Contains(s, q)
    ensures InSome(chunks + [s], q)
  {
    assert InChunk(chunks + [s], |chunks|, q);
  }

  /** Closing the chunk being filled keeps what it contains. */
  lemma CloseKeeps(f: Filling, q: string)
    requires Kept(f, q) && Trimmed(q)
    ensures InSome(f.chunks + [Strip(f.current)], q)
    ensures Contains(f.current, q) ==> f.current != ""
  {
    if Contains(f.current, q) {
      StripKeeps(f.current, q);
      InLast(f.chunks, Strip(f.current), q);
    } else {
      InSomeOf([], f.chunks, [Strip(f.current)], q);
      assert [] + f.chunks == f.chunks;
    }
  }

  lemma {:induction false} WindowsKeep(chunks: seq<string>, pieces: Pieces, n: nat, i: nat, step: nat, q: string)
    requires step >= 1 && InSome(chunks, q)
    ensures InSome(Windows(chunks, pieces, n, i, step), q)
    decreases n - i
  {
    if i < n {
      InSomeOf([], chunks, pieces(i), q);
      assert [] + chunks == chunks;
      WindowsKeep(chunks + pieces(i), pieces, n, i + step, step, q);
    }
  }

  lemma LongParagraphKeeps(f: Filling, p: string, c: Cut, q: string)
    requires CutOk(c) && |p| > c.size && Kept(f, q) && Trimmed(q)
    ensures Kept(AfterParagraph(f, p, c), q)
  {
    CloseKeeps(f, q);
    WindowsKeep(Flushed(f), PiecesOf(p, c), |p|, 0, c.size - c.overlap, q);
  }

  lemma ParagraphKeeps(f: Filling, p: string, c: Cut, q: string)
    requires CutOk(c) && Kept(f, q) && Trimmed(q)
    ensures Kept(AfterParagraph(f, p, c), q)
  {
    if |p| > c.size {
      LongParagraphKeeps(f, p, c, q);
    } else if |f.current| + |p| + 2 > c.size {
      CloseKeeps(f, q);
    } else if Contains(f.current, q) {
      CloseKeeps(f, q);
      ContainsInside("", f.current, BREAK + p, q);
      assert "" + f.current + (BREAK + p) == f.current + BREAK + p;
    }
  }

  lemma ShortParagraphEnters(f: Filling, p: string, c: Cut)
    requires CutOk(c) && |p| <= c.size
    ensures Contains(AfterParagraph(f, p, c).current, p)
  {
    var current := AfterParagraph(f, p, c).current;
    assert current[|current|-|p|..] == p;
    assert At(current, p, |current| - |p|);
  }

  lemma {:induction false} PrefixKeeps(ps: seq<string>, k: nat, c: Cut, q: string)
    requires CutOk(c) && k <= |ps| && Trimmed(q) && Kept(AfterParagraphs(ps[..k], c), q)
    ensures Kept(AfterParagraphs(ps, c), q)
  {
    if k == |ps| {
      assert ps[..k] == ps;
    } else {
      assert ps[..|ps|-1][..k] == ps[..k];
      PrefixKeeps(ps[..|ps|-1], k, c, q);
      ParagraphKeeps(AfterParagraphs(ps[..|ps|-1], c), ps[|ps|-1], c, q);
    }
  }

  lemma KeptIsInAChunk(f: Filling, q: string)
    requires Kept(f, q) && Trimmed(q)
    ensures InSome(Closed(f), q)
  {
    CloseKeeps(f, q);
    if Contains(f.current, q) { StripKeeps(f.current, q); }
  }

  /** A paragraph no longer than a chunk lies whole inside one chunk. */
  lemma ShortParagraphsStayWhole(ps: seq<string>, c: Cut, k: nat)
    requires CutOk(c) && AllTrimmed(ps) && k < |ps| && |ps[k]| <= c.size
    ensures InSome(Chunks(ps, c), ps[k])
  {
    assert ps[..k+1][..k] == ps[..k];
    ShortParagraphEnters(AfterParagraphs(ps[..k], c), ps[k], c);
    PrefixKeeps(ps, k + 1, c, ps[k]);
    KeptIsInAChunk(AfterParagraphs(ps, c), ps[k]);
  }

  // ---------------------------------------------------------------- pieces of long paragraphs

  lemma PieceCovers(p: string, i: nat, c: Cut, a: nat, b: nat)
    requires i <= a < b <= |p| && b <= i + c.size && Trimmed(p[a..b])
    ensures InSome(Piece(p, c, i), p[a..b])
  {
    var window, q := Window(p, i, c), p[a..b];
    SliceOfSlice(p, i, if i + c.size <= |p| then i + c.size else |p|, a, b);
    assert At(window, q, a - i);
    StripKeeps(window, q);
    InLast([], Strip(window), q);
    assert [] + [Strip(window)] == Piece(p, c, i);
  }

  /** The windows leave no place a without a window that starts less than a step before it. */
  lemma {:induction false} WindowsCover(
      chunks: seq<string>, pieces: Pieces, n: nat, i: nat, step: nat, a: nat, q: string)
    requires step >= 1 && i <= a < n
    requires forall k: nat :: k <= a < k + step ==> InSome(pieces(k), q)
    ensures InSome(Windows(chunks, pieces, n, i, step), q)
    decreases n - i
  {
    if a < i + step {
      InSomeOf(chunks, pieces(i), [], q);
      assert chunks + pieces(i) + [] == chunks + pieces(i);
      WindowsKeep(chunks + pieces(i), pieces, n, i + step, step, q);
    } else {
      WindowsCover(chunks + pieces(i), pieces, n, i + step, step, a, q);
    }
  }

  lemma LongParagraphEnters(f: Filling, p: string, c: Cut, a: nat, b: nat)
    requires CutOk(c) && |p| > c.size
    requires a < b <= |p| && b - a <= c.overlap + 1 && Trimmed(p[a..b])
    ensures Kept(AfterParagraph(f, p, c), p[a..b])
  {
    var step := c.size - c.overlap;
    forall k: nat | k <= a < k + step ensures InSome(PiecesOf(p, c)(k), p[a..b]) { PieceCovers(p, k, c, a, b); }
    WindowsCover(Flushed(f), PiecesOf(p, c), |p|, 0, step, a, p[a..b]);
  }

  /** Every piece of a long paragraph that is no longer than the overlap plus one, and is not cut at
      a blank, lies whole inside one chunk. */
  lemma LongParagraphsAreCovered(ps: seq<string>, c: Cut, k: nat, a: nat, b: nat)
    requires CutOk(c) && k < |ps| && |ps[k]| > c.size
    requires a < b <= |ps[k]| && b - a <= c.overlap + 1 && Trimmed(ps[k][a..b])
    ensures InSome(Chunks(ps, c), ps[k][a..b])
  {
    var q := ps[k][a..b];
    assert ps[..k+1][..k] == ps[..k];
    LongParagraphEnters(AfterParagraphs(ps[..k], c), ps[k], c, a, b);
    PrefixKeeps(ps, k + 1, c, q);
    KeptIsInAChunk(AfterParagraphs(ps, c), q);
  }

  // ---------------------------------------------------------------- sizes, and empty chunks

  predicate Bounded(chunks: seq<string>, bound: nat) { forall i :: 0 <= i < |chunks| ==> |chunks[i]| <= bound }

  lemma StripShrinks(s: string)
    ensures |Strip(s)| <= |s|
  {
  }

  lemma PieceIsBounded(p: string, i: nat, c: Cut)
    ensures Bounded(Piece(p, c, i), c.size) && "" !in Piece(p, c, i)
  {
    StripShrinks(Window(p, i, c));
  }

  lemma {:induction false} WindowsAreBounded(chunks: seq<string>, pieces: Pieces, n: nat, i: nat, step: nat, bound: nat)
    requires step >= 1 && Bounded(chunks, bound) && forall k: nat :: Bounded(pieces(k), bound)
    ensures Bounded(Windows(chunks, pieces, n, i, step), bound)
    decreases n - i
  {
    if i < n { WindowsAreBounded(chunks + pieces(i), pieces, n, i + step, step, bound); }
  }

  lemma {:induction false} WindowsAddNoEmpty(chunks: seq<string>, pieces: Pieces, n: nat, i: nat, step: nat)
    requires step >= 1 && forall k: nat :: "" !in pieces(k)
    ensures "" in Windows(chunks, pieces, n, i, step) <==> "" in chunks
    decreases n - i
  {
    if i < n { WindowsAddNoEmpty(chunks + pieces(i), pieces, n, i + step, step); }
  }

  lemma PiecesAreBounded(p: string, c: Cut, bound: nat)
    requires c.size <= bound
    ensures forall k: nat :: Bounded(PiecesOf(p, c)(k), bound) && "" !in PiecesOf(p, c)(k)
  {
    forall k: nat ensures Bounded(PiecesOf(p, c)(k), bound) && "" !in PiecesOf(p, c)(k) { PieceIsBounded(p, k, c); }
  }

  lemma LongParagraphIsBounded(f: Filling, p: string, c: Cut, bound: nat)
    requires CutOk(c) && |p| > c.size && Bounded(Flushed(f), bound) && c.size <= bound
    ensures Bounded(AfterParagraph(f, p, c).chunks, bound)
    ensures "" in AfterParagraph(f, p, c).chunks <==> "" in Flushed(f)
  {
    PiecesAreBounded(p, c, bound);
    WindowsAreBounded(Flushed(f), PiecesOf(p, c), |p|, 0, c.size - c.overlap, bound);
    WindowsAddNoEmpty(Flushed(f), PiecesOf(p, c), |p|, 0, c.size - c.overlap);
  }

  lemma {:induction false} FillingIsBounded(ps: seq<string>, c: Cut)
    requires CutOk(c)
    ensures var f := AfterParagraphs(ps, c);
      |f.current| <= c.size + c.overlap + 2 && Bounded(f.chunks, c.size + c.overlap + 2)
  {
    if ps != [] {
      var f, p := AfterParagraphs(ps[..|ps|-1], c), ps[|ps|-1];
      FillingIsBounded(ps[..|ps|-1], c);
      StripShrinks(f.current);
      if |p| > c.size { LongParagraphIsBounded(f, p, c, c.size + c.overlap + 2); }
    }
  }

  /** No chunk is longer than a chunk, an overlap and a break. */
  lemma ChunksAreBounded(ps: seq<string>, c: Cut)
    requires CutOk(c)
    ensures Bounded(Chunks(ps, c), c.size + c.overlap + 2)
  {
    FillingIsBounded(ps, c);
    StripShrinks(AfterParagraphs(ps, c).current);
  }

  /** Paragraph k comes when nothing is being filled, and is too long to be filled with a break. */
  predicate FillsNothing(ps: seq<string>, c: Cut, k: nat)
    requires k < |ps|
  {
    c.size < |ps[k]| + 2 && |ps[k]| <= c.size && (k == 0 || |ps[k-1]| > c.size)
  }

  lemma {:induction false} EmptyCurrentIff(ps: seq<string>, c: Cut)
    requires CutOk(c) && AllTrimmed(ps)
    ensures var s := AfterParagraphs(ps, c).current;
      && (s == "" <==> ps == [] || |ps[|ps|-1]| > c.size)
      && (s == "" <==> Strip(s) == "")
  {
    if ps != [] {
      var f, p := AfterParagraphs(ps[..|ps|-1], c), ps[|ps|-1];
      if |p| <= c.size {
        ShortParagraphEnters(f, p, c);
        StripKeeps(AfterParagraph(f, p, c).current, p);
      }
    }
  }

  lemma ParagraphClosesEmptyIff(ps: seq<string>, p: string, c: Cut)
    requires CutOk(c) && AllTrimmed(ps)
    ensures var f := AfterParagraphs(ps, c);
      "" in AfterParagraph(f, p, c).chunks <==> "" in f.chunks || FillsNothing(ps + [p], c, |ps|)
  {
    var f := AfterParagraphs(ps, c);
    EmptyCurrentIff(ps, c);
    if |p| > c.size {
      FillingIsBounded(ps, c);
      StripShrinks(f.current);
      LongParagraphIsBounded(f, p, c, c.size + c.overlap + 2);
    }
  }

  ghost predicate SomeFillsNothing(ps: seq<string>, c: Cut) { exists k: nat :: k < |ps| && FillsNothing(ps, c, k) }

  lemma FillsNothingOfOneMore(ps: seq<string>, p: string, c: Cut)
    ensures SomeFillsNothing(ps + [p], c) <==> SomeFillsNothing(ps, c) || FillsNothing(ps + [p], c, |ps|)
  {
    forall k: nat | k < |ps| ensures FillsNothing(ps + [p], c, k) <==> FillsNothing(ps, c, k) { }
  }

  lemma {:induction false} EmptyClosedIff(ps: seq<string>, c: Cut)
    requires CutOk(c) && AllTrimmed(ps)
    ensures "" in AfterParagraphs(ps, c).chunks <==> SomeFillsNothing(ps, c)
  {
    if ps != [] {
      var init, p := ps[..|ps|-1], ps[|ps|-1];
      assert init + [p] == ps;
      EmptyClosedIff(init, c);
      ParagraphClosesEmptyIff(init, p, c);
      FillsNothingOfOneMore(init, p, c);
    }
  }

  /** An empty chunk is indexed exactly when a paragraph that just fits, but not with a break, comes
      first or right after a paragraph longer than a chunk. */
  lemma EmptyChunkIff(ps: seq<string>, c: Cut)
    requires CutOk(c) && AllTrimmed(ps)
    ensures "" in Chunks(ps, c) <==> SomeFillsNothing(ps, c)
  {
    EmptyClosedIff(ps, c);
    EmptyCurrentIff(ps, c);
  }

  /** For a text: every short paragraph is found whole in one indexed chunk, every short enough piece
      of a long one too, and no chunk is much longer than the size asked for. */
  lemma TextIsIndexed(text: string, c: Cut, k: nat, a: nat, b: nat)
    requires CutOk(c) && k < |Paragraphs(text)| && a < b <= |Paragraphs(text)[k]|
    requires |Paragraphs(text)[k]| > c.size ==> b - a <= c.overlap + 1 && Trimmed(Paragraphs(text)[k][a..b])
    ensures var p, chunks := Paragraphs(text)[k], Chunks(Paragraphs(text), c);
      && Bounded(chunks, c.size + c.overlap + 2)
      && InSome(chunks, if |p| <= c.size then p else p[a..b])
  {
    ParagraphsAreTrimmed(Split(text));
    ChunksAreBounded(Paragraphs(text), c);
    if |Paragraphs(text)[k]| <= c.size {
      ShortParagraphsStayWhole(Paragraphs(text), c, k);
    } else {
      LongParagraphsAreCovered(Paragraphs(text), c, k, a, b);
    }
  }

  // ---------------------------------------------------------------- nothing is invented, nothing moves

  /** The paragraphs with a break between each and the next. */
  function Body(ps: seq<string>): string { if ps == [] then "" else Join(ps) }

  lemma {:induction false} JoinOneMore(ps: seq<string>, p: string)
    requires ps != []
    ensures Join(ps + [p]) == Join(ps) + BREAK + p
  {
    if |ps| == 1 {
      assert (ps + [p])[1..] == [p];
    } else {
      assert (ps + [p])[1..] == ps[1..] + [p];
      JoinOneMore(ps[1..], p);
    }
  }

  lemma StripIsInside(s: string)
    ensures Contains(s, Strip(s))
  {
    var i, j := StripCuts(s);
    assert At(s, Strip(s), i);
  }

  lemma InsideInside(s: string, q: string, r: string)
    requires Contains(s, q) && Contains(q, r)
    ensures Contains(s, r)
  {
    var a: nat :| At(s, q, a);
    var b: nat :| At(q, r, b);
    SliceOfSlice(s, a, a + |q|, a + b, a + b + |r|);
    assert At(s, r, a + b);
  }

  /** What starts with a non-blank does not start in a break. */
  lemma InsideAfterBreak(s: string, q: string)
    requires Contains(BREAK + s, q) && (q == "" || Trimmed(q))
    ensures Contains(s, q)
  {
    if q == "" {
      assert At(s, q, 0);
    } else {
      var a: nat :| At(BREAK + s, q, a);
      assert (BREAK + s)[a] == q[0] && IsSpace('\n');
      assert s[a-2..a-2+|q|] == (BREAK + s)[a..a+|q|];
      assert At(s, q, a - 2);
    }
  }

  predicate EndsWith(s: string, q: string) { |q| <= |s| && s[|s|-|q|..] == q }

  lemma EndsWithMore(s: string, q: string, t: string)
    requires EndsWith(s, q)
    ensures EndsWith(s + t, q + t)
  {
    assert (s + t)[|s|-|q|..] == s[|s|-|q|..] + t;
  }

  ghost predicate AllInside(chunks: seq<string>, body: string) {
    forall i :: 0 <= i < |chunks| ==> Contains(body, chunks[i])
  }

  lemma AllInsideMore(chunks: seq<string>, body: string, more: string)
    requires AllInside(chunks, body) && Contains(more, body)
    ensures AllInside(chunks, more)
  {
    forall i | 0 <= i < |chunks| ensures Contains(more, chunks[i]) { InsideInside(more, body, chunks[i]); }
  }

  /** The chunks closed so far are passages of the text, and the one being filled is its end, perhaps
      after a break. */
  ghost predicate Passages(f: Filling, body: string) {
    AllInside(f.chunks, body) && EndsWith(BREAK + body, f.current)
  }

  lemma EndIsPassage(body: string, current: string)
    requires EndsWith(BREAK + body, current)
    ensures Contains(body, Strip(current))
  {
    var i, j := StripCuts(current);
    assert At(BREAK + body, current, |BREAK + body| - |current|);
    StripIsInside(current);
    InsideInside(BREAK + body, current, Strip(current));
    InsideAfterBreak(body, Strip(current));
  }

  lemma PieceIsPassage(p: string, c: Cut, i: nat, body: string)
    requires Contains(body, p) && i < |p|
    ensures AllInside(Piece(p, c, i), body)
  {
    var window := Window(p, i, c);
    assert At(p, window, i);
    StripIsInside(window);
    InsideInside(p, window, Strip(window));
    InsideInside(body, p, Strip(window));
  }

  lemma AllInsideSum(a: seq<string>, b: seq<string>, body: string)
    requires AllInside(a, body) && AllInside(b, body)
    ensures AllInside(a + b, body)
  {
  }

  ghost predicate PiecesInside(pieces: Pieces, n: nat, body: string) {
    forall k: nat :: k < n ==> AllInside(pieces(k), body)
  }

  lemma {:induction false} WindowsArePassages(
      chunks: seq<string>, pieces: Pieces, n: nat, i: nat, step: nat, body: string)
    requires step >= 1 && AllInside(chunks, body) && PiecesInside(pieces, n, body)
    ensures chunks <= Windows(chunks, pieces, n, i, step) && AllInside(Windows(chunks, pieces, n, i, step), body)
    decreases n - i
  {
    if i < n {
      AllInsideSum(chunks, pieces(i), body);
      WindowsArePassages(chunks + pieces(i), pieces, n, i + step, step, body);
    }
  }

  lemma PiecesArePassages(p: string, c: Cut, body: string)
    requires Contains(body, p)
    ensures PiecesInside(PiecesOf(p, c), |p|, body)
  {
    forall k: nat | k < |p| ensures AllInside(PiecesOf(p, c)(k), body) { PieceIsPassage(p, c, k, body); }
  }

  lemma FlushedArePassages(f: Filling, body: string)
    requires AllInside(f.chunks, body) && Contains(body, Strip(f.current))
    ensures AllInside(Flushed(f), body) && f.chunks <= Flushed(f)
  {
  }

  lemma FlushThenWindows(f: Filling, pieces: Pieces, n: nat, step: nat, body: string)
    requires step >= 1 && AllInside(f.chunks, body) && Contains(body, Strip(f.current))
    requires PiecesInside(pieces, n, body)
    ensures f.chunks <= Windows(Flushed(f), pieces, n, 0, step)
    ensures AllInside(Windows(Flushed(f), pieces, n, 0, step), body)
  {
    FlushedArePassages(f, body);
    WindowsArePassages(Flushed(f), pieces, n, 0, step, body);
  }

  lemma LongParagraphCloses(f: Filling, p: string, c: Cut, chunks: seq<string>)
    requires CutOk(c) && |p| > c.size
    requires chunks == Windows(Flushed(f), PiecesOf(p, c), |p|, 0, c.size - c.overlap)
    ensures AfterParagraph(f, p, c).chunks == chunks
    ensures AfterParagraph(f, p, c).current == ""
  {
  }

  lemma LongParagraphIsPassages(f: Filling, p: string, c: Cut, body: string)
    requires CutOk(c) && |p| > c.size && Contains(body, p) && AllInside(f.chunks, body)
    requires Contains(body, Strip(f.current))
    ensures Passages(AfterParagraph(f, p, c), body) && f.chunks <= AfterParagraph(f, p, c).chunks
  {
    var pieces, step := PiecesOf(p, c), c.size - c.overlap;
    var chunks := Windows(Flushed(f), pieces, |p|, 0, step);
    assert AllInside(chunks, body) && f.chunks <= chunks by {
      PiecesArePassages(p, c, body);
      FlushThenWindows(f, pieces, |p|, step, body);
    }
    LongParagraphCloses(f, p, c, chunks);
    assert EndsWith(BREAK + body, "");
  }

  lemma TailEnds(s: string, current: string, c: Cut)
    requires EndsWith(s, current)
    ensures EndsWith(s, Tail(current, c))
  {
  }

  lemma ParagraphAfterEnd(was: string, current: string, p: string, body: string)
    requires EndsWith(BREAK + was, current) && body == was + BREAK + p
    ensures EndsWith(BREAK + body, current + BREAK + p)
  {
    EndsWithMore(BREAK + was, current, BREAK + p);
    assert (BREAK + was) + (BREAK + p) == BREAK + body;
    assert current + (BREAK + p) == current + BREAK + p;
  }

  lemma ShortParagraphIsPassages(f: Filling, p: string, c: Cut, was: string, body: string)
    requires CutOk(c) && |p| <= c.size && AllInside(f.chunks, body) && Contains(body, Strip(f.current))
    requires EndsWith(BREAK + was, f.current) && body == was + BREAK + p
    ensures Passages(AfterParagraph(f, p, c), body) && f.chunks <= AfterParagraph(f, p, c).chunks
  {
    if |f.current| + |p| + 2 > c.size {
      TailEnds(BREAK + was, f.current, c);
      ParagraphAfterEnd(was, Tail(f.current, c), p, body);
      AllInsideSum(f.chunks, [Strip(f.current)], body);
    } else if f.current == "" {
      assert (BREAK + body)[|BREAK + body|-|p|..] == p;
    } else {
      ParagraphAfterEnd(was, f.current, p, body);
    }
  }

  lemma FirstParagraphIsPassages(p: string, c: Cut)
    requires CutOk(c) && |p| <= c.size
    ensures Passages(AfterParagraph(Filling([], ""), p, c), p)
  {
    assert At(p, Strip(""), 0);
    assert (BREAK + p)[0..] == BREAK + p && (BREAK + p)[2..] == p && "" + BREAK + p == BREAK + p;
  }

  /** One more paragraph, of a text that was `was` and is now `body`. */
  lemma ParagraphIsPassages(f: Filling, p: string, c: Cut, was: string, body: string)
    requires CutOk(c) && Passages(f, was)
    requires (f == Filling([], "") && body == p) || body == was + BREAK + p
    ensures Passages(AfterParagraph(f, p, c), body) && f.chunks <= AfterParagraph(f, p, c).chunks
  {
    if body == was + BREAK + p {
      assert At(body, was, 0) && At(body, p, |body| - |p|);
      AllInsideMore(f.chunks, was, body);
      EndIsPassage(was, f.current);
      InsideInside(body, was, Strip(f.current));
      if |p| > c.size { LongParagraphIsPassages(f, p, c, body); } else { ShortParagraphIsPassages(f, p, c, was, body); }
    } else {
      assert At(body, p, 0) && At(body, Strip(""), 0);
      if |p| > c.size { LongParagraphIsPassages(f, p, c, body); } else { FirstParagraphIsPassages(p, c); }
    }
  }

  lemma {:induction false} FillingIsPassages(ps: seq<string>, c: Cut)
    requires CutOk(c)
    ensures Passages(AfterParagraphs(ps, c), Body(ps))
  {
    if ps == [] {
      assert (BREAK + "")[|BREAK|..] == "";
    } else {
      var init, p := ps[..|ps|-1], ps[|ps|-1];
      FillingIsPassages(init, c);
      if init != [] { JoinOneMore(init, p); }
      assert init + [p] == ps;
      ParagraphIsPassages(AfterParagraphs(init, c), p, c, Body(init), Body(ps));
    }
  }

  /** No chunk holds anything but a passage of the text. */
  lemma EveryChunkIsAPassage(ps: seq<string>, c: Cut, i: nat)
    requires CutOk(c) && i < |Chunks(ps, c)|
    ensures Contains(Body(ps), Chunks(ps, c)[i])
  {
    FillingIsPassages(ps, c);
    EndIsPassage(Body(ps), AfterParagraphs(ps, c).current);
  }

  /** Chunks come in the order of the text: those closed by a beginning of the text open the list. */
  lemma {:induction false} ClosedChunksStay(ps: seq<string>, k: nat, c: Cut)
    requires CutOk(c) && k <= |ps|
    ensures AfterParagraphs(ps[..k], c).chunks <= AfterParagraphs(ps, c).chunks <= Chunks(ps, c)
  {
    if k == |ps| {
      assert ps[..k] == ps;
    } else {
      var init, p := ps[..|ps|-1], ps[|ps|-1];
      assert init[..k] == ps[..k] && init + [p] == ps;
      ClosedChunksStay(init, k, c);
      FillingIsPassages(init, c);
      if init != [] { JoinOneMore(init, p); }
      ParagraphIsPassages(AfterParagraphs(init, c), p, c, Body(init), Body(ps));
    }
  }

  /** A chunk that is closed for lack of room hands its last `overlap` characters on to the next one,
      if it is longer than that, and they stand before the break and the new paragraph. */
  lemma OverlapIsHandedOn(f: Filling, p: string, c: Cut)
    requires CutOk(c) && |p| <= c.size && |f.current| + |p| + 2 > c.size && |f.current| > c.overlap
    ensures var f' := AfterParagraph(f, p, c);
      && f'.chunks == f.chunks + [Strip(f.current)] && |f'.current| == c.overlap + 2 + |p|
      && EndsWith(f.current, f'.current[..c.overlap]) && EndsWith(f'.current, p)
  {
    var f' := AfterParagraph(f, p, c);
    assert f'.current[..c.overlap] == f.current[|f.current|-c.overlap..];
  }

  lemma {:induction false} WindowsAreFew(chunks: seq<string>, pieces: Pieces, n: nat, i: nat, step: nat)
      returns (windows: nat)
    requires step >= 1 && i < n + step && forall k: nat :: |pieces(k)| <= 1
    ensures |chunks| <= |Windows(chunks, pieces, n, i, step)| <= |chunks| + windows
    ensures i + windows * step < n + step
    decreases n - i
  {
    windows := 0;
    if i < n {
      var rest := WindowsAreFew(chunks + pieces(i), pieces, n, i + step, step);
      windows := rest + 1;
      assert windows * step == rest * step + step;
    }
  }

  /** A paragraph longer than a chunk makes one chunk for each step into it at most. */
  lemma LongParagraphMakesFew(f: Filling, p: string, c: Cut) returns (windows: nat)
    requires CutOk(c) && |p| > c.size
    ensures |AfterParagraph(f, p, c).chunks| <= |f.chunks| + 1 + windows
    ensures windows * (c.size - c.overlap) < |p| + (c.size - c.overlap)
  {
    windows := WindowsAreFew(Flushed(f), PiecesOf(p, c), |p|, 0, c.size - c.overlap);
  }

  // ---------------------------------------------------------------- the loops

  lemma NonEmptyOfOneMore(parts: seq<string>, part: string)
    ensures NonEmpty(parts + [part]) == var p := Strip(part); if p == "" then NonEmpty(parts) else NonEmpty(parts) + [p]
  {
    assert (parts + [part])[..|parts|] == parts;
  }

  lemma AfterOneMore(ps: seq<string>, p: string, c: Cut)
    requires CutOk(c)
    ensures AfterParagraphs(ps + [p], c) == AfterParagraph(AfterParagraphs(ps, c), p, c)
  {
    assert (ps + [p])[..|ps|] == ps;
  }

  method ChunkText(text: string, chunkSize: nat, overlap: nat) returns (chunks: seq<string>)
    requires 1 <= overlap < chunkSize
    ensures chunks == Chunks(Paragraphs(text), Cut(chunkSize, overlap))
  {
    ghost var c := Cut(chunkSize, overlap);
    var paragraphs := Split(text);
    chunks := [];
    var current, n := "", 0;
    while n < |paragraphs|
      invariant n <= |paragraphs|
      invariant Filling(chunks, current) == AfterParagraphs(NonEmpty(paragraphs[..n]), c)
    {
      assert paragraphs[..n+1] == paragraphs[..n] + [paragraphs[n]];
      NonEmptyOfOneMore(paragraphs[..n], paragraphs[n]);
      var para := Strip(paragraphs[n]);
      if para != "" {
        AfterOneMore(NonEmpty(paragraphs[..n]), para, c);
        chunks, current := AddParagraph(chunks, current, para, chunkSize, overlap);
      }
      n := n + 1;
    }
    assert paragraphs[..n] == paragraphs;
    if Strip(current) != "" { chunks := chunks + [Strip(current)]; }
  }

  method AddParagraph(chunks: seq<string>, current: string, para: string, chunkSize: nat, overlap: nat)
    returns (chunks': seq<string>, current': string)
    requires 1 <= overlap < chunkSize
    ensures Filling(chunks', current') == AfterParagraph(Filling(chunks, current), para, Cut(chunkSize, overlap))
  {
    chunks', current' := chunks, current;
    if |para| > chunkSize {
      if current != "" {
        chunks', current' := chunks + [Strip(current)], "";
      }
      chunks' := AppendWindows(chunks', para, 0, Cut(chunkSize, overlap), PiecesOf(para, Cut(chunkSize, overlap)));
    } else if |current| + |para| + 2 > chunkSize {
      chunks' := chunks + [Strip(current)];
      var overlapText := if |current| > overlap then current[|current|-overlap..] else "";
      current' := overlapText + BREAK + para;
    } else if current != "" {
      current' := current + BREAK + para;
    } else {
      current' := para;
    }
  }

  ghost predicate ArePieces(pieces: Pieces, p: string, c: Cut) {
    forall k: nat {:trigger Piece(p, c, k)} :: pieces(k) == Piece(p, c, k)
  }

  method AppendPiece(before: seq<string>, para: string, i: nat, c: Cut, ghost pieces: Pieces)
    returns (chunks: seq<string>)
    requires i < |para| && ArePieces(pieces, para, c)
    ensures chunks == before + pieces(i)
  {
    var end := if i + c.size <= |para| then i + c.size else |para|;
    assert para[i..end] == Window(para, i, c);
    var sub := Strip(para[i..end]);
    chunks := if sub != "" then before + [sub] else before;
    assert chunks == before + Piece(para, c, i);
  }

  /** range(start, len(para), chunk_size - overlap) */
  method AppendWindows(before: seq<string>, para: string, start: nat, c: Cut, ghost pieces: Pieces)
    returns (chunks: seq<string>)
    requires CutOk(c) && ArePieces(pieces, para, c)
    ensures chunks == Windows(before, pieces, |para|, start, c.size - c.overlap)
  {
    ghost var step := c.size - c.overlap;
    chunks := before;
    var i: nat := start;
    while i < |para|
      invariant Windows(chunks, pieces, |para|, i, step) == Windows(before, pieces, |para|, start, step)
      decreases |para| - i
    {
      chunks := AppendPiece(chunks, para, i, c, pieces);
      i := i + (c.size - c.overlap);
    }
  }
}
