/**
 Quotes stay balanced: where every cut falls at a newline, each chunk of well-formed HTML is
 well-formed again.
 */
module SplitterBalance {
  import opened ByteStrings
  import opened HtmlSplitter
  import opened SplitterTermination
  import opened SplitterContent

  datatype Mark = Outside | Inside | Broken

  /** Reading quote tags from a position on. Tags are on one line and hold no '<'; quotes do
      not nest; a closer needs an open quote. */
  function Walk(s: string, i: nat, m: Mark): Mark
    requires i <= |s|
    decreases |s| - i
  {
    if i == |s| || m == Broken then m
    else if At(s, OPEN, i) then
      if m == Inside || !WholeTag(s, i) then Broken else Walk(s, TagEnd(s, i), Inside)
    else if At(s, CLOSE, i) then
      if m == Outside then Broken else Walk(s, i + |CLOSE|, Outside)
    else Walk(s, i + 1, m)
  }

  predicate WholeTag(s: string, i: nat)
    requires i <= |s|
  {
    i < TagEnd(s, i) && forall q :: i < q < TagEnd(s, i) ==> s[q] != '<' && s[q] != '\n'
  }

  /** Every quote that opens closes. */
  predicate Balanced(s: string) {
    Walk(s, 0, Outside) == Outside
  }

  function Depth(m: Mark): nat {
    if m == Inside then 1 else 0
  }

  lemma CloserBytes(s: string, i: nat)
    requires At(s, CLOSE, i)
    ensures s[i] == '<' && s[i + 1] == '/'
    ensures forall q :: i <= q < i + |CLOSE| ==> s[q] != '\n' && (q > i ==> s[q] != '<')
  {
    forall q | i <= q < i + |CLOSE|
      ensures s[q] == CLOSE[q - i]
    {
      AtByte(s, CLOSE, i, q - i);
    }
  }

  /** No tag begins where there is no '<'. */
  lemma NoTagWithin(s: string, i: nat, j: nat)
    requires i <= j <= |s| && forall q :: i <= q < j ==> s[q] != '<'
    ensures Count(s, OPEN, i) == Count(s, OPEN, j) && Count(s, CLOSE, i) == Count(s, CLOSE, j)
  {
    forall q | i <= q < j
      ensures !At(s, OPEN, q) && !At(s, CLOSE, q)
    {
      if At(s, OPEN, q) {
        OpenerBytes(s, q);
      }
      if At(s, CLOSE, q) {
        CloserBytes(s, q);
      }
    }
    CountSkips(s, OPEN, i, j);
    CountSkips(s, CLOSE, i, j);
  }

  /** Over what the walk accepts, openers less closers is the change of depth. */
  lemma {:induction false} WalkCounts(s: string, i: nat, m: Mark)
    requires i <= |s| && Walk(s, i, m) != Broken
    ensures Count(s, OPEN, i) + Depth(m) == Count(s, CLOSE, i) + Depth(Walk(s, i, m))
    decreases |s| - i
  {
    if i == |s| {
    } else if At(s, OPEN, i) {
      OpenerBytes(s, i);
      TagHasOpener(s, i);
      WalkCounts(s, TagEnd(s, i), Inside);
      NoTagWithin(s, i + |OPEN|, TagEnd(s, i));
      OpenerCounts(s, i);
    } else if At(s, CLOSE, i) {
      CloserCounts(s, i);
      WalkCounts(s, i + |CLOSE|, Outside);
    } else {
      WalkCounts(s, i + 1, m);
    }
  }

  /** An opener counts once as an opener and not as a closer. */
  lemma OpenerCounts(s: string, i: nat)
    requires At(s, OPEN, i)
    ensures Count(s, OPEN, i) == 1 + Count(s, OPEN, i + |OPEN|)
    ensures Count(s, CLOSE, i) == Count(s, CLOSE, i + |OPEN|)
  {
    OpenerBytes(s, i);
    AtByte(s, OPEN, i, 1);
    forall q | i <= q < i + |OPEN|
      ensures !At(s, CLOSE, q)
    {
      if At(s, CLOSE, q) {
        CloserBytes(s, q);
      }
    }
    CountSkips(s, CLOSE, i, i + |OPEN|);
  }

  lemma CloserCounts(s: string, i: nat)
    requires At(s, CLOSE, i)
    ensures Count(s, CLOSE, i) == 1 + Count(s, CLOSE, i + |CLOSE|)
    ensures Count(s, OPEN, i) == Count(s, OPEN, i + |CLOSE|)
  {
    CloserBytes(s, i);
    forall q | i <= q < i + |CLOSE|
      ensures !At(s, OPEN, q)
    {
      if At(s, OPEN, q) {
        OpenerBytes(s, q);
        AtByte(s, OPEN, q, 1);
      }
    }
    CountSkips(s, OPEN, i, i + |CLOSE|);
  }

  /** The walk meets every opener, and found a whole tag there. */
  lemma {:induction false} WalkMeetsTags(s: string, i: nat, m: Mark, q: nat)
    requires i <= q && i <= |s| && Walk(s, i, m) != Broken && At(s, OPEN, q)
    ensures WholeTag(s, q)
    decreases |s| - i
  {
    OpenerBytes(s, q);
    if q == i {
    } else if At(s, OPEN, i) {
      OpenerBytes(s, i);
      assert q >= TagEnd(s, i);
      WalkMeetsTags(s, TagEnd(s, i), Inside, q);
    } else if At(s, CLOSE, i) {
      CloserBytes(s, i);
      WalkMeetsTags(s, i + |CLOSE|, Outside, q);
    } else {
      WalkMeetsTags(s, i + 1, m, q);
    }
  }

  // ---- Cutting and joining -----------------------------------------------------------

  /** Whatever tag begins before a newline or a '<' ends before it. */
  lemma {:induction false} WalkStops(s: string, n: nat, i: nat, m: Mark)
    requires i <= n <= |s| && (n < |s| ==> s[n] == '\n' || s[n] == '<')
    ensures Walk(s, i, m) == Walk(s, n, Walk(s[..n], i, m))
    decreases n - i
  {
    if i == n || m == Broken {
      BrokenStays(s, n);
    } else {
      SameTags(s, n, i);
      if At(s, OPEN, i) {
        if m != Inside && WholeTag(s, i) {
          WalkStops(s, n, TagEnd(s, i), Inside);
        } else {
          BrokenStays(s, n);
        }
      } else if At(s, CLOSE, i) {
        if m == Inside {
          WalkStops(s, n, i + |CLOSE|, Outside);
        } else {
          BrokenStays(s, n);
        }
      } else {
        WalkStops(s, n, i + 1, m);
      }
    }
  }

  lemma BrokenStays(s: string, n: nat)
    requires n <= |s|
    ensures Walk(s, n, Broken) == Broken
  {
  }

  /** A prefix that ends there holds the same tags. */
  lemma SameTags(s: string, n: nat, i: nat)
    requires i < n <= |s| && (n < |s| ==> s[n] == '\n' || s[n] == '<')
    ensures At(s, OPEN, i) <==> At(s[..n], OPEN, i)
    ensures At(s, CLOSE, i) <==> At(s[..n], CLOSE, i)
    ensures At(s, OPEN, i) ==> (WholeTag(s, i) <==> WholeTag(s[..n], i))
    ensures At(s, OPEN, i) && WholeTag(s, i) ==> TagEnd(s, i) == TagEnd(s[..n], i) <= n
  {
    if At(s, OPEN, i) {
      OpenerBytes(s, i);
      SameWholeTag(s, n, i);
    }
    if At(s, CLOSE, i) {
      CloserBytes(s, i);
    }
    if i + |OPEN| <= n {
      AtPrefix(s, OPEN, n, i);
    }
    if i + |CLOSE| <= n {
      AtPrefix(s, CLOSE, n, i);
    }
  }

  lemma SameWholeTag(s: string, n: nat, i: nat)
    requires i < n <= |s| && (n < |s| ==> s[n] == '\n' || s[n] == '<')
    ensures WholeTag(s, i) <==> WholeTag(s[..n], i)
    ensures WholeTag(s, i) ==> TagEnd(s, i) == TagEnd(s[..n], i) <= n
  {
    IndexByteIsFirst(s, '>', i);
    IndexByteIsFirst(s[..n], '>', i);
    assert forall q :: 0 <= q < n ==> s[q] == s[..n][q];
    if WholeTag(s, i) {
      EndsAt(s[..n], i, TagEnd(s, i));
    }
    if WholeTag(s[..n], i) {
      EndsAt(s, i, TagEnd(s[..n], i));
    }
  }

  /** Newlines leave the reader where it was. */
  lemma {:induction false} WalkOverNewlines(s: string, i: nat, j: nat, m: Mark)
    requires i <= j <= |s| && forall q :: i <= q < j ==> s[q] == '\n'
    ensures Walk(s, i, m) == Walk(s, j, m)
    decreases j - i
  {
    if i < j {
      if At(s, OPEN, i) {
        OpenerBytes(s, i);
      }
      if At(s, CLOSE, i) {
        CloserBytes(s, i);
      }
      WalkOverNewlines(s, i + 1, j, m);
      BrokenStays(s, i);
      BrokenStays(s, j);
    }
  }

  /** t is what s reads from n on. */
  ghost predicate Ahead(s: string, n: nat, t: string) {
    n <= |s| && t == s[n..]
  }

  /** What stands at a place is the same, seen from either end of what came before. */
  lemma SeenAhead(s: string, n: nat, t: string, i: nat)
    requires Ahead(s, n, t) && n + i < |s|
    ensures At(t, OPEN, i) <==> At(s, OPEN, n + i)
    ensures At(t, CLOSE, i) <==> At(s, CLOSE, n + i)
    ensures WholeTag(t, i) <==> WholeTag(s, n + i)
    ensures TagEnd(t, i) + n == TagEnd(s, n + i)
  {
    AtSuffix(s, OPEN, n, i);
    AtSuffix(s, CLOSE, n, i);
    EndOfSuffix(s, n, i);
  }

  /** Where the reader goes from i, and with which mark. */
  function Turn(s: string, i: nat, m: Mark): (next: (nat, Mark))
    requires i < |s| && m != Broken
    ensures next.1 == Broken || i < next.0 <= |s|
  {
    if At(s, OPEN, i) then (if m == Inside || !WholeTag(s, i) then (i, Broken) else (TagEnd(s, i), Inside))
    else if At(s, CLOSE, i) then (if m == Outside then (i, Broken) else (i + |CLOSE|, Outside))
    else (i + 1, m)
  }

  lemma WalkTurns(s: string, i: nat, m: Mark)
    requires i < |s| && m != Broken
    ensures Walk(s, i, m) == if Turn(s, i, m).1 == Broken then Broken else Walk(s, Turn(s, i, m).0, Turn(s, i, m).1)
  {
  }

  lemma TurnAhead(s: string, n: nat, t: string, i: nat, m: Mark)
    requires Ahead(s, n, t) && n + i < |s| && m != Broken
    ensures Turn(s, n + i, m).1 == Turn(t, i, m).1 && Turn(s, n + i, m).0 == n + Turn(t, i, m).0
  {
    SeenAhead(s, n, t, i);
  }

  /** The walk sees only what lies ahead. */
  lemma {:induction false} WalkAhead(s: string, n: nat, t: string, i: nat, m: Mark)
    requires Ahead(s, n, t) && n + i <= |s|
    ensures Walk(t, i, m) == Walk(s, n + i, m)
    decreases |s| - i
  {
    if n + i < |s| && m != Broken {
      TurnAhead(s, n, t, i, m);
      WalkTurns(t, i, m);
      WalkTurns(s, n + i, m);
      var (next, mark) := Turn(t, i, m);
      if mark != Broken {
        WalkAhead(s, n, t, next, mark);
      }
    }
  }

  lemma WalkOfSuffix(s: string, n: nat, i: nat, m: Mark)
    requires n + i <= |s|
    ensures Walk(s[n..], i, m) == Walk(s, n + i, m)
  {
    WalkAhead(s, n, s[n..], i, m);
  }

  lemma EndOfSuffix(s: string, n: nat, i: nat)
    requires n + i < |s|
    ensures WholeTag(s[n..], i) <==> WholeTag(s, n + i)
    ensures TagEnd(s[n..], i) + n == TagEnd(s, n + i)
  {
    IndexByteIsFirst(s, '>', n + i);
    IndexByteIsFirst(s[n..], '>', i);
    assert forall q :: n <= q < |s| ==> s[q] == s[n..][q - n];
  }

  // ---- One turn ----------------------------------------------------------------------

  /** The reader's mark at the end of what a turn keeps. */
  function MarkAt(rest: string, cut: nat): Mark
    requires cut <= |rest|
  {
    Walk(Kept(rest, cut), 0, Outside)
  }

  /** Reading on from the tail gives what reading the whole gives. */
  lemma WalkOverCut(rest: string, cut: nat)
    requires cut < |rest| && rest[cut] == '\n'
    ensures Walk(rest, 0, Outside) == Walk(rest[TailStart(rest, cut)..], 0, MarkAt(rest, cut))
  {
    TrimmedEndIsExact(rest, '\n', cut);
    TrimmedStartIsExact(rest, '\n', cut);
    WalkOverGap(rest, KeptEnd(rest, cut), TailStart(rest, cut));
  }

  lemma WalkOverGap(s: string, e: nat, b: nat)
    requires e < b <= |s| && forall q :: e <= q < b ==> s[q] == '\n'
    ensures Walk(s, 0, Outside) == Walk(s[b..], 0, Walk(s[..e], 0, Outside))
  {
    WalkStops(s, e, 0, Outside);
    WalkIntoSuffix(s, e, b, Walk(s[..e], 0, Outside));
  }

  lemma WalkIntoSuffix(s: string, e: nat, b: nat, m: Mark)
    requires e <= b <= |s| && forall q :: e <= q < b ==> s[q] == '\n'
    ensures Walk(s, e, m) == Walk(s[b..], 0, m)
  {
    WalkOverNewlines(s, e, b, m);
    WalkOfSuffix(s, b, 0, m);
  }

  lemma InsideHasOpener(s: string)
    requires Walk(s, 0, Outside) == Inside
    ensures Count(s, OPEN, 0) > Count(s, CLOSE, 0) && LastIndex(s, OPEN, |s|) >= 0
  {
    WalkCounts(s, 0, Outside);
    LastIndexIsLast(s, OPEN, |s|);
    if LastIndex(s, OPEN, |s|) < 0 {
      CountSkips(s, OPEN, 0, |s|);
    }
  }

  /** A string the walk leaves inside a quote has that quote's whole tag as its open one. */
  lemma InsideIsOpen(s: string)
    requires Walk(s, 0, Outside) == Inside
    ensures LastIndex(s, OPEN, |s|) >= 0 && WholeTag(s, LastIndex(s, OPEN, |s|))
    ensures OpenQuote(s) == Tag(s, LastIndex(s, OPEN, |s|)) != ""
  {
    InsideHasOpener(s);
    LastIndexIsLast(s, OPEN, |s|);
    WalkMeetsTags(s, 0, Outside, LastIndex(s, OPEN, |s|));
  }

  lemma OutsideIsClosed(s: string)
    requires Balanced(s)
    ensures OpenQuote(s) == "" && Count(s, OPEN, 0) == Count(s, CLOSE, 0)
  {
    WalkCounts(s, 0, Outside);
  }

  /** A whole tag in front puts the reader inside. */
  lemma WalkFromTag(t: string, tail: string)
    requires IsTag(t) && WholeTag(t, 0) && TagEnd(t, 0) == |t|
    ensures Walk(t + tail, 0, Outside) == Walk(tail, 0, Inside)
  {
    var s := t + tail;
    TagAtHead(t, tail);
    EndsAt(s, 0, |t|);
    assert forall q :: 0 <= q < |t| ==> s[q] == t[q];
    assert WholeTag(s, 0);
    assert s[|t|..] == tail;
    WalkOfSuffix(s, |t|, 0, Inside);
  }

  lemma NoOpener(s: string, i: nat)
    requires At(s, CLOSE, i)
    ensures !At(s, OPEN, i)
  {
    AtByte(s, CLOSE, i, 1);
    assert OPEN[1] != CLOSE[1];
    if At(s, OPEN, i) {
      AtByte(s, OPEN, i, 1);
    }
  }

  /** A closer at the end takes the reader out. */
  lemma WalkToCloser(s: string, m: Mark)
    requires Walk(s, 0, m) == Inside
    ensures Walk(s + CLOSE, 0, m) == Outside
  {
    var t := s + CLOSE;
    assert t[..|s|] == s;
    assert t[|s|..|s| + |CLOSE|] == CLOSE;
    assert At(t, CLOSE, |s|);
    CloserBytes(t, |s|);
    WalkStops(t, |s|, 0, m);
    NoOpener(t, |s|);
  }

  /** The tag a turn puts back takes the reader in again. */
  lemma ReopenedTag(rest: string, cut: nat)
    requires cut <= |rest| && MarkAt(rest, cut) == Inside
    ensures IsTag(OpenQuote(Kept(rest, cut))) && WholeTag(OpenQuote(Kept(rest, cut)), 0)
    ensures TagEnd(OpenQuote(Kept(rest, cut)), 0) == |OpenQuote(Kept(rest, cut))|
  {
    var kept := Kept(rest, cut);
    InsideIsOpen(kept);
    var j := OpenQuoteStands(rest, cut);
    WholeSlice(kept, LastIndex(kept, OPEN, |kept|));
  }

  lemma WholeSlice(s: string, i: nat)
    requires i <= |s| && WholeTag(s, i)
    ensures WholeTag(Tag(s, i), 0) && TagEnd(Tag(s, i), 0) == |Tag(s, i)|
  {
    IndexByteIsFirst(s, '>', i);
    var t := Tag(s, i);
    assert forall q :: 0 <= q < |t| ==> t[q] == s[i + q];
    EndsAt(t, 0, |t|);
  }

  /** A turn that cuts at a newline leaves a balanced chunk and a balanced remainder. */
  lemma TurnIsBalanced(rest: string, cut: nat)
    requires cut < |rest| && rest[cut] == '\n' && Balanced(rest)
    ensures Balanced(Chunk(rest, cut)) && Balanced(Rest(rest, cut))
  {
    var kept, tail := Kept(rest, cut), rest[TailStart(rest, cut)..];
    WalkOverCut(rest, cut);
    BrokenStays(tail, 0);
    if MarkAt(rest, cut) == Inside {
      InsideIsOpen(kept);
      WalkToCloser(kept, Outside);
      ReopenedTag(rest, cut);
      WalkFromTag(OpenQuote(kept), tail);
    } else {
      OutsideIsClosed(kept);
      assert kept + "" == kept && "" + tail == tail;
    }
  }

  // ---- Whole runs --------------------------------------------------------------------

  /** Every cut of the run falls at a newline. */
  predicate CutsAtNewlines(rest: string, budget: nat)
    requires Ends(rest, budget)
    decreases |rest|
  {
    |rest| <= budget || (Break(rest, budget) > 0 && CutsAtNewlines(Next(rest, budget), budget))
  }

  lemma {:induction false} ChunksAreBalanced(rest: string, budget: nat)
    requires Ends(rest, budget) && Balanced(rest) && CutsAtNewlines(rest, budget)
    ensures forall c :: c in Chunks(rest, budget) ==> Balanced(c)
    decreases |rest|
  {
    if |rest| > budget {
      BreakIsNewline(rest, budget);
      TurnIsBalanced(rest, Cut(rest, budget));
      ChunksAreBalanced(Next(rest, budget), budget);
    }
  }

  /** No stretch of more than `width` bytes is without a newline. */
  ghost predicate ShortLines(s: string, width: nat) {
    forall i: nat :: i + width < |s| ==> HasNewline(s, i, width)
  }

  ghost predicate HasNewline(s: string, i: nat, width: nat) {
    exists q :: i <= q <= i + width && q < |s| && s[q] == '\n'
  }

  /** A newline in the budget, past the head, is a place to cut. */
  lemma NewlineIsBreak(s: string, budget: nat, q: nat)
    requires budget <= |s| && 0 < q < budget && s[q] == '\n'
    ensures Break(s, budget) > 0
  {
    LastIndexIsLast(s, "\n", budget);
    assert At(s, "\n", q);
  }

  lemma ShortLinesBreak(rest: string, n: nat, s: string, width: nat, budget: nat)
    requires n <= |rest| && |rest| - n <= |s| && rest[n..] == s[|s| - (|rest| - n)..]
    requires ShortLines(s, width) && n + width + 2 <= budget < |rest|
    ensures Break(rest, budget) > 0
  {
    var d := |s| - (|rest| - n);
    assert HasNewline(s, d + 1, width);
    var q :| d + 1 <= q <= d + 1 + width && q < |s| && s[q] == '\n';
    assert rest[n..][q - d] == s[d..][q - d];
    NewlineIsBreak(rest, budget, q - d + n);
  }

  lemma NextIsTagAndSuffix(rest: string, n: nat, s: string, cut: nat)
    requires n <= |rest| && |rest| - n <= |s| && rest[n..] == s[|s| - (|rest| - n)..]
    requires n <= cut <= |rest|
    ensures var m := |OpenQuote(Kept(rest, cut))|;
            |Rest(rest, cut)| - m <= |s| && Rest(rest, cut)[m..] == s[|s| - (|Rest(rest, cut)| - m)..]
  {
    var m, b := |OpenQuote(Kept(rest, cut))|, TailStart(rest, cut);
    assert Rest(rest, cut)[m..] == rest[b..] == rest[n..][b - n..];
  }

  /** No cut falls in the tag put back. */
  lemma BreakSparesHead(rest: string, n: nat, budget: nat)
    requires Balanced(rest) && HeadIsTag(rest, n) && budget <= |rest| && Break(rest, budget) > 0
    ensures n <= Break(rest, budget)
  {
    BreakIsNewline(rest, budget);
    if n > 0 {
      OpenerBytes(rest, 0);
      WalkMeetsTags(rest, 0, Outside, 0);
    }
  }

  lemma OpenQuoteWithin(rest: string, cut: nat, k: nat)
    requires cut <= |rest| && TagsWithin(rest, k)
    ensures |OpenQuote(Kept(rest, cut))| <= k
  {
    if OpenQuote(Kept(rest, cut)) != "" {
      var j := OpenQuoteStands(rest, cut);
    }
  }

  /** A cut at a newline drops it, so the remainder gets shorter. */
  lemma BreakShrinks(rest: string, budget: nat)
    requires budget < |rest| && Break(rest, budget) > 0
    ensures |Next(rest, budget)| < |rest|
  {
    BreakIsNewline(rest, budget);
    TrimmedStartIsExact(rest, '\n', Cut(rest, budget));
    ShrinksOrStays(rest, Cut(rest, budget));
  }

  /** What a run over short lines keeps: a whole tag of at most k bytes, then a suffix. */
  ghost predicate OnTrack(rest: string, n: nat, s: string, k: nat) {
    n <= |rest| && |rest| - n <= |s| && rest[n..] == s[|s| - (|rest| - n)..]
    && Balanced(rest) && HeadIsTag(rest, n) && n <= k && TagsWithin(rest, k)
  }

  lemma StaysOnTrack(rest: string, n: nat, s: string, width: nat, k: nat, budget: nat)
    requires OnTrack(rest, n, s, k) && ShortLines(s, width) && k + width + 2 <= budget < |rest|
    ensures Break(rest, budget) > 0
    ensures OnTrack(Next(rest, budget), |OpenQuote(Kept(rest, Cut(rest, budget)))|, s, k)
  {
    var cut := Cut(rest, budget);
    ShortLinesBreak(rest, n, s, width, budget);
    BreakSparesHead(rest, n, budget);
    BreakIsNewline(rest, budget);
    NextIsTagAndSuffix(rest, n, s, cut);
    OpenQuoteWithin(rest, cut, k);
    NextHeadIsTag(rest, cut);
    TurnIsBalanced(rest, cut);
    TagsStay(rest, cut, k);
  }

  /** Lines short enough for the budget, a tag before them, are cut at newlines only. */
  lemma {:induction false} ShortLinesEnd(rest: string, n: nat, s: string, width: nat, k: nat, budget: nat)
    requires OnTrack(rest, n, s, k) && ShortLines(s, width) && k + width + 2 <= budget
    ensures Ends(rest, budget) && CutsAtNewlines(rest, budget)
    decreases |rest|
  {
    if |rest| > budget {
      StaysOnTrack(rest, n, s, width, k, budget);
      BreakShrinks(rest, budget);
      ShortLinesEnd(Next(rest, budget), |OpenQuote(Kept(rest, Cut(rest, budget)))|, s, width, k, budget);
    }
  }

  /** Well-formed HTML whose lines fit beside a tag and a closer splits into well-formed
      chunks, none too long, and each with as many closers as openers. */
  lemma ShortLinesStayBalanced(s: string, limit: nat, k: nat, width: nat)
    requires Balanced(s) && TagsWithin(s, k) && ShortLines(s, width)
    requires k + width + 2 + |CLOSE| <= limit
    ensures Finishes(s, limit)
    ensures forall c :: c in Split(s, limit) ==>
              Balanced(c) && Count(c, OPEN, 0) == Count(c, CLOSE, 0) && |c| <= limit
  {
    if Loops(s, limit) {
      assert s[0..] == s;
      ShortLinesEnd(s, 0, s, width, k, Budget(s, limit));
      ChunksAreBalanced(s, Budget(s, limit));
    }
    SplitFits(s, limit);
    forall c | c in Split(s, limit)
      ensures Balanced(c) && Count(c, OPEN, 0) == Count(c, CLOSE, 0)
    {
      OutsideIsClosed(c);
    }
  }
}
