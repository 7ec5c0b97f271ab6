/**
 When the splitter's loop ends: a tag put back in front of the remainder has to leave room
 for progress, which bounds the length of the tags, not the length of the text.
 */
module SplitterTermination {
  import opened ByteStrings
  import opened HtmlSplitter

  ghost predicate TagsWithin(s: string, k: int) {
    forall i: nat :: At(s, OPEN, i) ==> |Tag(s, i)| <= k
  }

  ghost predicate OneLineTags(s: string) {
    forall i: nat :: At(s, OPEN, i) ==> '\n' !in Tag(s, i)
  }

  ghost predicate Quoteless(s: string) {
    forall i :: !At(s, OPEN, i)
  }

  /** A stretch of a string has no tag the string does not have. */
  lemma TagsOfSlice(s: string, i: nat, e: nat, k: nat)
    requires i <= e <= |s|
    ensures TagsWithin(s, k) ==> TagsWithin(s[i..e], k)
    ensures OneLineTags(s) ==> OneLineTags(s[i..e])
  {
    forall q: nat | At(s[i..e], OPEN, q)
      ensures At(s, OPEN, i + q) && (Tag(s[i..e], q) == "" || Tag(s[i..e], q) == Tag(s, i + q))
    {
      AtSlice(s, OPEN, i, e, q);
      assert s[i..e] == s[..e][i..];
      TagOfSuffix(s[..e], i, q);
      if Tag(s[..e], i + q) != "" {
        TagOfPrefix(s, e, i + q);
      }
    }
  }

  // ---- Tags of the remainder are tags of the input -----------------------------------

  /** A string of which an opener's tag is all: one opener, at the head, one '>', at the end. */
  ghost predicate IsTag(t: string) {
    |t| > |OPEN| && t[|t| - 1] == '>' && At(t, OPEN, 0)
    && (forall q :: q > 0 ==> !At(t, OPEN, q))
    && (forall q :: 0 <= q < |t| - 1 ==> t[q] != '>')
  }

  lemma EndsAt(s: string, i: nat, e: nat)
    requires i < e <= |s| && s[e - 1] == '>' && forall q :: i <= q < e - 1 ==> s[q] != '>'
    ensures TagEnd(s, i) == e
  {
    IndexByteIsFirst(s, '>', i);
  }

  lemma TagOfSuffix(s: string, n: nat, i: nat)
    requires n + i <= |s|
    ensures Tag(s[n..], i) == Tag(s, n + i)
  {
    IndexByteIsFirst(s, '>', n + i);
    IndexByteIsFirst(s[n..], '>', i);
    assert forall q :: n <= q < |s| ==> s[q] == s[n..][q - n];
    assert TagEnd(s, n + i) == n + TagEnd(s[n..], i);
  }

  lemma TagOfPrefix(s: string, n: nat, i: nat)
    requires i <= n <= |s| && Tag(s[..n], i) != ""
    ensures Tag(s, i) == Tag(s[..n], i)
  {
    IndexByteIsFirst(s[..n], '>', i);
    var e := TagEnd(s[..n], i);
    EndsAt(s, i, e);
    assert s[..n][i..e] == s[i..e];
  }

  /** Where the last unclosed tag stands in the remainder it was found in. */
  lemma OpenQuoteStands(rest: string, cut: nat) returns (i: nat)
    requires cut <= |rest| && OpenQuote(Kept(rest, cut)) != ""
    ensures At(rest, OPEN, i) && Tag(rest, i) == OpenQuote(Kept(rest, cut))
    ensures IsTag(Tag(rest, i))
  {
    var kept := Kept(rest, cut);
    i := LastIndex(kept, OPEN, |kept|);
    LastIndexIsLast(kept, OPEN, |kept|);
    TagOfPrefix(rest, |kept|, i);
    LastTagIsTag(kept, i);
    AtPrefix(rest, OPEN, |kept|, i);
  }

  lemma LastTagIsTag(s: string, i: nat)
    requires At(s, OPEN, i) && Tag(s, i) != "" && forall q :: i < q <= |s| - |OPEN| ==> !At(s, OPEN, q)
    ensures IsTag(Tag(s, i))
  {
    var t, e := Tag(s, i), TagEnd(s, i);
    IndexByteIsFirst(s, '>', i);
    TagHasOpener(s, i);
    AtPrefix(s, OPEN, e, i);
    forall q | q >= 0
      ensures At(t, OPEN, q) <==> i + q + |OPEN| <= e && At(s, OPEN, i + q)
    {
      AtSlice(s, OPEN, i, e, q);
    }
  }

  lemma AtSlice(s: string, p: string, i: nat, e: nat, q: nat)
    requires i <= e <= |s|
    ensures At(s[i..e], p, q) <==> i + q + |p| <= e && At(s, p, i + q)
  {
    assert s[i..e] == s[..e][i..];
    AtSuffix(s[..e], p, i, q);
    if i + q + |p| <= e {
      AtPrefix(s, p, e, i + q);
    }
  }

  /** '<' only begins an opener, and neither '>' nor a newline occurs in it. */
  lemma OpenerBytes(s: string, i: nat)
    requires At(s, OPEN, i)
    ensures s[i] == '<'
    ensures forall q :: i <= q < i + |OPEN| ==> s[q] != '>' && s[q] != '\n' && (q > i ==> s[q] != '<')
  {
    forall q | i <= q < i + |OPEN|
      ensures s[q] == OPEN[q - i]
    {
      AtByte(s, OPEN, i, q - i);
    }
  }

  /** No '>' occurs in an opener, so a tag ends after it. */
  lemma TagHasOpener(s: string, i: nat)
    requires At(s, OPEN, i) && Tag(s, i) != ""
    ensures TagEnd(s, i) > i + |OPEN|
  {
    IndexByteIsFirst(s, '>', i);
    OpenerBytes(s, i);
  }

  /** No opener begins inside a reopened tag but the one at its head. */
  lemma OnlyAtHead(t: string, tail: string, i: nat)
    requires IsTag(t) && i < |t| && At(t + tail, OPEN, i)
    ensures i == 0 && Tag(t + tail, 0) == t
  {
    var s := t + tail;
    assert s[..|t|] == t;
    EndsAt(s, 0, |t|);
    if i + |OPEN| <= |t| {
      AtPrefix(s, OPEN, |t|, i);
    } else {
      OpenerBytes(s, i);
    }
  }

  lemma SameTag(s: string, n: nat, r: string, m: nat, i: nat)
    requires n <= |s| && m <= i && At(r, OPEN, i) && s[n..] == r[m..]
    ensures At(s, OPEN, n + i - m) && Tag(s, n + i - m) == Tag(r, i)
  {
    AtSuffix(s, OPEN, n, i - m);
    AtSuffix(r, OPEN, m, i - m);
    TagOfSuffix(s, n, i - m);
    TagOfSuffix(r, m, i - m);
  }

  lemma TagOfParts(rest: string, b: nat, open: string, i: nat)
    requires b <= |rest| && |open| <= i && At(open + rest[b..], OPEN, i)
    ensures At(rest, OPEN, b + i - |open|) && Tag(rest, b + i - |open|) == Tag(open + rest[b..], i)
  {
    var next := open + rest[b..];
    assert next[|open|..] == rest[b..];
    SameTag(rest, b, next, |open|, i);
  }

  lemma TagAtHead(t: string, tail: string)
    requires IsTag(t)
    ensures At(t + tail, OPEN, 0)
  {
    assert (t + tail)[..|t|] == t;
    AtPrefix(t + tail, OPEN, |t|, 0);
  }

  /** Every tag of the next remainder already stood in this one. */
  lemma TagSurvives(rest: string, cut: nat, i: nat) returns (j: nat)
    requires cut <= |rest| && At(Rest(rest, cut), OPEN, i)
    ensures At(rest, OPEN, j) && Tag(rest, j) == Tag(Rest(rest, cut), i)
  {
    j := 0;
    if OpenQuote(Kept(rest, cut)) != "" {
      j := OpenQuoteStands(rest, cut);
    }
    j := TagOfEither(rest, TailStart(rest, cut), OpenQuote(Kept(rest, cut)), i, j);
  }

  lemma TagOfEither(rest: string, b: nat, open: string, i: nat, at: nat) returns (j: nat)
    requires b <= |rest| && At(open + rest[b..], OPEN, i)
    requires open != "" ==> At(rest, OPEN, at) && Tag(rest, at) == open && IsTag(open)
    ensures At(rest, OPEN, j) && Tag(rest, j) == Tag(open + rest[b..], i)
  {
    if i >= |open| {
      j := b + i - |open|;
      TagOfParts(rest, b, open, i);
    } else {
      j := at;
      OnlyAtHead(open, rest[b..], i);
    }
  }

  lemma TagsStay(rest: string, cut: nat, k: int)
    requires cut <= |rest|
    ensures TagsWithin(rest, k) ==> TagsWithin(Rest(rest, cut), k)
    ensures OneLineTags(rest) ==> OneLineTags(Rest(rest, cut))
    ensures Quoteless(rest) ==> Quoteless(Rest(rest, cut))
  {
    var next := Rest(rest, cut);
    forall i: nat | At(next, OPEN, i)
      ensures exists j: nat :: At(rest, OPEN, j) && Tag(rest, j) == Tag(next, i)
    {
      var j := TagSurvives(rest, cut, i);
    }
  }

  // ---- Bytes ------------------------------------------------------------------------

  lemma SparseSlice(s: string, i: nat, e: nat)
    requires i <= e <= |s| && Sparse(s)
    ensures Sparse(s[i..e])
  {
    forall q
      ensures !FourInARow(s[i..e], q)
    {
      assert !FourInARow(s, i + q);
    }
  }

  lemma SparseJoin(t: string, tail: string)
    requires Sparse(t) && Sparse(tail) && (t != "" ==> t[|t| - 1] == '>')
    ensures Sparse(t + tail)
  {
    forall q
      ensures !FourInARow(t + tail, q)
    {
      assert !FourInARow(t, q) && !FourInARow(tail, q - |t|);
    }
  }

  /** A reopened tag ends in an ASCII byte, so no long run of continuation bytes appears. */
  lemma SparseStays(rest: string, cut: nat)
    requires cut <= |rest| && Sparse(rest)
    ensures Sparse(Rest(rest, cut))
  {
    var kept := Kept(rest, cut);
    SparseSuffix(rest, TailStart(rest, cut));
    SparseSlice(rest, 0, |kept|);
    assert rest[0..|kept|] == kept;
    OpenQuoteIsSparse(kept);
    SparseJoin(OpenQuote(kept), rest[TailStart(rest, cut)..]);
  }

  lemma OpenQuoteIsSparse(s: string)
    requires Sparse(s)
    ensures Sparse(OpenQuote(s))
    ensures OpenQuote(s) != "" ==> OpenQuote(s)[|OpenQuote(s)| - 1] == '>'
  {
    if OpenQuote(s) != "" {
      var i := LastIndex(s, OPEN, |s|);
      IndexByteIsFirst(s, '>', i);
      SparseSlice(s, i, TagEnd(s, i));
    }
  }

  lemma SparseSuffix(s: string, i: nat)
    requires i <= |s| && Sparse(s)
    ensures Sparse(s[i..])
  {
    SparseSlice(s, i, |s|);
    assert s[i..|s|] == s[i..];
  }

  lemma BackupIsNear(s: string, budget: nat)
    requires budget <= |s| && Sparse(s) && budget > 3
    ensures Backup(s, budget) >= budget - 3
  {
    BackupIsNearest(s, budget);
    assert !FourInARow(s, budget - 3);
    assert Boundary(s, budget - 3) || Boundary(s, budget - 2) || Boundary(s, budget - 1) || Boundary(s, budget);
  }

  // ---- Exactly when ------------------------------------------------------------------

  /** A cut lies far enough along for every tag to be shorter, or at a newline, which goes. */
  lemma TurnShrinks(rest: string, budget: nat, k: nat)
    requires Sparse(rest) && TagsWithin(rest, k) && k + 3 < budget < |rest|
    ensures |Rest(rest, Cut(rest, budget))| < |rest|
  {
    var cut := Cut(rest, budget);
    ShrinksOrStays(rest, cut);
    if OpenQuote(Kept(rest, cut)) != "" {
      var j := OpenQuoteStands(rest, cut);
    }
    if Break(rest, budget) > 0 {
      BreakIsNewline(rest, budget);
      TrimmedStartIsExact(rest, '\n', cut);
    } else {
      BackupIsNear(rest, budget);
    }
  }

  /** Where every tag leaves room for one more character, the loop ends. */
  lemma {:induction false} ShortTagsEnd(rest: string, budget: nat, k: nat)
    requires Sparse(rest) && TagsWithin(rest, k) && k + 3 < budget
    ensures Ends(rest, budget)
    decreases |rest|
  {
    if |rest| > budget {
      var cut := Cut(rest, budget);
      TurnShrinks(rest, budget, k);
      SparseStays(rest, cut);
      TagsStay(rest, cut, k);
      ShortTagsEnd(Rest(rest, cut), budget, k);
    }
  }

  function Filler(n: nat): (s: string)
    ensures |s| == n && forall i :: 0 <= i < n ==> s[i] == 'x'
  {
    if n == 0 then "" else "x" + Filler(n - 1)
  }

  /** A tag of the given length. */
  function LongTag(k: nat): (t: string)
    requires k > |OPEN|
    ensures |t| == k
  {
    OPEN + Filler(k - |OPEN| - 1) + ">"
  }

  /** U+1F4AC, four bytes. */
  function SpeechBalloon(): string {
    [0xF0 as char, 0x9F as char, 0x92 as char, 0xAC as char]
  }

  /** A tag that fills a chunk up to the last boundary, and a character that does not fit. */
  function Wedge(budget: nat, pad: nat): string
    requires budget >= 15
  {
    LongTag(budget - 3) + SpeechBalloon() + Filler(pad)
  }

  lemma LongTagIsTag(k: nat)
    requires k > |OPEN|
    ensures IsTag(LongTag(k)) && '\n' !in LongTag(k)
  {
    var t := LongTag(k);
    assert t[..|OPEN|] == OPEN;
    assert forall q :: |OPEN| <= q < k - 1 ==> t[q] == 'x';
    assert forall q :: 0 <= q < |OPEN| ==> t[q] == OPEN[q];
    forall q | q > 0
      ensures !At(t, OPEN, q)
    {
      if At(t, OPEN, q) {
        OpenerBytes(t, q);
      }
    }
  }

  /** A lone tag is left open. */
  lemma TagIsLeftOpen(t: string)
    requires IsTag(t) && forall q :: 0 < q < |t| ==> t[q] != '/'
    ensures OpenQuote(t) == t
  {
    forall q
      ensures !At(t, CLOSE, q)
    {
      if At(t, CLOSE, q) {
        AtByte(t, CLOSE, q, 1);
      }
    }
    CountSkips(t, CLOSE, 0, |t|);
    LastIndexIsLast(t, OPEN, |t|);
    EndsAt(t, 0, |t|);
    assert t[0..|t|] == t;
  }

  /** The wedge is one turn's fixed point. */
  lemma WedgeStays(budget: nat, pad: nat)
    requires budget >= 15
    ensures Rest(Wedge(budget, pad), Cut(Wedge(budget, pad), budget)) == Wedge(budget, pad)
  {
    var s, t := Wedge(budget, pad), LongTag(budget - 3);
    LongTagIsTag(budget - 3);
    TagIsLeftOpen(t);
    assert s[budget - 3] == 0xF0 as char && s[budget - 2] == 0x9F as char && s[budget - 1] == 0x92 as char
           && s[budget] == 0xAC as char;
    assert s[..budget - 3] == t;
    forall q | 0 <= q < budget
      ensures s[q] != '\n'
    {
      assert q < budget - 3 ==> s[q] == t[q];
    }
    NoBreak(s, budget);
    assert Backup(s, budget) == Backup(s, budget - 1) == Backup(s, budget - 2) == Backup(s, budget - 3) == budget - 3;
    assert s[budget - 4] == t[budget - 4];
    assert Kept(s, budget - 3) == t;
    assert t + s[budget - 3..] == s;
  }

  lemma NoBreak(s: string, budget: nat)
    requires budget <= |s| && forall q :: 0 <= q < budget ==> s[q] != '\n'
    ensures Break(s, budget) <= 0
  {
    LastIndexIsLast(s, "\n\n", budget);
    LastIndexIsLast(s, "\n", budget);
    if Break(s, budget) > 0 {
      BreakIsNewline(s, budget);
    }
  }

  lemma {:induction false} PlainIsUtf8(s: string, i: nat, n: nat)
    requires i <= n <= |s| && ValidFrom(s, n) && forall q :: i <= q < n ==> s[q] as int < 128
    ensures ValidFrom(s, i)
    decreases n - i
  {
    if i < n {
      PlainIsUtf8(s, i + 1, n);
    }
  }

  lemma WedgeIsUtf8(budget: nat, pad: nat)
    requires budget >= 15
    ensures ValidUtf8(Wedge(budget, pad))
  {
    var s, t, n := Wedge(budget, pad), LongTag(budget - 3), budget - 3;
    LongTagIsPlain(n);
    PlainIsUtf8(s, n + 4, |s|);
    assert s[n] == 0xF0 as char && s[n + 1] == 0x9F as char && s[n + 2] == 0x92 as char && s[n + 3] == 0xAC as char;
    assert Width(s, n) == 4;
    assert forall q :: 0 <= q < n ==> s[q] == t[q];
    PlainIsUtf8(s, 0, n);
  }

  lemma LongTagIsPlain(k: nat)
    requires k > |OPEN|
    ensures forall i :: 0 <= i < k ==> LongTag(k)[i] as int < 128
  {
  }

  /** The wedge's only tag is the long one. */
  lemma WedgeTags(budget: nat, pad: nat)
    requires budget >= 15
    ensures TagsWithin(Wedge(budget, pad), budget - 3) && LastIndex(Wedge(budget, pad), OPEN, |Wedge(budget, pad)|) >= 0
  {
    var s, t, n := Wedge(budget, pad), LongTag(budget - 3), budget - 3;
    LongTagIsTag(n);
    assert s == t + s[n..];
    TagAtHead(t, s[n..]);
    forall i: nat | At(s, OPEN, i)
      ensures |Tag(s, i)| <= n
    {
      if i < n {
        OnlyAtHead(t, s[n..], i);
      } else {
        OpenerBytes(s, i);
      }
    }
    assert At(s, OPEN, 0);
    LastIndexIsLast(s, OPEN, |s|);
  }

  /** Splitting to a limit ends on every UTF-8 string whose tags are at most k bytes long
      exactly when a closer, a tag and one more character fit the limit together. */
  lemma SplitterFinishesExactlyWhen(limit: nat, k: nat)
    requires limit >= 15 + |CLOSE|
    ensures (forall s :: ValidUtf8(s) && TagsWithin(s, k) ==> Finishes(s, limit)) <==> k + 3 + |CLOSE| < limit
  {
    if k + 3 + |CLOSE| < limit {
      forall s | ValidUtf8(s) && TagsWithin(s, k)
        ensures Finishes(s, limit)
      {
        ValidIsSparse(s);
        ShortTagsFinish(s, limit, k);
      }
    } else {
      var s := WedgeLoops(limit);
    }
  }

  lemma WedgeLoops(limit: nat) returns (s: string)
    requires limit >= 15 + |CLOSE|
    ensures ValidUtf8(s) && TagsWithin(s, limit - |CLOSE| - 3) && !Finishes(s, limit)
  {
    s := Wedge(limit - |CLOSE|, |CLOSE|);
    WedgeIsUtf8(limit - |CLOSE|, |CLOSE|);
    WedgeTags(limit - |CLOSE|, |CLOSE|);
    WedgeUnfinished(limit);
  }

  lemma WedgeUnfinished(limit: nat)
    requires limit >= 15 + |CLOSE|
    ensures !Finishes(Wedge(limit - |CLOSE|, |CLOSE|), limit)
  {
    WedgeTags(limit - |CLOSE|, |CLOSE|);
    WedgeNeverEnds(limit - |CLOSE|, |CLOSE|);
    Unfinished(Wedge(limit - |CLOSE|, |CLOSE|), limit);
  }

  lemma Unfinished(s: string, limit: nat)
    requires |s| > limit > |CLOSE| && LastIndex(s, OPEN, |s|) >= 0 && !Ends(s, limit - |CLOSE|)
    ensures !Finishes(s, limit)
  {
  }

  lemma WedgeNeverEnds(budget: nat, pad: nat)
    requires budget >= 15
    ensures !Ends(Wedge(budget, pad), budget)
  {
    WedgeStays(budget, pad);
  }

  lemma ShortTagsFinish(s: string, limit: nat, k: nat)
    requires Sparse(s) && TagsWithin(s, k) && k + 3 + |CLOSE| < limit
    ensures Finishes(s, limit)
  {
    if Loops(s, limit) {
      ShortTagsEnd(s, Budget(s, limit), k);
    }
  }
}
