/**
 What the chunks hold: the input itself, in order, less newlines at the cuts and plus the
 tags that close and reopen a quote there.
 */
module SplitterContent {
  import opened ByteStrings
  import opened HtmlSplitter
  import opened SplitterTermination

  /** One chunk taken apart: the tag put back at its head, the input's text, the closer added
      at its end, and the newlines of the input dropped after it. */
  datatype Piece = Piece(reopened: string, text: string, closer: string, gap: string) {
    function Chunk(): string {
      reopened + text + closer
    }
  }

  function Min(a: nat, b: nat): nat {
    if a < b then a else b
  }

  function Max(a: nat, b: nat): nat {
    if a < b then b else a
  }

  function PieceAt(rest: string, cut: nat, ins: nat): Piece
    requires cut <= |rest| && ins <= |rest|
  {
    var e, b := KeptEnd(rest, cut), TailStart(rest, cut);
    Piece(rest[..Min(ins, e)], rest[Min(ins, e)..e], Closer(Kept(rest, cut)), rest[Max(ins, e)..Max(ins, b)])
  }

  /** How much of the next remainder's head is not the input's. */
  function Owed(rest: string, cut: nat, ins: nat): (n: nat)
    requires cut <= |rest| && ins <= |rest|
    ensures n <= |Rest(rest, cut)|
  {
    |OpenQuote(Kept(rest, cut))| + (if ins > TailStart(rest, cut) then ins - TailStart(rest, cut) else 0)
  }

  /** The pieces of a remainder whose first `ins` bytes were put there. */
  function Pieces(rest: string, ins: nat, budget: nat): seq<Piece>
    requires ins <= |rest| && Ends(rest, budget)
    decreases |rest|
  {
    if |rest| <= budget then
      if rest == "" then [] else [Piece(rest[..ins], rest[ins..], "", "")]
    else
      var cut := Cut(rest, budget);
      [PieceAt(rest, cut, ins)] + Pieces(Next(rest, budget), Owed(rest, cut, ins), budget)
  }

  function Content(ps: seq<Piece>): string {
    if ps == [] then "" else ps[0].text + ps[0].gap + Content(ps[1..])
  }

  function Shown(ps: seq<Piece>): seq<string> {
    if ps == [] then [] else [ps[0].Chunk()] + Shown(ps[1..])
  }

  ghost predicate OnlyNewlines(s: string) {
    forall q :: 0 <= q < |s| ==> s[q] == '\n'
  }

  ghost predicate GapsAreNewlines(ps: seq<Piece>) {
    forall i :: 0 <= i < |ps| ==> OnlyNewlines(ps[i].gap)
  }

  lemma PieceIsChunk(rest: string, cut: nat, ins: nat)
    requires cut <= |rest| && ins <= |rest|
    ensures PieceAt(rest, cut, ins).Chunk() == Chunk(rest, cut)
  {
    var e := KeptEnd(rest, cut);
    assert rest[..Min(ins, e)] + rest[Min(ins, e)..e] == rest[..e];
  }

  lemma {:induction false} PiecesAreChunks(rest: string, ins: nat, budget: nat)
    requires ins <= |rest| && Ends(rest, budget)
    ensures Shown(Pieces(rest, ins, budget)) == Chunks(rest, budget)
    decreases |rest|
  {
    if |rest| <= budget {
      assert rest[..ins] + rest[ins..] + "" == rest;
    } else {
      var cut := Cut(rest, budget);
      PieceIsChunk(rest, cut, ins);
      PiecesAreChunks(Next(rest, budget), Owed(rest, cut, ins), budget);
      ShownCons(PieceAt(rest, cut, ins), Pieces(Next(rest, budget), Owed(rest, cut, ins), budget));
    }
  }

  lemma ShownCons(p: Piece, ps: seq<Piece>)
    ensures Shown([p] + ps) == [p.Chunk()] + Shown(ps)
    ensures Content([p] + ps) == p.text + p.gap + Content(ps)
    ensures GapsAreNewlines(ps) && OnlyNewlines(p.gap) ==> GapsAreNewlines([p] + ps)
  {
    assert ([p] + ps)[1..] == ps;
  }

  lemma PieceKeepsContent(rest: string, cut: nat, ins: nat)
    requires cut <= |rest| && ins <= |rest|
    ensures PieceAt(rest, cut, ins).text + PieceAt(rest, cut, ins).gap + Rest(rest, cut)[Owed(rest, cut, ins)..]
            == rest[ins..]
  {
    var e, b := KeptEnd(rest, cut), TailStart(rest, cut);
    TailAfter(OpenQuote(Kept(rest, cut)), rest, b, ins);
    ThreeParts(rest, ins, e, b);
  }

  lemma GapIsNewlines(rest: string, cut: nat, ins: nat)
    requires cut <= |rest| && ins <= |rest|
    ensures OnlyNewlines(PieceAt(rest, cut, ins).gap)
  {
    TrimmedEndIsExact(rest, '\n', cut);
    TrimmedStartIsExact(rest, '\n', cut);
  }

  lemma TailAfter(open: string, rest: string, b: nat, ins: nat)
    requires b <= |rest| && ins <= |rest|
    ensures (open + rest[b..])[|open| + (if ins > b then ins - b else 0)..] == rest[Max(ins, b)..]
  {
  }

  lemma ThreeParts(s: string, ins: nat, e: nat, b: nat)
    requires e <= b <= |s| && ins <= |s|
    ensures s[Min(ins, e)..e] + s[Max(ins, e)..Max(ins, b)] + s[Max(ins, b)..] == s[ins..]
  {
    if ins <= e {
      assert s[ins..e] + s[e..b] + s[b..] == s[ins..];
    } else {
      assert s[e..e] == "";
      assert s[ins..Max(ins, b)] + s[Max(ins, b)..] == s[ins..];
    }
  }

  /** Texts and gaps, one after the other, are what the remainder held of the input. */
  lemma {:induction false} PiecesKeepContent(rest: string, ins: nat, budget: nat)
    requires ins <= |rest| && Ends(rest, budget)
    ensures Content(Pieces(rest, ins, budget)) == rest[ins..]
    ensures GapsAreNewlines(Pieces(rest, ins, budget))
    decreases |rest|
  {
    if |rest| > budget {
      var cut := Cut(rest, budget);
      PiecesKeepContent(Next(rest, budget), Owed(rest, cut, ins), budget);
      PieceKeepsContent(rest, cut, ins);
      GapIsNewlines(rest, cut, ins);
      ShownCons(PieceAt(rest, cut, ins), Pieces(Next(rest, budget), Owed(rest, cut, ins), budget));
    }
  }

  // ---- What was put in ---------------------------------------------------------------

  /** Each piece begins with the tag its predecessor left open, which a closer ended, and
      with nothing when it left none open. */
  ghost predicate Chained(ps: seq<Piece>, owed: string) {
    if ps == [] then owed == ""
    else
      var open := if |ps| == 1 && ps[0].closer == "" then "" else OpenQuote(owed + ps[0].text);
      ps[0].reopened == owed
      && ps[0].closer == (if open == "" then "" else CLOSE)
      && Chained(ps[1..], open)
  }

  /** The bytes put back are one tag, whole. */
  ghost predicate HeadIsTag(rest: string, ins: nat) {
    ins <= |rest| && (ins > 0 ==> At(rest, OPEN, 0) && TagEnd(rest, 0) == ins)
  }

  /** Tags of one line that leave room are never cut. */
  lemma CutSparesHead(rest: string, ins: nat, budget: nat, k: nat)
    requires Sparse(rest) && TagsWithin(rest, k) && OneLineTags(rest) && k + 3 < budget < |rest|
    requires HeadIsTag(rest, ins)
    ensures ins <= KeptEnd(rest, Cut(rest, budget))
  {
    var cut := Cut(rest, budget);
    if ins > 0 {
      var t := Tag(rest, 0);
      assert |t| == ins;
      forall q | 0 <= q < ins
        ensures rest[q] != '\n'
      {
        assert rest[q] == t[q] && t[q] in t;
      }
    }
    if Break(rest, budget) > 0 {
      BreakIsNewline(rest, budget);
    } else {
      BackupIsNear(rest, budget);
    }
    TrimmedEndIsExact(rest, '\n', cut);
    assert KeptEnd(rest, cut) < cut ==> rest[KeptEnd(rest, cut)] == '\n';
  }

  lemma NextHeadIsTag(rest: string, cut: nat)
    requires cut <= |rest|
    ensures HeadIsTag(Rest(rest, cut), |OpenQuote(Kept(rest, cut))|)
  {
    var open := OpenQuote(Kept(rest, cut));
    if open != "" {
      var j := OpenQuoteStands(rest, cut);
      HeadTag(open, rest[TailStart(rest, cut)..]);
    }
  }

  lemma HeadTag(open: string, tail: string)
    requires IsTag(open)
    ensures HeadIsTag(open + tail, |open|)
  {
    TagAtHead(open, tail);
    EndsAt(open + tail, 0, |open|);
  }

  lemma {:induction false} PiecesAreChained(rest: string, ins: nat, budget: nat, k: nat)
    requires Sparse(rest) && TagsWithin(rest, k) && OneLineTags(rest) && k + 3 < budget
    requires HeadIsTag(rest, ins) && Ends(rest, budget)
    ensures Chained(Pieces(rest, ins, budget), rest[..ins])
    decreases |rest|
  {
    if |rest| > budget {
      var cut := Cut(rest, budget);
      CutSparesHead(rest, ins, budget, k);
      NextHeadIsTag(rest, cut);
      SparseStays(rest, cut);
      TagsStay(rest, cut, k);
      PiecesAreChained(Next(rest, budget), |OpenQuote(Kept(rest, cut))|, budget, k);
      assert Next(rest, budget)[..|OpenQuote(Kept(rest, cut))|] == OpenQuote(Kept(rest, cut));
      ChainedCons(rest, cut, ins, Pieces(Next(rest, budget), |OpenQuote(Kept(rest, cut))|, budget));
    }
  }

  lemma ChainedCons(rest: string, cut: nat, ins: nat, ps: seq<Piece>)
    requires cut <= |rest| && ins <= KeptEnd(rest, cut) && Chained(ps, OpenQuote(Kept(rest, cut)))
    ensures Chained([PieceAt(rest, cut, ins)] + ps, rest[..ins])
  {
    assert rest[..ins] + rest[ins..KeptEnd(rest, cut)] == Kept(rest, cut);
    ChainedFirst(PieceAt(rest, cut, ins), ps, rest[..ins], Kept(rest, cut));
  }

  /** A piece before the pieces that owe what it leaves open. */
  lemma ChainedFirst(p: Piece, ps: seq<Piece>, owed: string, kept: string)
    requires p.reopened == owed && owed + p.text == kept && p.closer == Closer(kept) && Chained(ps, OpenQuote(kept))
    ensures Chained([p] + ps, owed)
  {
    assert ([p] + ps)[0] == p && ([p] + ps)[1..] == ps;
  }

  /** Splitting keeps the input: taken apart, the chunks are its text in order, only newlines
      are missing between them, and all that was added are closers where a quote was open and
      the tag of that quote again. */
  lemma SplitKeepsContent(s: string, limit: nat, k: nat) returns (ps: seq<Piece>)
    requires Sparse(s) && TagsWithin(s, k) && OneLineTags(s) && k + 3 + |CLOSE| < limit
    ensures Finishes(s, limit)
    ensures Shown(ps) == Split(s, limit)
    ensures Content(ps) == s && GapsAreNewlines(ps) && Chained(ps, "")
  {
    ShortTagsFinish(s, limit, k);
    if Loops(s, limit) {
      ps := Pieces(s, 0, Budget(s, limit));
      PiecesAreChunks(s, 0, Budget(s, limit));
      PiecesKeepContent(s, 0, Budget(s, limit));
      PiecesAreChained(s, 0, Budget(s, limit), k);
      assert s[0..] == s;
    } else {
      var p := Piece("", s, "", "");
      ps := [p];
      assert p.Chunk() == s;
      assert s + "" + "" == s;
    }
  }

  // ---- The limit ---------------------------------------------------------------------

  lemma {:induction false} ChunksFit(rest: string, budget: nat, room: nat)
    requires Ends(rest, budget) && (Quoteless(rest) || |CLOSE| <= room)
    ensures forall c :: c in Chunks(rest, budget) ==> |c| <= budget + room
    decreases |rest|
  {
    if |rest| > budget {
      var cut := Cut(rest, budget);
      TagsStay(rest, cut, 0);
      ChunksFit(Next(rest, budget), budget, room);
      ChunkFits(rest, cut, room);
    }
  }

  lemma ChunkFits(rest: string, cut: nat, room: nat)
    requires cut <= |rest| && (Quoteless(rest) || |CLOSE| <= room)
    ensures |Chunk(rest, cut)| <= cut + room
  {
    if OpenQuote(Kept(rest, cut)) != "" {
      var j := OpenQuoteStands(rest, cut);
    }
  }

  /** Wherever the splitter finishes, no chunk is longer than the limit. */
  lemma SplitFits(s: string, limit: nat)
    requires Finishes(s, limit) && limit > |CLOSE|
    ensures forall c :: c in Split(s, limit) ==> |c| <= limit
  {
    if Loops(s, limit) {
      LastIndexIsLast(s, OPEN, |s|);
      ChunksFit(s, Budget(s, limit), limit - Budget(s, limit));
    }
  }
}
