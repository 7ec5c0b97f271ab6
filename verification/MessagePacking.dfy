/**
 Rendered blocks packed into messages: as many to a message as fit, and a block too long for
 one message split inside itself, re-wrapped in its own quote when it is a fold
 (channels/telegram/render.go).
 */
module MessagePacking {
  import opened ByteStrings
  import opened HtmlSplitter
  import opened SplitterTermination
  import opened SplitterContent
  import opened SplitterBalance
  import opened Packing

  const FOLD: string := "<blockquote expandable>"
  const QUOTE: string := "<blockquote>"

  /** The quote tag a block is wrapped in, empty when it is not. */
  function Wrapper(b: string): string {
    if At(b, FOLD, 0) && At(b, CLOSE, |b| - |CLOSE|) then FOLD
    else if At(b, QUOTE, 0) && At(b, CLOSE, |b| - |CLOSE|) then QUOTE
    else ""
  }

  function Unwrapped(b: string): string {
    var rest := if |Wrapper(b)| <= |b| then b[|Wrapper(b)|..] else b;
    if At(rest, CLOSE, |rest| - |CLOSE|) then rest[..|rest| - |CLOSE|] else rest
  }

  /** Room for the content of each wrapped piece. */
  function Room(b: string): int {
    MESSAGE_LIMIT - |Wrapper(b)| - |CLOSE|
  }

  predicate BlockFinishes(b: string) {
    if Wrapper(b) == "" then Finishes(b, MESSAGE_LIMIT) else Finishes(Unwrapped(b), Room(b))
  }

  function Wrapped(tag: string, pieces: seq<string>): seq<string> {
    if pieces == [] then [] else [tag + pieces[0] + CLOSE] + Wrapped(tag, pieces[1..])
  }

  function BlockPieces(b: string): seq<string>
    requires BlockFinishes(b)
  {
    if Wrapper(b) == "" then Split(b, MESSAGE_LIMIT) else Wrapped(Wrapper(b), Split(Unwrapped(b), Room(b)))
  }

  method SplitOversizeBlock(b: string) returns (out: seq<string>)
    requires BlockFinishes(b)
    ensures out == BlockPieces(b)
  {
    var prefix := Wrapper(b);
    if prefix == "" {
      out := SplitHTML(b);
      return;
    }
    var inner := Unwrapped(b);
    var pieces := SplitHTMLTo(inner, MESSAGE_LIMIT - |prefix| - |CLOSE|);
    out := WrapAll(prefix, pieces);
  }

  method WrapAll(prefix: string, pieces: seq<string>) returns (out: seq<string>)
    ensures out == Wrapped(prefix, pieces)
  {
    out := [];
    for i := 0 to |pieces|
      invariant Wrapped(prefix, pieces) == out + Wrapped(prefix, pieces[i..])
    {
      assert pieces[i..][1..] == pieces[i + 1..];
      out := out + [prefix + pieces[i] + CLOSE];
    }
  }

  // ---- Pieces of a fold --------------------------------------------------------------

  /** Escaped content: nothing in it reads as a quote tag. */
  ghost predicate Escaped(s: string) {
    forall i :: !At(s, OPEN, i) && !At(s, CLOSE, i)
  }

  lemma EscapedSlices(s: string, n: nat)
    requires n <= |s| && Escaped(s)
    ensures Escaped(s[..n]) && Escaped(s[n..])
  {
    forall i
      ensures !At(s[..n], OPEN, i) && !At(s[..n], CLOSE, i)
    {
      if i + |OPEN| <= n {
        AtPrefix(s, OPEN, n, i);
      }
      if i + |CLOSE| <= n {
        AtPrefix(s, CLOSE, n, i);
      }
    }
    forall i
      ensures !At(s[n..], OPEN, i) && !At(s[n..], CLOSE, i)
    {
      if i >= 0 {
        AtSuffix(s, OPEN, n, i);
        AtSuffix(s, CLOSE, n, i);
      }
    }
  }

  lemma {:induction false} EscapedChunks(rest: string, budget: nat)
    requires Ends(rest, budget) && Escaped(rest)
    ensures forall c :: c in Chunks(rest, budget) ==> Escaped(c)
    decreases |rest|
  {
    if |rest| > budget {
      var cut := Cut(rest, budget);
      EscapedTurn(rest, cut);
      EscapedChunks(Next(rest, budget), budget);
    }
  }

  lemma EscapedTurn(rest: string, cut: nat)
    requires cut <= |rest| && Escaped(rest)
    ensures Escaped(Chunk(rest, cut)) && Escaped(Rest(rest, cut))
  {
    EscapedSlices(rest, KeptEnd(rest, cut));
    EscapedSlices(rest, TailStart(rest, cut));
    if OpenQuote(Kept(rest, cut)) != "" {
      var j := OpenQuoteStands(rest, cut);
    }
    assert Chunk(rest, cut) == rest[..KeptEnd(rest, cut)];
    assert Rest(rest, cut) == rest[TailStart(rest, cut)..];
  }

  lemma {:induction false} WalkEscaped(s: string, i: nat, m: Mark)
    requires i <= |s| && Escaped(s)
    ensures Walk(s, i, m) == m
    decreases |s| - i
  {
    if i < |s| {
      WalkEscaped(s, i + 1, m);
    }
  }

  lemma WrapperIsTag(tag: string)
    requires tag == FOLD || tag == QUOTE
    ensures IsTag(tag) && WholeTag(tag, 0) && TagEnd(tag, 0) == |tag|
  {
    assert tag[..|OPEN|] == OPEN;
    forall q | q > 0
      ensures !At(tag, OPEN, q)
    {
      if At(tag, OPEN, q) {
        OpenerBytes(tag, q);
      }
    }
    EndsAt(tag, 0, |tag|);
  }

  /** Wrapped escaped text is well formed. */
  lemma WrappedIsBalanced(tag: string, p: string)
    requires (tag == FOLD || tag == QUOTE) && Escaped(p)
    ensures Balanced(tag + p + CLOSE)
  {
    WrapperIsTag(tag);
    WalkEscaped(p, 0, Inside);
    WalkToCloser(p, Inside);
    WalkFromTag(tag, p + CLOSE);
    assert tag + p + CLOSE == tag + (p + CLOSE);
  }

  lemma {:induction false} WrappedPieces(tag: string, pieces: seq<string>)
    requires tag == FOLD || tag == QUOTE
    requires forall p :: p in pieces ==> Escaped(p) && |p| <= MESSAGE_LIMIT - |tag| - |CLOSE|
    ensures forall c :: c in Wrapped(tag, pieces) ==> Balanced(c) && |c| <= MESSAGE_LIMIT
  {
    if pieces != [] {
      WrappedIsBalanced(tag, pieces[0]);
      WrappedPieces(tag, pieces[1..]);
    }
  }

  /** A fold too long for one message splits into pieces that each fit, wrapper included,
      and each is a whole quote, wherever its cuts fall. */
  lemma FoldPiecesFit(b: string)
    requires Wrapper(b) != "" && Escaped(Unwrapped(b)) && ValidUtf8(Unwrapped(b))
    ensures BlockFinishes(b)
    ensures forall c :: c in BlockPieces(b) ==>
              Balanced(c) && Count(c, OPEN, 0) == Count(c, CLOSE, 0) && |c| <= MESSAGE_LIMIT
  {
    var inner := Unwrapped(b);
    ValidIsSparse(inner);
    ShortTagsFinish(inner, Room(b), 0);
    SplitFits(inner, Room(b));
    if Loops(inner, Room(b)) {
      EscapedChunks(inner, Budget(inner, Room(b)));
    }
    WrappedPieces(Wrapper(b), Split(inner, Room(b)));
    forall c | c in BlockPieces(b)
      ensures Count(c, OPEN, 0) == Count(c, CLOSE, 0)
    {
      OutsideIsClosed(c);
    }
  }

  // ---- Packing -----------------------------------------------------------------------

  predicate AllFinish(rendered: seq<string>) {
    forall b :: b in rendered ==> |b| > MESSAGE_LIMIT ==> BlockFinishes(b)
  }

  function BlockOf(b: string): Block
    requires |b| > MESSAGE_LIMIT ==> BlockFinishes(b)
  {
    if |b| > MESSAGE_LIMIT then Oversize(BlockPieces(b)) else Whole(b)
  }

  function Blocks(rendered: seq<string>): (bs: seq<Block>)
    requires AllFinish(rendered)
    ensures |bs| == |rendered|
  {
    if rendered == [] then [] else [BlockOf(rendered[0])] + Blocks(rendered[1..])
  }

  method ToBlock(b: string) returns (block: Block)
    requires |b| > MESSAGE_LIMIT ==> BlockFinishes(b)
    ensures block == BlockOf(b)
  {
    block := Whole(b);
    if |b| > MESSAGE_LIMIT {
      var pieces := SplitOversizeBlock(b);
      block := Oversize(pieces);
    }
  }

  lemma {:induction false} BlocksAt(rendered: seq<string>, i: nat)
    requires AllFinish(rendered) && i < |rendered|
    ensures Blocks(rendered)[i] == BlockOf(rendered[i])
  {
    if i > 0 {
      BlocksAt(rendered[1..], i - 1);
    }
  }

  method PlaceRendered(done: seq<string>, unfinished: string, b: string, ghost bs: seq<Block>, ghost i: nat)
    returns (out: seq<string>, cur: string)
    requires (|b| > MESSAGE_LIMIT ==> BlockFinishes(b)) && i < |bs| && bs[i] == BlockOf(b)
    ensures out + Packed(bs[i + 1..], cur) == done + Packed(bs[i..], unfinished)
  {
    var block := ToBlock(b);
    PackedStep(bs, i, unfinished);
    out, cur := Place(done, unfinished, block);
    Assoc(done, Completed(unfinished, block), Packed(bs[i + 1..], cur));
  }

  method SplitBlocks(rendered: seq<string>) returns (out: seq<string>)
    requires AllFinish(rendered)
    ensures out == Packed(Blocks(rendered), "")
  {
    ghost var bs := Blocks(rendered);
    var cur := "";
    out := [];
    assert bs[0..] == bs;
    for i := 0 to |rendered|
      invariant Packed(bs, "") == out + Packed(bs[i..], cur)
    {
      BlocksAt(rendered, i);
      out, cur := PlaceRendered(out, cur, rendered[i], bs, i);
    }
    if cur != "" {
      out := out + [cur];
    }
  }

  // ---- What is sent ------------------------------------------------------------------

  lemma {:induction false} WrappedFits(tag: string, pieces: seq<string>, room: nat)
    requires forall p :: p in pieces ==> |p| <= room
    ensures forall c :: c in Wrapped(tag, pieces) ==> |c| <= |tag| + room + |CLOSE|
  {
    if pieces != [] {
      WrappedFits(tag, pieces[1..], room);
    }
  }

  lemma BlockPiecesFit(b: string)
    requires BlockFinishes(b)
    ensures forall c :: c in BlockPieces(b) ==> |c| <= MESSAGE_LIMIT
  {
    if Wrapper(b) == "" {
      SplitFits(b, MESSAGE_LIMIT);
    } else {
      SplitFits(Unwrapped(b), Room(b));
      WrappedFits(Wrapper(b), Split(Unwrapped(b), Room(b)), Room(b));
    }
  }

  lemma {:induction false} ExpandedFits(rendered: seq<string>)
    requires AllFinish(rendered)
    ensures forall c :: c in Expanded(Blocks(rendered)) ==> |c| <= MESSAGE_LIMIT
  {
    if rendered != [] {
      ExpandedFits(rendered[1..]);
      if |rendered[0]| > MESSAGE_LIMIT {
        BlockPiecesFit(rendered[0]);
      }
    }
  }

  lemma {:induction false} BlocksAreWellformed(rendered: seq<string>)
    requires AllFinish(rendered) && forall i :: 0 <= i < |rendered| ==> rendered[i] != ""
    ensures Wellformed(Blocks(rendered))
  {
    if rendered != [] {
      BlocksAreWellformed(rendered[1..]);
    }
  }

  // ---- What a block too long is split into -------------------------------------------

  /** A rendered block: text in UTF-8, and no quote tags but the two rendering writes, which are on
      one line and at most this long. */
  ghost predicate Rendered(b: string) {
    b != "" && ValidUtf8(b) && TagsWithin(b, |FOLD|) && OneLineTags(b)
  }

  /** The limit the text of a block too long is split to. */
  function RoomFor(b: string): int {
    if Wrapper(b) == "" then MESSAGE_LIMIT else Room(b)
  }

  function Inner(b: string): string {
    if Wrapper(b) == "" then b else Unwrapped(b)
  }

  lemma UnwrappedStands(b: string)
    requires |b| > MESSAGE_LIMIT && Wrapper(b) != ""
    ensures |Wrapper(b)| + |CLOSE| <= |b| && b == Wrapper(b) + Unwrapped(b) + CLOSE
    ensures Unwrapped(b) == b[|Wrapper(b)|..|b| - |CLOSE|]
  {
    var tag := Wrapper(b);
    var rest := b[|tag|..];
    assert b[0..|tag|] == tag;
    AtSuffix(b, CLOSE, |tag|, |rest| - |CLOSE|);
    assert rest[|rest| - |CLOSE|..|rest| - |CLOSE| + |CLOSE|] == CLOSE;
    assert b == b[..|tag|] + rest && rest == rest[..|rest| - |CLOSE|] + rest[|rest| - |CLOSE|..];
  }

  lemma InnerIsRendered(b: string)
    requires |b| > MESSAGE_LIMIT && Rendered(b)
    ensures Sparse(Inner(b)) && TagsWithin(Inner(b), |FOLD|) && OneLineTags(Inner(b))
  {
    ValidIsSparse(b);
    if Wrapper(b) != "" {
      UnwrappedStands(b);
      SparseSlice(b, |Wrapper(b)|, |b| - |CLOSE|);
      TagsOfSlice(b, |Wrapper(b)|, |b| - |CLOSE|, |FOLD|);
    }
  }

  /** These pieces are the block's: shown, each in the block's wrapper if it has one; taken apart,
      its text in order, only newlines missing at the cuts, and added only closers where a quote
      was open and the tag of that quote again. */
  ghost predicate TellsBlock(b: string, pieces: seq<string>, ps: seq<Piece>) {
    && pieces == (if Wrapper(b) == "" then Shown(ps) else Wrapped(Wrapper(b), Shown(ps)))
    && b == Wrapper(b) + Content(ps) + (if Wrapper(b) == "" then "" else CLOSE)
    && GapsAreNewlines(ps) && Chained(ps, "")
  }

  lemma PlainTells(b: string, ps: seq<Piece>)
    requires Wrapper(b) == "" && Finishes(b, MESSAGE_LIMIT) && Shown(ps) == Split(b, MESSAGE_LIMIT)
    requires Content(ps) == b && GapsAreNewlines(ps) && Chained(ps, "")
    ensures BlockFinishes(b) && TellsBlock(b, BlockPieces(b), ps)
  {
    assert "" + b + "" == b;
  }

  lemma WrappedTells(b: string, inner: string, ps: seq<Piece>)
    requires Wrapper(b) != "" && inner == Unwrapped(b) && b == Wrapper(b) + inner + CLOSE
    requires Finishes(inner, Room(b)) && Shown(ps) == Split(inner, Room(b))
    requires Content(ps) == inner && GapsAreNewlines(ps) && Chained(ps, "")
    ensures BlockFinishes(b) && TellsBlock(b, BlockPieces(b), ps)
  {
  }

  lemma RoomIsEnough(b: string)
    ensures RoomFor(b) > |FOLD| + 3 + |CLOSE|
  {
  }

  /** A rendered block too long for one message: splitting it ends, and its pieces tell it. */
  lemma OversizeTells(b: string) returns (ps: seq<Piece>)
    requires |b| > MESSAGE_LIMIT && Rendered(b)
    ensures BlockFinishes(b) && TellsBlock(b, BlockPieces(b), ps)
  {
    InnerIsRendered(b);
    RoomIsEnough(b);
    ps := SplitKeepsContent(Inner(b), RoomFor(b), |FOLD|);
    if Wrapper(b) == "" {
      PlainTells(b, ps);
    } else {
      UnwrappedStands(b);
      WrappedTells(b, Unwrapped(b), ps);
    }
  }

  lemma RenderedFinish(rendered: seq<string>)
    requires forall b :: b in rendered ==> Rendered(b)
    ensures AllFinish(rendered)
    ensures forall b :: b in rendered && |b| > MESSAGE_LIMIT ==>
              BlockFinishes(b) && exists ps :: TellsBlock(b, BlockPieces(b), ps)
  {
    forall b | b in rendered && |b| > MESSAGE_LIMIT
      ensures BlockFinishes(b) && exists ps :: TellsBlock(b, BlockPieces(b), ps)
    {
      var _ := OversizeTells(b);
    }
  }

  lemma MessagesFit(rendered: seq<string>)
    requires AllFinish(rendered) && forall i :: 0 <= i < |rendered| ==> rendered[i] != ""
    ensures forall m :: m in Packed(Blocks(rendered), "") ==> |m| <= MESSAGE_LIMIT
    ensures Same(Packed(Blocks(rendered), ""), Expanded(Blocks(rendered)))
  {
    var bs := Blocks(rendered);
    BlocksAreWellformed(rendered);
    ExpandedFits(rendered);
    PackedFits(bs, "");
    PackingKeepsContent(bs, "");
    assert Flush("") + Expanded(bs) == Expanded(bs);
  }

  /** What is sent for a rendered reply: splitting its blocks ends; message by message it fits the
      limit; read in order, it says what the blocks say, those too long for one message being told
      by their pieces. */
  lemma MessagesAreTheBlocks(rendered: seq<string>)
    requires forall b :: b in rendered ==> Rendered(b)
    ensures AllFinish(rendered)
    ensures forall m :: m in Packed(Blocks(rendered), "") ==> |m| <= MESSAGE_LIMIT
    ensures Same(Packed(Blocks(rendered), ""), Expanded(Blocks(rendered)))
    ensures forall b :: b in rendered && |b| > MESSAGE_LIMIT ==> exists ps :: TellsBlock(b, BlockPieces(b), ps)
  {
    forall i | 0 <= i < |rendered|
      ensures rendered[i] != ""
    {
      assert Rendered(rendered[i]);
    }
    RenderedFinish(rendered);
    MessagesFit(rendered);
  }

  /** The two tags rendering writes leave room at every limit in use. */
  lemma RenderedTagsFinish(s: string, limit: nat)
    requires ValidUtf8(s) && TagsWithin(s, |FOLD|)
    requires limit in {MESSAGE_LIMIT, MESSAGE_LIMIT - |FOLD| - |CLOSE|, MESSAGE_LIMIT - |QUOTE| - |CLOSE|}
    ensures Finishes(s, limit)
  {
    ValidIsSparse(s);
    ShortTagsFinish(s, limit, |FOLD|);
  }
}
