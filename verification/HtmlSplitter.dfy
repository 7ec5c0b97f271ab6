/**
 The Telegram adapter's splitter: rendered HTML is cut at newlines where it can be and on a
 character boundary where it cannot, and a cut inside a quote closes the quote and reopens
 its tag on the remainder (channels/telegram/render.go).
 */
module HtmlSplitter {
  import opened ByteStrings
  import Packing

  const OPEN: string := "<blockquote"
  const CLOSE: string := "</blockquote>"

  /** Just past the '>' that ends the tag at a position; the position itself when none does. */
  function TagEnd(s: string, i: nat): (e: nat)
    requires i <= |s|
    ensures i <= e <= |s|
  {
    if IndexByte(s, '>', i) < 0 then i else IndexByte(s, '>', i) + 1
  }

  function Tag(s: string, i: nat): string
    requires i <= |s|
  {
    s[i..TagEnd(s, i)]
  }

  /** The opening tag still unclosed at the end of a chunk, empty when there is none. */
  function OpenQuote(s: string): (tag: string)
    ensures |tag| <= |s|
  {
    if Count(s, OPEN, 0) <= Count(s, CLOSE, 0) || LastIndex(s, OPEN, |s|) < 0 then ""
    else Tag(s, LastIndex(s, OPEN, |s|))
  }

  predicate Boundary(s: string, i: nat) {
    i >= |s| || !Continues(s[i])
  }

  /** The nearest character boundary at or below a position. */
  function Backup(s: string, cut: nat): (r: nat)
    ensures r <= cut
  {
    if cut > 0 && !Boundary(s, cut) then Backup(s, cut - 1) else cut
  }

  lemma {:induction false} BackupIsNearest(s: string, cut: nat)
    ensures Backup(s, cut) == 0 || Boundary(s, Backup(s, cut))
    ensures forall q :: Backup(s, cut) < q <= cut ==> !Boundary(s, q)
  {
    if cut > 0 && !Boundary(s, cut) {
      BackupIsNearest(s, cut - 1);
    }
  }

  /** The last blank line in the budget, else the last newline; no use unless positive. */
  function Break(s: string, budget: nat): (cut: int)
    requires budget <= |s|
    ensures cut <= budget
  {
    var paragraph := LastIndex(s, "\n\n", budget);
    if paragraph <= 0 then LastIndex(s, "\n", budget) else paragraph
  }

  lemma BreakIsNewline(s: string, budget: nat)
    requires budget <= |s| && Break(s, budget) > 0
    ensures Break(s, budget) < |s| && s[Break(s, budget)] == '\n'
  {
    LastIndexIsLast(s, "\n\n", budget);
    LastIndexIsLast(s, "\n", budget);
    AtByte(s, if LastIndex(s, "\n\n", budget) > 0 then "\n\n" else "\n", Break(s, budget), 0);
  }

  function Cut(s: string, budget: nat): (cut: nat)
    requires budget <= |s|
    ensures cut <= budget
  {
    if Break(s, budget) > 0 then Break(s, budget) else Backup(s, budget)
  }

  function KeptEnd(rest: string, cut: nat): (e: nat)
    requires cut <= |rest|
    ensures e <= cut
  {
    TrimmedEnd(rest, '\n', cut)
  }

  function TailStart(rest: string, cut: nat): (b: nat)
    requires cut <= |rest|
    ensures cut <= b <= |rest|
  {
    TrimmedStart(rest, '\n', cut)
  }

  /** What a turn that cuts here keeps of the remainder, before a closer is added. */
  function Kept(rest: string, cut: nat): string
    requires cut <= |rest|
  {
    rest[..KeptEnd(rest, cut)]
  }

  function Closer(kept: string): string {
    if OpenQuote(kept) == "" then "" else CLOSE
  }

  function Chunk(rest: string, cut: nat): string
    requires cut <= |rest|
  {
    Kept(rest, cut) + Closer(Kept(rest, cut))
  }

  function Rest(rest: string, cut: nat): string
    requires cut <= |rest|
  {
    OpenQuote(Kept(rest, cut)) + rest[TailStart(rest, cut)..]
  }

  // ---- The loop, and when it ends ----------------------------------------------------

  /** What one turn of the loop leaves. */
  function Next(rest: string, budget: nat): string
    requires budget < |rest|
  {
    Rest(rest, Cut(rest, budget))
  }

  /** The loop comes to a remainder that fits. */
  predicate Ends(rest: string, budget: nat)
    decreases |rest|
  {
    |rest| <= budget || (|Next(rest, budget)| < |rest| && Ends(Next(rest, budget), budget))
  }

  function Chunks(rest: string, budget: nat): seq<string>
    requires Ends(rest, budget)
    decreases |rest|
  {
    if |rest| <= budget then (if rest == "" then [] else [rest])
    else [Chunk(rest, Cut(rest, budget))] + Chunks(Next(rest, budget), budget)
  }

  function Budget(s: string, limit: int): int {
    if LastIndex(s, OPEN, |s|) >= 0 then limit - |CLOSE| else limit
  }

  predicate Loops(s: string, limit: int) {
    limit > 0 && |s| > limit && Budget(s, limit) > 0
  }

  predicate Finishes(s: string, limit: int) {
    Loops(s, limit) ==> Ends(s, Budget(s, limit))
  }

  function Split(s: string, limit: int): seq<string>
    requires Finishes(s, limit)
  {
    if Loops(s, limit) then Chunks(s, Budget(s, limit)) else [s]
  }

  method CutPoint(rest: string, budget: nat) returns (cut: int)
    requires budget <= |rest|
    ensures cut == Cut(rest, budget)
  {
    cut := LastIndex(rest, "\n\n", budget);
    if cut <= 0 {
      cut := LastIndex(rest, "\n", budget);
    }
    if cut <= 0 {
      cut := budget;
      while cut > 0 && !Boundary(rest, cut)
        invariant 0 <= cut <= budget && Backup(rest, cut) == Backup(rest, budget)
      {
        cut := cut - 1;
      }
    }
  }

  method TakeChunk(rest: string, cut: nat) returns (chunk: string, next: string)
    requires cut <= |rest|
    ensures chunk == Chunk(rest, cut) && next == Rest(rest, cut)
  {
    chunk := rest[..TrimmedEnd(rest, '\n', cut)];
    next := rest[TrimmedStart(rest, '\n', cut)..];
    var open := OpenQuote(chunk);
    if open != "" {
      chunk := chunk + CLOSE;
      next := open + next;
    }
  }

  method CutToBudget(s: string, budget: nat) returns (out: seq<string>)
    requires Ends(s, budget)
    ensures out == Chunks(s, budget)
  {
    out := [];
    var rest := s;
    while |rest| > budget
      invariant Ends(rest, budget) && out + Chunks(rest, budget) == Chunks(s, budget)
      decreases |rest|
    {
      var cut := CutPoint(rest, budget);
      var chunk, next := TakeChunk(rest, cut);
      assert out + Chunks(rest, budget) == out + [chunk] + Chunks(next, budget);
      out := out + [chunk];
      rest := next;
    }
    if rest != "" {
      out := out + [rest];
    }
  }

  method SplitHTMLTo(s: string, limit: int) returns (out: seq<string>)
    requires Finishes(s, limit)
    ensures out == Split(s, limit)
  {
    if limit <= 0 {
      return [s];
    }
    if |s| <= limit {
      return [s];
    }
    var budget := limit;
    if LastIndex(s, OPEN, |s|) >= 0 {
      budget := budget - |CLOSE|;
    }
    if budget <= 0 {
      return [s];
    }
    out := CutToBudget(s, budget);
  }

  method SplitHTML(s: string) returns (out: seq<string>)
    requires Finishes(s, Packing.MESSAGE_LIMIT)
    ensures out == Split(s, Packing.MESSAGE_LIMIT)
  {
    out := SplitHTMLTo(s, Packing.MESSAGE_LIMIT);
  }

  lemma OpenQuoteIsWhole(s: string)
    ensures |OpenQuote(s)| == |s| ==> OpenQuote(s) == s
  {
  }

  /** A turn shortens the remainder or leaves it exactly as it was. */
  lemma ShrinksOrStays(rest: string, cut: nat)
    requires cut <= |rest|
    ensures |Rest(rest, cut)| <= |rest|
    ensures |Rest(rest, cut)| == |rest| ==> Rest(rest, cut) == rest
    ensures |Rest(rest, cut)| == |rest| ==> |OpenQuote(Kept(rest, cut))| == cut == TailStart(rest, cut)
  {
    var kept := Kept(rest, cut);
    OpenQuoteIsWhole(kept);
    if |Rest(rest, cut)| == |rest| {
      assert rest == rest[..cut] + rest[cut..];
    }
  }

  /** Successive remainders of the loop. */
  ghost predicate Turns(run: seq<string>, budget: nat) {
    forall i, j :: 0 <= i && j == i + 1 && j < |run| ==> |run[i]| > budget && run[j] == Next(run[i], budget)
  }

  lemma NextUnended(rest: string, budget: nat)
    requires !Ends(rest, budget)
    ensures |rest| > budget && !Ends(Next(rest, budget), budget)
  {
    ShrinksOrStays(rest, Cut(rest, budget));
  }

  /** `Ends` is exact: where it fails, the loop's test holds after any number of turns. */
  lemma {:induction false} OtherwiseForever(run: seq<string>, budget: nat, n: nat)
    requires n < |run| && Turns(run, budget) && !Ends(run[0], budget)
    ensures |run[n]| > budget && !Ends(run[n], budget)
  {
    if n > 0 {
      OtherwiseForever(run, budget, n - 1);
      NextUnended(run[n - 1], budget);
    }
  }
}
