/**
 Packing rendered blocks into messages, as many to a message as fit
 (channels/telegram/render.go).
 */
module Packing {
  const MESSAGE_LIMIT := 4096
  const GAP: string := "\n\n"

  /** A block fits a message, or was split into pieces of its own. */
  datatype Block = Whole(text: string) | Oversize(pieces: seq<string>)

  ghost predicate Wellformed(bs: seq<Block>) {
    forall i :: 0 <= i < |bs| ==> bs[i].Whole? ==> 0 < |bs[i].text| <= MESSAGE_LIMIT
  }

  /** What a block asks to be shown. */
  function Parts(b: Block): seq<string> {
    match b
    case Whole(text) => [text]
    case Oversize(pieces) => pieces
  }

  function Flush(cur: string): seq<string> {
    if cur == "" then [] else [cur]
  }

  /** The messages a block completes. */
  function Completed(cur: string, b: Block): seq<string> {
    match b
    case Oversize(pieces) => Flush(cur) + pieces
    case Whole(text) => if cur == "" || |cur| + |GAP| + |text| <= MESSAGE_LIMIT then [] else [cur]
  }

  /** The message a block leaves unfinished. */
  function Unfinished(cur: string, b: Block): string {
    match b
    case Oversize(pieces) => ""
    case Whole(text) => if cur != "" && |cur| + |GAP| + |text| <= MESSAGE_LIMIT then cur + GAP + text else text
  }

  function Packed(bs: seq<Block>, cur: string): seq<string> {
    if bs == [] then Flush(cur) else Completed(cur, bs[0]) + Packed(bs[1..], Unfinished(cur, bs[0]))
  }

  function Join(parts: seq<string>): string {
    if parts == [] then "" else if |parts| == 1 then parts[0] else parts[0] + GAP + Join(parts[1..])
  }

  function Expanded(bs: seq<Block>): seq<string> {
    if bs == [] then [] else Parts(bs[0]) + Expanded(bs[1..])
  }

  lemma {:induction false} JoinAppend(a: seq<string>, b: seq<string>)
    ensures Join(a + b) == if a == [] then Join(b) else if b == [] then Join(a) else Join(a) + GAP + Join(b)
  {
    if a == [] {
      assert a + b == b;
    } else if b == [] {
      assert a + b == a;
    } else {
      JoinAppend(a[1..], b);
      assert (a + b)[1..] == a[1..] + b;
    }
  }

  /** The same text, read with blank lines between. */
  predicate Same(a: seq<string>, b: seq<string>) {
    Join(a) == Join(b) && (a == [] <==> b == [])
  }

  lemma SameAround(c: seq<string>, a: seq<string>, b: seq<string>, d: seq<string>)
    requires Same(a, b)
    ensures Same(c + a, c + b) && Same(a + d, b + d)
  {
    JoinAppend(c, a);
    JoinAppend(c, b);
    JoinAppend(a, d);
    JoinAppend(b, d);
  }

  lemma BlockKeeps(cur: string, b: Block)
    requires b.Whole? ==> b.text != ""
    ensures Same(Completed(cur, b) + Flush(Unfinished(cur, b)), Flush(cur) + Parts(b))
  {
    match b
    case Oversize(pieces) =>
      assert Completed(cur, b) + Flush("") == Flush(cur) + pieces;
    case Whole(text) =>
      JoinAppend([cur], [text]);
      assert cur != "" ==> Flush(cur) + [text] == [cur, text];
      assert cur == "" ==> Flush(cur) + [text] == [text];
  }

  /** Packing moves no text: the messages read as the blocks do, each oversize block
      replaced by its pieces. */
  lemma {:induction false} PackingKeepsContent(bs: seq<Block>, cur: string)
    requires Wellformed(bs)
    ensures Same(Packed(bs, cur), Flush(cur) + Expanded(bs))
    decreases |bs|
  {
    if bs == [] {
      assert Flush(cur) + [] == Flush(cur);
    } else {
      PackingKeepsContent(bs[1..], Unfinished(cur, bs[0]));
      BlockKeeps(cur, bs[0]);
      Regroup(Completed(cur, bs[0]), Packed(bs[1..], Unfinished(cur, bs[0])), Flush(Unfinished(cur, bs[0])),
              Flush(cur), Parts(bs[0]), Expanded(bs[1..]));
    }
  }

  lemma Regroup(done: seq<string>, packed: seq<string>, next: seq<string>, cur: seq<string>, parts: seq<string>,
                rest: seq<string>)
    requires Same(packed, next + rest) && Same(done + next, cur + parts)
    ensures Same(done + packed, cur + (parts + rest))
  {
    SameAround(done, packed, next + rest, []);
    SameAround([], done + next, cur + parts, rest);
    Assoc(done, next, rest);
    Assoc(cur, parts, rest);
  }

  lemma Assoc(a: seq<string>, b: seq<string>, c: seq<string>)
    ensures a + (b + c) == (a + b) + c
  {
  }

  /** No message is too long when no piece of an oversize block is. */
  lemma {:induction false} PackedFits(bs: seq<Block>, cur: string)
    requires |cur| <= MESSAGE_LIMIT && Wellformed(bs)
    requires forall c :: c in Expanded(bs) ==> |c| <= MESSAGE_LIMIT
    ensures forall m :: m in Packed(bs, cur) ==> |m| <= MESSAGE_LIMIT
    decreases |bs|
  {
    if bs != [] {
      PackedFits(bs[1..], Unfinished(cur, bs[0]));
    }
  }

  lemma {:induction false} CurrentIsFirst(bs: seq<Block>, cur: string)
    requires cur != ""
    ensures Packed(bs, cur) != [] && cur <= Packed(bs, cur)[0]
    decreases |bs|
  {
    if bs != [] && Completed(cur, bs[0]) == [] {
      CurrentIsFirst(bs[1..], Unfinished(cur, bs[0]));
    }
  }

  /** The first message carries every leading block that fits it: blocks that fit one message
      together are where a reader of the first message alone sees them. */
  lemma {:induction false} FirstMessageHolds(bs: seq<Block>, cur: string, n: nat)
    requires Wellformed(bs) && n <= |bs| && forall i :: 0 <= i < n ==> bs[i].Whole?
    requires Flush(cur) + Expanded(bs[..n]) != [] && |Join(Flush(cur) + Expanded(bs[..n]))| <= MESSAGE_LIMIT
    ensures Packed(bs, cur) != [] && Join(Flush(cur) + Expanded(bs[..n])) <= Packed(bs, cur)[0]
    decreases n
  {
    if n == 0 {
      assert Flush(cur) + Expanded(bs[..n]) == [cur];
      CurrentIsFirst(bs, cur);
    } else {
      var lead := Expanded(bs[1..][..n - 1]);
      assert bs[..n][1..] == bs[1..][..n - 1];
      LeadFits(cur, bs[0].text, lead);
      FirstMessageHolds(bs[1..], Unfinished(cur, bs[0]), n - 1);
    }
  }

  lemma LeadFits(cur: string, text: string, lead: seq<string>)
    requires text != "" && |Join(Flush(cur) + ([text] + lead))| <= MESSAGE_LIMIT
    ensures cur == "" || |cur| + |GAP| + |text| <= MESSAGE_LIMIT
    ensures Join(Flush(cur) + ([text] + lead)) == Join(Flush(Unfinished(cur, Whole(text))) + lead)
  {
    var next := if cur == "" then text else cur + GAP + text;
    assert Flush(cur) + ([text] + lead) == (Flush(cur) + [text]) + lead;
    JoinAppend(Flush(cur) + [text], lead);
    JoinAppend(Flush(cur), [text]);
    JoinAppend([next], lead);
  }

  method Place(done: seq<string>, unfinished: string, b: Block) returns (out: seq<string>, cur: string)
    ensures out == done + Completed(unfinished, b) && cur == Unfinished(unfinished, b)
  {
    out, cur := done, unfinished;
    match b
    case Oversize(pieces) =>
      if cur != "" {
        out := out + [cur];
        cur := "";
      }
      out := out + pieces;
    case Whole(text) =>
      if cur == "" {
        cur := text;
      } else if |cur| + |GAP| + |text| <= MESSAGE_LIMIT {
        cur := cur + GAP + text;
      } else {
        out := out + [cur];
        cur := text;
      }
  }

  lemma PackedStep(bs: seq<Block>, i: nat, cur: string)
    requires i < |bs|
    ensures Packed(bs[i..], cur) == Completed(cur, bs[i]) + Packed(bs[i + 1..], Unfinished(cur, bs[i]))
  {
    assert bs[i..][1..] == bs[i + 1..];
  }
}
