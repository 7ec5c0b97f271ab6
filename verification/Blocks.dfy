/**
 The block grammar: an agent's reply as a title, sections and a fold
 (channels/telegram/blocks.go).
 */
module Blocks {
  import opened Wrappers
  import opened Words

  datatype Role = Title | Section | Details

  datatype Block = Block(role: Role, name: string, text: string)


  // ---- Tags --------------------------------------------------------------------------

  predicate Letter(ch: char) {
    'a' <= ch <= 'z' || 'A' <= ch <= 'Z'
  }

  predicate NameChar(ch: char) {
    Letter(ch) || '0' <= ch <= '9' || ch == '_' || ch == '-'
  }

  predicate TagName(name: string) {
    name != "" && Letter(name[0]) && forall i :: 0 <= i < |name| ==> NameChar(name[i])
  }

  type Name = s: string | s != "" witness "a"

  datatype Tag = Tag(name: Name, closing: bool)

  predicate Blank(s: string) {
    forall i :: 0 <= i < |s| ==> s[i] == ' ' || s[i] == '\t'
  }

  /** The longest head of name characters. */
  function NameHead(s: string): (name: string)
    ensures name <= s && (forall i :: 0 <= i < |name| ==> NameChar(name[i]))
    ensures |name| < |s| ==> !NameChar(s[|name|])
  {
    if s == "" || !NameChar(s[0]) then "" else [s[0]] + NameHead(s[1..])
  }

  /** The tag a line consists of, blanks after it aside. */
  function ParsedTag(line: string): Option<Tag> {
    if line == "" || line[0] != '<' then None
    else
      var closing := |line| > 1 && line[1] == '/';
      var body := line[if closing then 2 else 1..];
      var name := NameHead(body);
      if TagName(name) && |name| < |body| && body[|name|] == '>' && Blank(body[|name| + 1..]) then Some(Tag(name, closing))
      else None
  }

  function Written(tag: Tag): string {
    "<" + (if tag.closing then "/" else "") + tag.name + ">"
  }

  lemma {:induction false} NameHeadStops(name: string, rest: string)
    requires (forall i :: 0 <= i < |name| ==> NameChar(name[i])) && rest != "" && !NameChar(rest[0])
    ensures NameHead(name + rest) == name
  {
    if name == "" {
      assert name + rest == rest;
    } else {
      assert (name + rest)[1..] == name[1..] + rest;
      NameHeadStops(name[1..], rest);
    }
  }

  /** A line is a tag exactly when it is that tag written out, and blanks. */
  lemma TagExactlyWhen(line: string, tag: Tag)
    ensures ParsedTag(line) == Some(tag)
            <==> TagName(tag.name) && Written(tag) <= line && Blank(line[|Written(tag)|..])
  {
    if ParsedTag(line) == Some(tag) {
      TagReads(line, tag);
    }
    if TagName(tag.name) && Written(tag) <= line && Blank(line[|Written(tag)|..]) {
      TagWrites(line, tag);
    }
  }

  lemma TagReads(line: string, tag: Tag)
    requires ParsedTag(line) == Some(tag)
    ensures TagName(tag.name) && Written(tag) <= line && Blank(line[|Written(tag)|..])
  {
    var from := if tag.closing then 2 else 1;
    var body := line[from..];
    assert body == tag.name + ">" + body[|tag.name| + 1..];
    assert line == line[..from] + body;
    assert line[..from] == "<" + if tag.closing then "/" else "";
    assert line == Written(tag) + body[|tag.name| + 1..];
  }

  lemma TagWrites(line: string, tag: Tag)
    requires TagName(tag.name) && Written(tag) <= line && Blank(line[|Written(tag)|..])
    ensures ParsedTag(line) == Some(tag)
  {
    var from := if tag.closing then 2 else 1;
    var body, blanks := line[from..], line[|Written(tag)|..];
    assert line == Written(tag) + blanks;
    assert line[0] == '<' && (tag.closing ==> line[1] == '/');
    assert body == tag.name + (">" + blanks);
    assert !tag.closing ==> line[1] == tag.name[0];
    NameHeadStops(tag.name, ">" + blanks);
  }

  function LowerChar(ch: char): char {
    if 'A' <= ch <= 'Z' then (ch as int + 32) as char else ch
  }

  /** strings.EqualFold on tag names, which are ASCII. */
  predicate EqualFold(a: string, b: string) {
    |a| == |b| && forall i :: 0 <= i < |a| ==> LowerChar(a[i]) == LowerChar(b[i])
  }

  // ---- Fences ------------------------------------------------------------------------

  predicate FenceLine(line: string) {
    "```" <= TrimSpace(line)
  }

  /** A fence is open after the first n lines. */
  function FenceOpen(lines: seq<string>, n: nat): bool
    requires n <= |lines|
  {
    n > 0 && (if FenceLine(lines[n - 1]) then !FenceOpen(lines, n - 1) else FenceOpen(lines, n - 1))
  }

  predicate Fenced(lines: seq<string>, i: nat)
    requires i < |lines|
  {
    FenceLine(lines[i]) || FenceOpen(lines, i)
  }

  method FencedLines(lines: seq<string>) returns (out: seq<bool>)
    ensures |out| == |lines| && forall i :: 0 <= i < |lines| ==> out[i] == Fenced(lines, i)
  {
    out := [];
    var open := false;
    for i := 0 to |lines|
      invariant |out| == i && open == FenceOpen(lines, i)
      invariant forall k :: 0 <= k < i ==> out[k] == Fenced(lines, k)
    {
      if FenceLine(lines[i]) {
        out := out + [true];
        open := !open;
      } else {
        out := out + [open];
      }
    }
  }

  // ---- Regions -----------------------------------------------------------------------

  /** The tag a line is where tags count: outside fences. */
  function TagAt(lines: seq<string>, i: nat): Option<Tag>
    requires i < |lines|
  {
    if Fenced(lines, i) then None else ParsedTag(lines[i])
  }

  function Tags(lines: seq<string>): (tags: seq<Option<Tag>>)
    ensures |tags| == |lines| && forall i :: 0 <= i < |lines| ==> tags[i] == TagAt(lines, i)
  {
    seq(|lines|, i requires 0 <= i < |lines| => TagAt(lines, i))
  }

  /** The region that is open after a line. */
  function RegionNext(before: Option<Name>, tag: Option<Tag>): Option<Name> {
    match tag
    case None => before
    case Some(t) =>
      if before.None? then (if t.closing then None else Some(t.name))
      else if t.closing && EqualFold(t.name, before.value) then None
      else before
  }

  /** The region that is open after the first n lines. */
  function RegionAfter(tags: seq<Option<Tag>>, n: nat): Option<Name>
    requires n <= |tags|
  {
    if n == 0 then None else RegionNext(RegionAfter(tags, n - 1), tags[n - 1])
  }

  /** The line is structure, not text: a tag that opens a region where none is open, or closes
      the one that is. */
  predicate Consumed(tags: seq<Option<Tag>>, i: nat)
    requires i < |tags|
  {
    RegionAfter(tags, i).Some? != RegionAfter(tags, i + 1).Some?
  }

  /** The lines that are text, in order. */
  function KeptLines(lines: seq<string>, tags: seq<Option<Tag>>, n: nat): seq<string>
    requires n <= |lines| == |tags|
  {
    if n == 0 then []
    else KeptLines(lines, tags, n - 1) + if Consumed(tags, n - 1) then [] else [lines[n - 1]]
  }

  /** Their words, in order. */
  function KeptFields(lines: seq<string>, tags: seq<Option<Tag>>, n: nat): seq<string>
    requires n <= |lines| == |tags|
  {
    if n == 0 then []
    else KeptFields(lines, tags, n - 1) + if Consumed(tags, n - 1) then [] else Fields(lines[n - 1])
  }

  lemma {:induction false} KeptFieldsAreFields(lines: seq<string>, tags: seq<Option<Tag>>, n: nat)
    requires n <= |lines| == |tags|
    ensures KeptFields(lines, tags, n) == FieldsOf(KeptLines(lines, tags, n))
  {
    if n > 0 {
      KeptFieldsAreFields(lines, tags, n - 1);
      FieldsOfAppend(KeptLines(lines, tags, n - 1), [lines[n - 1]]);
      FieldsOfOne(lines[n - 1]);
      if Consumed(tags, n - 1) {
        assert KeptLines(lines, tags, n) == KeptLines(lines, tags, n - 1);
      }
    }
  }

  /** The names regions were opened with, in order. */
  function Opened(tags: seq<Option<Tag>>, n: nat): seq<string>
    requires n <= |tags|
  {
    if n == 0 then []
    else
      Opened(tags, n - 1)
      + if Consumed(tags, n - 1) && RegionAfter(tags, n).Some? then [RegionAfter(tags, n).value] else []
  }

  // ---- Blocks ------------------------------------------------------------------------

  const TITLE: string := "title"
  const DETAILS: string := "details"

  /** A closed region's block. */
  function RegionBlock(name: string, text: string): Block {
    if EqualFold(name, TITLE) then Block(Title, "", Join(Fields(text), " "))
    else if EqualFold(name, DETAILS) then Block(Details, "", text)
    else Block(Section, name, text)
  }

  /** The words of all texts, in order. */
  function TextWords(bs: seq<Block>): seq<string> {
    if bs == [] then [] else TextWords(bs[..|bs| - 1]) + Fields(bs[|bs| - 1].text)
  }

  lemma {:induction false} TextWordsAppend(a: seq<Block>, b: seq<Block>)
    ensures TextWords(a + b) == TextWords(a) + TextWords(b)
    decreases |b|
  {
    if b == [] {
      assert a + b == a;
    } else {
      TextWordsAppend(a, b[..|b| - 1]);
      assert (a + b)[..|a + b| - 1] == a + b[..|b| - 1];
    }
  }

  lemma LinesText(lines: seq<string>)
    ensures Fields(TrimSpace(Join(lines, "\n"))) == FieldsOf(lines)
  {
    TrimKeeps(Join(lines, "\n"));
    FieldsOfJoin(lines, "\n");
  }

  lemma RegionBlockKeeps(name: string, text: string)
    ensures Fields(RegionBlock(name, text).text) == Fields(text)
  {
    OneLineKeeps(text);
  }

  // ---- Order -------------------------------------------------------------------------

  /** The first title, if any. */
  function FirstTitle(bs: seq<Block>): Option<Block> {
    if bs == [] then None
    else
      var before := FirstTitle(bs[..|bs| - 1]);
      if before.None? && bs[|bs| - 1].role == Title then Some(bs[|bs| - 1]) else before
  }

  /** What stands between title and fold: sections that say something, and further titles. */
  function Middle(bs: seq<Block>): seq<Block> {
    if bs == [] then []
    else
      var front, b := bs[..|bs| - 1], bs[|bs| - 1];
      Middle(front) + match b.role
                      case Title => if FirstTitle(front).Some? then [Block(Section, TITLE, b.text)] else []
                      case Details => []
                      case Section => if b.text != "" || b.name != "" then [b] else []
  }

  function Folded(bs: seq<Block>): seq<string> {
    if bs == [] then []
    else
      var b := bs[|bs| - 1];
      Folded(bs[..|bs| - 1]) + if b.role == Details && b.text != "" then [b.text] else []
  }

  function Normalized(bs: seq<Block>): seq<Block> {
    (if FirstTitle(bs).Some? then [FirstTitle(bs).value] else [])
    + Middle(bs)
    + (if Folded(bs) == [] then [] else [Block(Details, "", Join(Folded(bs), "\n\n"))])
  }

  method Normalize(bs: seq<Block>) returns (out: seq<Block>)
    ensures out == Normalized(bs)
  {
    var title: Option<Block> := None;
    var mid: seq<Block> := [];
    var folded: seq<string> := [];
    for i := 0 to |bs|
      invariant title == FirstTitle(bs[..i]) && mid == Middle(bs[..i]) && folded == Folded(bs[..i])
    {
      assert bs[..i + 1][..i] == bs[..i];
      var b := bs[i];
      match b.role {
        case Title =>
          if title.None? {
            title := Some(b);
          } else {
            mid := mid + [Block(Section, TITLE, b.text)];
          }
        case Details =>
          if b.text != "" {
            folded := folded + [b.text];
          }
        case Section =>
          if b.text != "" || b.name != "" {
            mid := mid + [b];
          }
      }
    }
    assert bs[..|bs|] == bs;
    out := [];
    if title.Some? {
      out := out + [title.value];
    }
    out := out + mid;
    if |folded| > 0 {
      out := out + [Block(Details, "", Join(folded, "\n\n"))];
    }
  }

  function TitleWords(bs: seq<Block>): seq<string> {
    if FirstTitle(bs).Some? then Fields(FirstTitle(bs).value.text) else []
  }

  /** The words of what ordering keeps of the blocks, title, sections and fold. */
  function SpreadWords(bs: seq<Block>): multiset<string> {
    multiset(TitleWords(bs)) + multiset(TextWords(Middle(bs))) + multiset(FieldsOf(Folded(bs)))
  }

  lemma FirstTitleSpreads(bs: seq<Block>, front: seq<Block>, b: Block)
    requires bs == front + [b] && b.role == Title && FirstTitle(front).None?
    ensures SpreadWords(bs) == SpreadWords(front) + multiset(Fields(b.text))
  {
    assert bs[..|bs| - 1] == front;
    assert Middle(bs) == Middle(front) && Folded(bs) == Folded(front);
    assert TitleWords(bs) == Fields(b.text) && TitleWords(front) == [];
  }

  lemma LaterTitleSpreads(bs: seq<Block>, front: seq<Block>, b: Block)
    requires bs == front + [b] && b.role == Title && FirstTitle(front).Some?
    ensures SpreadWords(bs) == SpreadWords(front) + multiset(Fields(b.text))
  {
    assert bs[..|bs| - 1] == front;
    assert Folded(bs) == Folded(front) && TitleWords(bs) == TitleWords(front);
    AppendedText(Middle(front), Block(Section, TITLE, b.text));
  }

  lemma AppendedText(bs: seq<Block>, b: Block)
    ensures TextWords(bs + [b]) == TextWords(bs) + Fields(b.text)
  {
    assert (bs + [b])[..|bs|] == bs;
  }

  lemma DetailsSpreads(bs: seq<Block>, front: seq<Block>, b: Block)
    requires bs == front + [b] && b.role == Details
    ensures SpreadWords(bs) == SpreadWords(front) + multiset(Fields(b.text))
  {
    assert bs[..|bs| - 1] == front;
    assert Middle(bs) == Middle(front) && TitleWords(bs) == TitleWords(front);
    if b.text == "" {
      assert Folded(bs) == Folded(front) && Fields(b.text) == [];
    } else {
      FieldsOfAppend(Folded(front), [b.text]);
      FieldsOfOne(b.text);
    }
  }

  lemma SectionSpreads(bs: seq<Block>, front: seq<Block>, b: Block)
    requires bs == front + [b] && b.role == Section
    ensures SpreadWords(bs) == SpreadWords(front) + multiset(Fields(b.text))
  {
    assert bs[..|bs| - 1] == front;
    assert Folded(bs) == Folded(front) && TitleWords(bs) == TitleWords(front);
    if b.text == "" && b.name == "" {
      assert Middle(bs) == Middle(front) && Fields(b.text) == [];
    } else {
      AppendedText(Middle(front), b);
    }
  }

  lemma {:induction false} NormalizedKeeps(bs: seq<Block>)
    ensures multiset(TextWords(bs)) == SpreadWords(bs)
  {
    if bs != [] {
      var front, b := bs[..|bs| - 1], bs[|bs| - 1];
      NormalizedKeeps(front);
      assert bs == front + [b];
      match b.role {
        case Title =>
          if FirstTitle(front).None? {
            FirstTitleSpreads(bs, front, b);
          } else {
            LaterTitleSpreads(bs, front, b);
          }
        case Details => DetailsSpreads(bs, front, b);
        case Section => SectionSpreads(bs, front, b);
      }
    }
  }

  /** Ordering moves blocks and drops only empty ones: no word is lost or made up. */
  lemma NormalizedKeepsWords(bs: seq<Block>)
    ensures multiset(TextWords(Normalized(bs))) == multiset(TextWords(bs))
  {
    var t := if FirstTitle(bs).Some? then [FirstTitle(bs).value] else [];
    var f := if Folded(bs) == [] then [] else [Block(Details, "", Join(Folded(bs), "\n\n"))];
    NormalizedKeeps(bs);
    TextWordsAppend(t + Middle(bs), f);
    TextWordsAppend(t, Middle(bs));
    FieldsOfJoin(Folded(bs), "\n\n");
    assert TextWords(t) == TitleWords(bs);
    assert TextWords(f) == FieldsOf(Folded(bs));
  }

  /** The names of sections the agent named, further titles aside. */
  function Named(bs: seq<Block>): seq<string> {
    if bs == [] then []
    else
      var b := bs[|bs| - 1];
      Named(bs[..|bs| - 1])
      + if b.role == Section && b.name != "" && !EqualFold(b.name, TITLE) then [b.name] else []
  }

  predicate PlainName(name: string) {
    name != "" && !EqualFold(name, TITLE) && !EqualFold(name, DETAILS)
  }

  function PlainNames(names: seq<string>): seq<string> {
    if names == [] then []
    else PlainNames(names[..|names| - 1]) + if PlainName(names[|names| - 1]) then [names[|names| - 1]] else []
  }

  lemma NamedAppend(bs: seq<Block>, b: Block)
    ensures Named(bs + [b])
            == Named(bs) + if b.role == Section && b.name != "" && !EqualFold(b.name, TITLE) then [b.name] else []
  {
    assert (bs + [b])[..|bs|] == bs;
  }

  lemma {:induction false} MiddleIsSections(bs: seq<Block>)
    ensures forall i :: 0 <= i < |Middle(bs)| ==> Middle(bs)[i].role == Section
    ensures FirstTitle(bs).Some? ==> FirstTitle(bs).value.role == Title
    ensures forall i :: 0 <= i < |Folded(bs)| ==> Folded(bs)[i] != ""
  {
    if bs != [] {
      MiddleIsSections(bs[..|bs| - 1]);
    }
  }

  lemma {:induction false} MiddleIsNamed(bs: seq<Block>)
    ensures Named(Middle(bs)) == Named(bs)
  {
    if bs != [] {
      var front, b := bs[..|bs| - 1], bs[|bs| - 1];
      MiddleIsNamed(front);
      var more := if b.role == Title then Block(Section, TITLE, b.text) else b;
      NamedAppend(Middle(front), more);
      assert Middle(bs) == Middle(front) + [more] || Middle(bs) == Middle(front) + [];
      assert Middle(front) + [] == Middle(front);
    }
  }

  /** The title first, the fold last, one of each at most; named sections as they were. */
  predicate InShape(bs: seq<Block>) {
    forall i :: 0 <= i < |bs| ==>
      (bs[i].role == Title ==> i == 0) && (bs[i].role == Details ==> i == |bs| - 1 && bs[i].text != "")
  }

  lemma NormalizedShape(bs: seq<Block>)
    ensures InShape(Normalized(bs))
  {
    MiddleIsSections(bs);
    if Folded(bs) != [] {
      JoinedIsNotEmpty(Folded(bs));
    }
  }

  lemma JoinedIsNotEmpty(texts: seq<string>)
    requires texts != [] && texts[0] != ""
    ensures Join(texts, "\n\n") != ""
  {
  }

  lemma NormalizedNames(bs: seq<Block>)
    ensures Named(Normalized(bs)) == Named(bs)
  {
    MiddleIsSections(bs);
    MiddleIsNamed(bs);
    var mid := Middle(bs);
    var t := if FirstTitle(bs).Some? then [FirstTitle(bs).value] else [];
    NamedTitle(t, mid);
    if Folded(bs) != [] {
      NamedAppend(t + mid, Block(Details, "", Join(Folded(bs), "\n\n")));
    } else {
      assert t + mid + [] == t + mid;
    }
  }

  lemma {:induction false} NamedTitle(t: seq<Block>, mid: seq<Block>)
    requires |t| <= 1 && forall b :: b in t ==> b.role == Title
    ensures Named(t + mid) == Named(mid)
  {
    if mid == [] {
      assert t + mid == t;
    } else {
      NamedTitle(t, mid[..|mid| - 1]);
      assert (t + mid)[..|t + mid| - 1] == t + mid[..|mid| - 1];
    }
  }

  // ---- Parsing -----------------------------------------------------------------------

  lemma PlainNamesAppend(names: seq<string>, name: string)
    ensures PlainNames(names + [name]) == PlainNames(names) + if PlainName(name) then [name] else []
    ensures PlainNames([name]) == if PlainName(name) then [name] else []
  {
    assert (names + [name])[..|names|] == names;
    assert [name][..0] == [];
  }

  predicate HasCloser(tags: seq<Option<Tag>>, from: nat, name: string) {
    exists i :: from <= i < |tags| && tags[i].Some? && tags[i].value.closing && EqualFold(tags[i].value.name, name)
  }

  /** The lines of a reply that are text. */
  function TextLines(s: string): seq<string> {
    KeptLines(Lines(s), Tags(Lines(s)), |Lines(s)|)
  }

  /** The names its regions are opened with. */
  function RegionNames(s: string): seq<string> {
    Opened(Tags(Lines(s)), |Lines(s)|)
  }

  /** Untagged text becomes a section without a name. */
  method FlushProse(out: seq<Block>, prose: seq<string>) returns (more: seq<Block>)
    ensures TextWords(more) == TextWords(out) + FieldsOf(prose) && Named(more) == Named(out)
  {
    var text := TrimSpace(Join(prose, "\n"));
    LinesText(prose);
    more := out;
    if text != "" {
      AppendedText(out, Block(Section, "", text));
      NamedAppend(out, Block(Section, "", text));
      more := out + [Block(Section, "", text)];
    } else {
      assert Fields(text) == [];
    }
  }

  /** A region becomes its block. */
  method CloseRegion(out: seq<Block>, region: seq<string>, name: Name) returns (more: seq<Block>)
    ensures TextWords(more) == TextWords(out) + FieldsOf(region) && Named(more) == Named(out) + PlainNames([name])
  {
    var text := TrimSpace(Join(region, "\n"));
    LinesText(region);
    RegionBlockKeeps(name, text);
    AppendedText(out, RegionBlock(name, text));
    NamedAppend(out, RegionBlock(name, text));
    PlainNamesAppend([], name);
    more := out + [RegionBlock(name, text)];
  }

  lemma AppendLine(words: seq<string>, pending: seq<string>, line: string)
    ensures words + FieldsOf(pending + [line]) == words + FieldsOf(pending) + Fields(line)
  {
    assert (pending + [line])[..|pending|] == pending;
    assert words + (FieldsOf(pending) + Fields(line)) == words + FieldsOf(pending) + Fields(line);
  }

  /** One line read. `pending` are the lines of the part being read: of the open region, or
      untagged ones. */
  method ReadLine(out: seq<Block>, pending: seq<string>, current: Option<Name>, line: string, tag: Option<Tag>,
                  hasCloser: bool)
    returns (out': seq<Block>, pending': seq<string>, current': Option<Name>)
    ensures current' == RegionNext(current, tag)
    ensures TextWords(out') + FieldsOf(pending')
            == TextWords(out) + FieldsOf(pending) + if current.Some? != current'.Some? then [] else Fields(line)
    ensures Named(out') == Named(out) + if current.Some? && current'.None? then PlainNames([current.value]) else []
  {
    out', pending', current' := out, pending, current;
    if tag.Some? && current.Some? && tag.value.closing && EqualFold(tag.value.name, current.value) {
      out' := CloseRegion(out, pending, current.value);
      pending', current' := [], None;
    } else if tag.None? || current.Some? || tag.value.closing {
      AppendLine(TextWords(out), pending, line);
      pending' := pending + [line];
    } else if hasCloser {
      out' := FlushProse(out, pending);
      pending', current' := [], Some(tag.value.name);
    } else {
      out' := FlushProse(out, pending);
      pending', current' := [], Some(tag.value.name);
    }
  }

  lemma NothingRead(lines: seq<string>, tags: seq<Option<Tag>>)
    requires |lines| == |tags|
    ensures TextWords([]) + FieldsOf([]) == KeptFields(lines, tags, 0)
    ensures Named([]) + PlainNames([]) == PlainNames(Opened(tags, 0))
  {
  }

  /** What a line adds to the words and names. */
  lemma LineAdds(lines: seq<string>, tags: seq<Option<Tag>>, i: nat)
    requires i < |lines| == |tags|
    ensures var before, after := RegionAfter(tags, i), RegionAfter(tags, i + 1);
            after == RegionNext(before, tags[i])
            && KeptFields(lines, tags, i + 1)
               == KeptFields(lines, tags, i) + (if before.Some? != after.Some? then [] else Fields(lines[i]))
            && PlainNames(Opened(tags, i + 1))
               == PlainNames(Opened(tags, i)) + (if before.None? && after.Some? then PlainNames([after.value]) else [])
  {
    OpenedNames(tags, i + 1);
  }

  /** The sections named so far, the open one included. */
  function NamedSoFar(out: seq<Block>, current: Option<Name>): seq<string> {
    Named(out) + PlainNames(if current.Some? then [current.value] else [])
  }

  lemma NamesGo(names: seq<string>, before: Option<Name>, after: Option<Name>)
    requires after.Some? && before.Some? ==> after == before
    ensures (names + if before.Some? && after.None? then PlainNames([before.value]) else [])
            + PlainNames(if after.Some? then [after.value] else [])
            == (names + PlainNames(if before.Some? then [before.value] else []))
               + (if before.None? && after.Some? then PlainNames([after.value]) else [])
  {
    assert PlainNames([]) == [];
  }

  /** After n lines this much of the words and names is there. */
  ghost predicate ReadUpTo(out: seq<Block>, pending: seq<string>, current: Option<Name>, lines: seq<string>,
                           tags: seq<Option<Tag>>, n: nat)
    requires n <= |lines| == |tags|
  {
    current == RegionAfter(tags, n)
    && TextWords(out) + FieldsOf(pending) == KeptFields(lines, tags, n)
    && NamedSoFar(out, current) == PlainNames(Opened(tags, n))
  }

  method Advance(out: seq<Block>, pending: seq<string>, current: Option<Name>, lines: seq<string>, i: nat, fenced: bool,
                 ghost tags: seq<Option<Tag>>)
    returns (out': seq<Block>, pending': seq<string>, current': Option<Name>)
    requires i < |lines| && tags == Tags(lines) && fenced == Fenced(lines, i)
    requires ReadUpTo(out, pending, current, lines, tags, i)
    ensures ReadUpTo(out', pending', current', lines, tags, i + 1)
  {
    LineAdds(lines, tags, i);
    var tag := if fenced then None else ParsedTag(lines[i]);
    assert tag == tags[i];
    NamesGo(Named(out), current, RegionNext(current, tag));
    var hasCloser := tag.Some? && HasCloser(Tags(lines), i + 1, tag.value.name);
    out', pending', current' := ReadLine(out, pending, current, lines[i], tag, hasCloser);
  }

  method ReadLines(lines: seq<string>, fenced: seq<bool>)
    returns (out: seq<Block>, pending: seq<string>, current: Option<Name>)
    requires |fenced| == |lines| && forall i :: 0 <= i < |lines| ==> fenced[i] == Fenced(lines, i)
    ensures ReadUpTo(out, pending, current, lines, Tags(lines), |lines|)
  {
    ghost var tags := Tags(lines);
    out, pending, current := StartReading(lines, tags);
    for i := 0 to |lines|
      invariant ReadUpTo(out, pending, current, lines, tags, i)
    {
      out, pending, current := Advance(out, pending, current, lines, i, fenced[i], tags);
    }
  }

  method StartReading(ghost lines: seq<string>, ghost tags: seq<Option<Tag>>)
    returns (out: seq<Block>, pending: seq<string>, current: Option<Name>)
    requires |lines| == |tags|
    ensures ReadUpTo(out, pending, current, lines, tags, 0)
  {
    out, pending, current := [], [], None;
    NothingRead(lines, tags);
  }

  lemma OpenedNames(tags: seq<Option<Tag>>, n: nat)
    requires 0 < n <= |tags|
    ensures PlainNames(Opened(tags, n))
            == PlainNames(Opened(tags, n - 1))
               + if RegionAfter(tags, n - 1).None? && RegionAfter(tags, n).Some? then PlainNames([RegionAfter(tags, n).value])
                 else []
  {
    if RegionAfter(tags, n - 1).None? && RegionAfter(tags, n).Some? {
      PlainNamesAppend(Opened(tags, n - 1), RegionAfter(tags, n).value);
    } else {
      assert Opened(tags, n) == Opened(tags, n - 1);
    }
  }

  /** Reads a reply into blocks. Their words are those of its lines less its structure, none
      lost and none twice; there is a block, the title first and the fold last, and the named
      sections stand in the order written. A reply that comes to nothing is one section of its
      own text. */
  method Parse(s: string) returns (out: seq<Block>)
    ensures out != [] && InShape(out)
    ensures multiset(TextWords(out)) == multiset(FieldsOf(TextLines(s)))
            || (out == [Block(Section, "", TrimSpace(s))] && FieldsOf(TextLines(s)) == [])
    ensures Named(out) == PlainNames(RegionNames(s))
  {
    var lines := Lines(s);
    var fenced := FencedLines(lines);
    KeptFieldsAreFields(lines, Tags(lines), |lines|);
    var blocks, pending, current := ReadLines(lines, fenced);
    if current.Some? {
      blocks := CloseRegion(blocks, pending, current.value);
    } else {
      blocks := FlushProse(blocks, pending);
      assert PlainNames([]) == [];
    }
    out := Ordered(blocks, s);
  }

  method Ordered(blocks: seq<Block>, s: string) returns (out: seq<Block>)
    ensures out != [] && InShape(out) && Named(out) == Named(blocks)
    ensures multiset(TextWords(out)) == multiset(TextWords(blocks))
            || (out == [Block(Section, "", TrimSpace(s))] && TextWords(blocks) == [])
  {
    out := Normalize(blocks);
    NormalizedKeepsWords(blocks);
    NormalizedShape(blocks);
    NormalizedNames(blocks);
    if |out| == 0 {
      assert TextWords(out) == [] && Named(out) == [];
      NamedAppend([], Block(Section, "", TrimSpace(s)));
      out := [] + [Block(Section, "", TrimSpace(s))];
    }
  }
}
