/**
 Which tags are structure. A tag is meant to count only as part of a pair, an opener and a later
 closer of its name; the reader counts an opener without looking for its closer.
 */
module BlockPairs {
  import opened Wrappers
  import opened Words
  import opened Blocks

  predicate IsOpener(tag: Option<Tag>, name: string) {
    tag.Some? && !tag.value.closing && tag.value.name == name
  }

  predicate IsCloser(tag: Option<Tag>, name: string) {
    tag.Some? && tag.value.closing && EqualFold(tag.value.name, name)
  }

  /** A pair that counts: an opener, and the closer of its name that is the next structure. */
  ghost predicate Pair(tags: seq<Option<Tag>>, i: int, j: int) {
    && 0 <= i < j < |tags| && tags[i].Some? && IsOpener(tags[i], tags[i].value.name)
    && IsCloser(tags[j], tags[i].value.name)
    && Consumed(tags, i) && Consumed(tags, j) && forall k :: i < k < j ==> !Consumed(tags, k)
  }

  ghost predicate InPair(tags: seq<Option<Tag>>, i: nat) {
    (exists j :: Pair(tags, i, j)) || (exists j :: Pair(tags, j, i))
  }

  /** Structure comes in pairs. */
  ghost predicate AllPaired(tags: seq<Option<Tag>>) {
    forall i: nat :: i < |tags| && Consumed(tags, i) ==> InPair(tags, i)
  }

  /** The line opens a region: an opener met outside any. */
  predicate Opens(tags: seq<Option<Tag>>, i: nat)
    requires i < |tags|
  {
    RegionAfter(tags, i).None? && tags[i].Some? && !tags[i].value.closing
  }

  /** Every opener met outside a region is followed by a closer of its name. */
  ghost predicate OpenersClosed(tags: seq<Option<Tag>>) {
    forall i: nat :: i < |tags| && Opens(tags, i) ==> HasCloser(tags, i + 1, tags[i].value.name)
  }

  /** An opener is structure whether or not a closer follows; without one its region runs to
      the end of the reply. */
  lemma {:induction false} UnpairedOpenRuns(tags: seq<Option<Tag>>, i: nat, name: Name, n: nat)
    requires i < n <= |tags| && RegionAfter(tags, i).None?
    requires tags[i] == Some(Tag(name, false)) && !HasCloser(tags, i + 1, name)
    ensures Consumed(tags, i) && RegionAfter(tags, n) == Some(name)
  {
    if n > i + 1 {
      UnpairedOpenRuns(tags, i, name, n - 1);
    }
  }

  /** The region that is open was opened by the last structure before. */
  lemma {:induction false} OpenedBy(tags: seq<Option<Tag>>, n: nat) returns (i: nat)
    requires n <= |tags| && RegionAfter(tags, n).Some?
    ensures i < n && Consumed(tags, i) && IsOpener(tags[i], RegionAfter(tags, n).value)
    ensures forall k :: i < k < n ==> !Consumed(tags, k)
  {
    if RegionAfter(tags, n - 1).None? {
      i := n - 1;
    } else {
      i := OpenedBy(tags, n - 1);
    }
  }

  /** A region whose closer is still to come is closed by the next structure. */
  lemma {:induction false} ClosedBy(tags: seq<Option<Tag>>, n: nat, name: Name) returns (j: nat)
    requires n <= |tags| && RegionAfter(tags, n) == Some(name) && HasCloser(tags, n, name)
    ensures n <= j < |tags| && Consumed(tags, j) && IsCloser(tags[j], name)
    ensures forall k :: n <= k < j ==> !Consumed(tags, k)
    decreases |tags| - n
  {
    var m :| n <= m < |tags| && IsCloser(tags[m], name);
    if IsCloser(tags[n], name) {
      j := n;
    } else {
      assert n + 1 <= m && IsCloser(tags[m], name);
      j := ClosedBy(tags, n + 1, name);
    }
  }

  lemma CloserPairs(tags: seq<Option<Tag>>, i: nat)
    requires i < |tags| && Consumed(tags, i) && RegionAfter(tags, i).Some?
    ensures InPair(tags, i)
  {
    var name := RegionAfter(tags, i).value;
    assert IsCloser(tags[i], name);
    var j := OpenedBy(tags, i);
    assert Pair(tags, j, i);
  }

  lemma OpenerPairs(tags: seq<Option<Tag>>, i: nat)
    requires i < |tags| && Opens(tags, i) && HasCloser(tags, i + 1, tags[i].value.name)
    ensures Consumed(tags, i) && InPair(tags, i)
  {
    var j := ClosedBy(tags, i + 1, tags[i].value.name);
    assert Pair(tags, i, j);
  }

  /** Structure comes in pairs exactly when every opener met outside a region has its closer. */
  lemma AllPairedExactlyWhen(tags: seq<Option<Tag>>)
    ensures AllPaired(tags) <==> OpenersClosed(tags)
  {
    if AllPaired(tags) {
      forall i: nat | i < |tags| && Opens(tags, i)
        ensures HasCloser(tags, i + 1, tags[i].value.name)
      {
        assert Consumed(tags, i) && InPair(tags, i);
        var j :| Pair(tags, i, j);
        assert tags[j].value.closing;
      }
    }
    if OpenersClosed(tags) {
      forall i: nat | i < |tags| && Consumed(tags, i)
        ensures InPair(tags, i)
      {
        if RegionAfter(tags, i).Some? {
          CloserPairs(tags, i);
        } else {
          assert Opens(tags, i);
          OpenerPairs(tags, i);
        }
      }
    }
  }

  // ---- A reply it is not so of --------------------------------------------------------

  const LONE: string := "<a>"

  lemma {:induction false} OneLine(s: string)
    requires '\n' !in s
    ensures Lines(s) == [s]
  {
    if s != "" {
      assert s[0] in s;
      OneLine(s[1..]);
      assert s == [s[0]] + s[1..];
    }
  }

  lemma LoneIsTag()
    ensures ParsedTag(LONE) == Some(Tag("a", false)) && !FenceLine(LONE)
  {
    TagExactlyWhen(LONE, Tag("a", false));
    assert LONE[0] == '<' && LONE[2] == '>';
    assert TrimSpace(LONE) == LONE;
    assert "```"[0] == '`';
  }

  /** A tag alone is in no pair, and is not text either: nothing of this reply is. */
  lemma LoneOpenerIsStructure()
    ensures Tags(Lines(LONE)) == [Some(Tag("a", false))] && !AllPaired(Tags(Lines(LONE)))
    ensures TextLines(LONE) == [] && RegionNames(LONE) == ["a"]
  {
    OneLine(LONE);
    LoneIsTag();
    var tags := Tags([LONE]);
    assert tags == [Some(Tag("a", false))];
    assert RegionAfter(tags, 0) == None && RegionAfter(tags, 1) == Some("a");
    assert Opens(tags, 0) && !HasCloser(tags, 1, "a");
    AllPairedExactlyWhen(tags);
    assert KeptLines([LONE], tags, 1) == KeptLines([LONE], tags, 0) + [];
    assert Opened(tags, 1) == Opened(tags, 0) + ["a"];
  }
}
