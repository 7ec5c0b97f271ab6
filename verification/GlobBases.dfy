/**
 What a final `**` component selects. A pattern with one is meant to select everything at or under
 what its base, the part before, matches; the code compares the base literally instead. This says
 for which bases the two are the same.
 */
module GlobBases {
  import opened Wrappers
  import opened Globs

  // ---- Parts of a name ---------------------------------------------------------------

  /** A component starts at i. */
  predicate Starts(name: string, i: int) {
    0 <= i <= |name| && (i == 0 || name[i - 1] == '/')
  }

  /** A component ends at j. */
  predicate Ends(name: string, j: int) {
    0 <= j <= |name| && (j == |name| || name[j] == '/')
  }

  /** The components from i to j: from the first one on, unless the pattern begins with `**`. */
  predicate Cut(deep: bool, name: string, i: int, j: int) {
    Starts(name, i) && Ends(name, j) && i <= j && (deep || i == 0)
  }

  lemma CleanTail(name: string, i: int)
    requires CleanName(name) && Starts(name, i)
    ensures CleanName(name[i..])
  {
    if i > 0 {
      assert name == name[..i - 1] + "/" + name[i..];
      SplitJoin(name[..i - 1], name[i..]);
      CleanParts(Split(name[..i - 1]), Split(name[i..]));
    } else {
      assert name[i..] == name;
    }
  }

  lemma CleanHead(name: string, j: int)
    requires CleanName(name) && Ends(name, j)
    ensures CleanName(name[..j])
  {
    if j < |name| {
      assert name == name[..j] + "/" + name[j + 1..];
      SplitJoin(name[..j], name[j + 1..]);
      CleanParts(Split(name[..j]), Split(name[j + 1..]));
    } else {
      assert name[..j] == name;
    }
  }

  predicate ProperAll(parts: seq<string>) {
    forall i :: 0 <= i < |parts| ==> Proper(parts[i])
  }

  lemma CleanParts(a: seq<string>, b: seq<string>)
    requires ProperAll(a + b)
    ensures ProperAll(a) && ProperAll(b)
  {
    forall i | 0 <= i < |a|
      ensures Proper(a[i])
    {
      assert (a + b)[i] == a[i];
    }
    forall i | 0 <= i < |b|
      ensures Proper(b[i])
    {
      assert (a + b)[|a| + i] == b[i];
    }
  }

  lemma CleanCut(deep: bool, name: string, i: int, j: int)
    requires CleanName(name) && Cut(deep, name, i, j)
    ensures CleanName(name[i..j])
  {
    CleanHead(name, j);
    CleanTail(name[..j], i);
    assert name[..j][i..] == name[i..j];
  }

  lemma CleanJoin(first: string, rest: string)
    requires '/' !in first && Proper(first) && CleanName(rest)
    ensures CleanName(first + "/" + rest)
  {
    SplitJoin(first, rest);
    OneComponent(first);
  }

  lemma CleanSplit(first: string, rest: string)
    requires '/' !in first && CleanName(first + "/" + rest)
    ensures Proper(first) && CleanName(rest)
  {
    SplitJoin(first, rest);
    OneComponent(first);
    assert Split(first + "/" + rest)[0] == first;
    CleanParts([first], Split(rest));
  }

  lemma ReplacedProper(part: string, k: nat, c: char)
    requires '/' !in part && k < |part| && (c == 'x' || c == 'y')
    ensures '/' !in part[k := c] && Proper(part[k := c])
  {
    assert part[k := c][k] == c;
  }

  /** Another character in a component leaves a file name a file name. */
  lemma {:induction false} CleanReplaced(name: string, k: nat, c: char)
    requires CleanName(name) && k < |name| && name[k] != '/' && (c == 'x' || c == 'y')
    ensures CleanName(name[k := c])
    decreases |name|
  {
    match Rest(name)
    case None =>
      ReplacedProper(name, k, c);
      OneComponent(name[k := c]);
    case Some(rest) =>
      var first := First(name);
      CleanSplit(first, rest);
      if k < |first| {
        ReplacedProper(first, k, c);
        CleanJoin(first[k := c], rest);
        assert name[k := c] == first[k := c] + "/" + rest;
      } else {
        var at := k - |first| - 1;
        assert name[k := c] == first + "/" + rest[at := c];
        CleanReplaced(rest, at, c);
        CleanJoin(first, rest[at := c]);
      }
  }

  // ---- A pattern that matches more than itself ----------------------------------------

  predicate Special(c: char) {
    c == '*' || c == '?' || c == '[' || c == '\\'
  }

  predicate Plain(p: string) {
    forall i :: 0 <= i < |p| ==> !Special(p[i])
  }

  /** With c in its place at k the name is matched. */
  predicate TakesAt(p: string, name: string, k: int, c: char)
    requires 0 <= k < |name|
  {
    Matches(p, name[k := c])
  }

  /** At k any character but a slash would do. */
  ghost predicate AnyAt(p: string, name: string, k: int) {
    0 <= k < |name| && name[k] != '/' && forall c :: c != '/' ==> TakesAt(p, name, k, c)
  }

  /** One pattern character fewer on both sides. */
  lemma AnyLater(p: string, name: string, q: string, k: int, at: int)
    requires name != "" && AnyAt(q, name[1..], k) && at == k + 1
    requires forall more :: Matches(q, more) ==> Matches(p, [name[0]] + more)
    ensures AnyAt(p, name, at)
  {
    forall c | c != '/'
      ensures TakesAt(p, name, at, c)
    {
      assert TakesAt(q, name[1..], k, c);
      assert name[at := c] == [name[0]] + name[1..][k := c];
    }
  }

  /** A name longer than the pattern: some star took a character, and could take any other. */
  lemma {:induction false} LongerIsStarred(p: string, name: string) returns (k: int)
    requires Matches(p, name) && |name| > |p|
    ensures AnyAt(p, name, k)
    decreases |p|, |name|
  {
    if p[0] == '*' {
      if name[0] != '/' && Matches(p, name[1..]) {
        k := 0;
        StarTakesAny(p, name);
      } else {
        k := LongerIsStarred(p[1..], name);
        StarTakesNone(p, name, k);
      }
    } else {
      var q := AfterOne(p, name);
      k := LongerIsStarred(q, name[1..]);
      AnyLater(p, name, q, k, k + 1);
      k := k + 1;
    }
  }

  lemma StarTakesAny(p: string, name: string)
    requires p != "" && p[0] == '*' && name != "" && name[0] != '/' && Matches(p, name[1..])
    ensures AnyAt(p, name, 0)
  {
    forall c | c != '/'
      ensures TakesAt(p, name, 0, c)
    {
      assert name[0 := c][1..] == name[1..];
    }
  }

  lemma StarTakesNone(p: string, name: string, k: int)
    requires p != "" && p[0] == '*' && AnyAt(p[1..], name, k)
    ensures AnyAt(p, name, k)
  {
    forall c | c != '/'
      ensures TakesAt(p, name, k, c)
    {
      assert TakesAt(p[1..], name, k, c);
    }
  }

  /** What is left of a pattern that does not begin with a star, once it took one character. */
  lemma AfterOne(p: string, name: string) returns (q: string)
    requires p != "" && p[0] != '*' && Matches(p, name)
    ensures name != "" && |q| < |p| && Matches(q, name[1..])
    ensures forall more :: Matches(q, more) ==> Matches(p, [name[0]] + more)
    ensures p[0] == '[' || p[0] == '\\' ==> |q| < |p| - 1
    ensures p[0] != '[' && p[0] != '\\' ==> q == p[1..]
  {
    if p[0] == '[' {
      q := ClassOf(p[1..]).rest;
    } else if p[0] == '\\' {
      q := p[2..];
    } else {
      q := p[1..];
    }
    forall more | Matches(q, more)
      ensures Matches(p, [name[0]] + more)
    {
      assert ([name[0]] + more)[1..] == more;
    }
  }

  /** A pattern with a special character that matches itself matches other names as long. */
  lemma {:induction false} SelfIsStarred(p: string) returns (k: int)
    requires Matches(p, p) && !Plain(p)
    ensures AnyAt(p, p, k)
    decreases |p|
  {
    if p[0] == '*' {
      if Matches(p, p[1..]) {
        k := 0;
        StarTakesAny(p, p);
      } else {
        k := LongerIsStarred(p[1..], p);
        StarTakesNone(p, p, k);
      }
    } else if p[0] == '?' {
      k := 0;
      QuestionTakesAny(p);
    } else {
      var q := AfterOne(p, p);
      if p[0] == '[' || p[0] == '\\' {
        k := LongerIsStarred(q, p[1..]);
      } else {
        assert !Plain(q);
        k := SelfIsStarred(q);
      }
      AnyLater(p, p, q, k, k + 1);
      k := k + 1;
    }
  }

  lemma QuestionTakesAny(p: string)
    requires p != "" && p[0] == '?' && Matches(p, p)
    ensures AnyAt(p, p, 0)
  {
    forall c | c != '/'
      ensures TakesAt(p, p, 0, c)
    {
      assert p[0 := c][1..] == p[1..];
    }
  }

  lemma {:induction false} PlainMatches(p: string, name: string)
    requires Plain(p)
    ensures Matches(p, name) <==> name == p
    decreases |p|
  {
    if p != "" {
      assert !Special(p[0]);
      if name != "" && name[0] == p[0] {
        PlainMatches(p[1..], name[1..]);
        assert p == [p[0]] + p[1..] && name == [name[0]] + name[1..];
      }
    }
  }

  // ---- A base that does not begin with `**` -------------------------------------------

  predicate Core(base: string) {
    base != "**" && !StartsWith(base, "**/")
  }

  /** The base, compared literally, is there; something under it may follow. */
  ghost predicate HasLiteral(deep: bool, base: string, name: string) {
    exists i, j :: Cut(deep, name, i, j) && name[i..j] == base
  }

  /** What the base matches is there. */
  ghost predicate HasMatch(deep: bool, base: string, name: string) {
    exists i, j :: Cut(deep, name, i, j) && MatchGlob(base, name[i..j])
  }

  ghost predicate Same(deep: bool, base: string) {
    forall name :: CleanName(name) ==> (HasLiteral(deep, base, name) <==> HasMatch(deep, base, name))
  }

  ghost predicate MatchesNoFile(base: string) {
    forall name :: CleanName(name) ==> !MatchGlob(base, name)
  }

  /** A base a caller can read off: without special characters, or one no file name matches. */
  ghost predicate LiteralBase(base: string) {
    if CleanName(base) then Plain(base) else MatchesNoFile(base)
  }

  lemma WholeCut(deep: bool, name: string)
    ensures Cut(deep, name, 0, |name|) && name[0..|name|] == name
  {
  }

  lemma LiteralIsShorter(deep: bool, base: string, name: string)
    requires HasLiteral(deep, base, name)
    ensures |base| < |name| || base == name
  {
    var i, j :| Cut(deep, name, i, j) && name[i..j] == base;
    assert |name[i..j]| == j - i;
    if i == 0 && j == |name| {
      assert name[0..|name|] == name;
    }
  }

  /** A name as short as the base that the base matches, and that is not the base. */
  lemma OtherNameDiffers(deep: bool, base: string, name: string)
    requires CleanName(name) && MatchGlob(base, name) && |name| <= |base| && name != base
    ensures !Same(deep, base)
  {
    WholeCut(deep, name);
    assert HasMatch(deep, base, name);
    if HasLiteral(deep, base, name) {
      LiteralIsShorter(deep, base, name);
    }
  }

  lemma FinalStarsAreSpecial(base: string)
    requires EndsWith(base, "/**")
    ensures !Plain(base)
  {
    assert base[|base| - 3..][2] == '*';
    assert Special(base[|base| - 1]);
  }

  lemma PlainGlob(base: string, name: string)
    requires Core(base) && Plain(base)
    ensures MatchGlob(base, name) <==> name == base
  {
    PlainMatches(base, name);
    if EndsWith(base, "/**") {
      FinalStarsAreSpecial(base);
    }
  }

  lemma PlainIsSame(deep: bool, base: string)
    requires Core(base) && Plain(base)
    ensures Same(deep, base)
  {
    forall name | CleanName(name)
      ensures HasLiteral(deep, base, name) <==> HasMatch(deep, base, name)
    {
      if HasLiteral(deep, base, name) {
        var i, j :| Cut(deep, name, i, j) && name[i..j] == base;
        PlainGlob(base, name[i..j]);
      }
      if HasMatch(deep, base, name) {
        var i, j :| Cut(deep, name, i, j) && MatchGlob(base, name[i..j]);
        PlainGlob(base, name[i..j]);
      }
    }
  }

  /** A base with a final `**` of its own matches what stands before it. */
  lemma FinalStarsDiffer(deep: bool, base: string)
    requires CleanName(base) && Core(base) && EndsWith(base, "/**")
    ensures !Same(deep, base)
  {
    var before := base[..|base| - 3];
    assert base == before + "/" + "**";
    CleanHead(base, |before|);
    OtherNameDiffers(deep, base, before);
  }

  lemma SelfMatchDiffers(deep: bool, base: string)
    requires CleanName(base) && Core(base) && !EndsWith(base, "/**") && !Plain(base) && Matches(base, base)
    ensures !Same(deep, base)
  {
    var k := SelfIsStarred(base);
    var c := if base[k] == 'x' then 'y' else 'x';
    CleanReplaced(base, k, c);
    var other := base[k := c];
    assert TakesAt(base, base, k, c) && other[k] != base[k];
    assert other != base && Core(base);
    OtherNameDiffers(deep, base, other);
  }

  lemma SpecialDiffers(deep: bool, base: string)
    requires CleanName(base) && Core(base) && !Plain(base)
    ensures !Same(deep, base)
  {
    if EndsWith(base, "/**") {
      FinalStarsDiffer(deep, base);
    } else {
      WholeCut(deep, base);
      assert HasLiteral(deep, base, base);
      if HasMatch(deep, base, base) {
        var i, j :| Cut(deep, base, i, j) && MatchGlob(base, base[i..j]);
        var part := base[i..j];
        if part == base {
          SelfMatchDiffers(deep, base);
        } else {
          CleanCut(deep, base, i, j);
          OtherNameDiffers(deep, base, part);
        }
      }
    }
  }

  lemma UncleanIsNowhere(deep: bool, base: string, name: string)
    requires !CleanName(base) && CleanName(name)
    ensures !HasLiteral(deep, base, name)
  {
    if HasLiteral(deep, base, name) {
      var i, j :| Cut(deep, name, i, j) && name[i..j] == base;
      CleanCut(deep, name, i, j);
    }
  }

  lemma UncleanSameExactlyWhen(deep: bool, base: string)
    requires !CleanName(base)
    ensures Same(deep, base) <==> MatchesNoFile(base)
  {
    forall name | CleanName(name)
      ensures !HasLiteral(deep, base, name)
      ensures MatchGlob(base, name) ==> HasMatch(deep, base, name)
    {
      UncleanIsNowhere(deep, base, name);
      WholeCut(deep, name);
    }
    if MatchesNoFile(base) {
      forall name | CleanName(name)
        ensures !HasMatch(deep, base, name)
      {
        if HasMatch(deep, base, name) {
          var i, j :| Cut(deep, name, i, j) && MatchGlob(base, name[i..j]);
          CleanCut(deep, name, i, j);
        }
      }
    }
  }

  lemma SameExactlyWhen(deep: bool, base: string)
    requires Core(base)
    ensures Same(deep, base) <==> LiteralBase(base)
  {
    if !CleanName(base) {
      UncleanSameExactlyWhen(deep, base);
    } else if Plain(base) {
      PlainIsSame(deep, base);
    } else {
      SpecialDiffers(deep, base);
    }
  }

  // ---- Every base ---------------------------------------------------------------------

  /** The base without the recursive wildcards it begins with. */
  function CoreOf(base: string): (core: string)
    ensures core != "**" ==> Core(core)
    decreases |base|
  {
    if StartsWith(base, "**/") then CoreOf(base[3..]) else base
  }

  predicate Deep(base: string) {
    StartsWith(base, "**/")
  }

  /** The pattern: everything under the base. */
  function Under(base: string): string {
    base + "/" + "**"
  }

  /** What the pattern means: some leading part of the name is matched by the base. */
  ghost predicate UnderMatch(base: string, name: string) {
    exists j :: Ends(name, j) && MatchGlob(base, name[..j])
  }

  /** A pattern that begins with `**` is put to the name from every component on. */
  lemma StarStar(tail: string, name: string)
    ensures MatchGlob("**/" + tail, name) <==> exists i :: Starts(name, i) && MatchGlob(tail, name[i..])
  {
    var pattern := "**/" + tail;
    assert pattern[3..] == tail && pattern[2] == '/';
    assert name[0..] == name && Starts(name, 0);
    if pattern == "**/*" {
      LastComponent(name);
    } else {
      StarStarUnfolds(pattern, tail, name);
    }
  }

  lemma StarStarUnfolds(pattern: string, tail: string, name: string)
    requires pattern == "**/" + tail && pattern != "**/*" && pattern[3..] == tail && name[0..] == name
    ensures MatchGlob(pattern, name) <==> exists i :: Starts(name, i) && MatchGlob(tail, name[i..])
  {
    assert StartsWith(pattern, "**/") && pattern != "**";
    if i :| 0 <= i < |name| && name[i] == '/' && MatchGlob(tail, name[i + 1..]) {
      assert Starts(name, i + 1);
    }
    if i :| Starts(name, i) && MatchGlob(tail, name[i..]) {
      if i > 0 {
        assert name[i - 1] == '/' && MatchGlob(tail, name[i - 1 + 1..]);
      }
    }
  }

  /** One star takes a whole component. */
  lemma {:induction false} StarTakesAll(name: string)
    requires '/' !in name
    ensures MatchGlob("*", name)
    decreases |name|
  {
    assert "*"[1..] == "" && |"*"| == 1;
    assert Matches("*", name) by { StarMatchesAll(name); }
    assert !StartsWith("*", "**/") && !EndsWith("*", "/**");
  }

  lemma {:induction false} StarMatchesAll(name: string)
    requires '/' !in name
    ensures Matches("*", name)
    decreases |name|
  {
    assert "*"[1..] == "";
    if name != "" {
      assert name[0] in name;
      StarMatchesAll(name[1..]);
    }
  }

  lemma {:induction false} LastStart(name: string) returns (i: int)
    ensures Starts(name, i) && '/' !in name[i..]
    decreases |name|
  {
    if name == "" {
      i := 0;
    } else if name[|name| - 1] == '/' {
      i := |name|;
    } else {
      var front := name[..|name| - 1];
      i := LastStart(front);
      assert name[i..] == front[i..] + [name[|name| - 1]];
      assert i > 0 ==> name[i - 1] == front[i - 1];
    }
  }

  lemma LastComponent(name: string)
    ensures exists i :: Starts(name, i) && MatchGlob("*", name[i..])
  {
    var i := LastStart(name);
    StarTakesAll(name[i..]);
  }

  /** The pattern under a base without leading recursive wildcards. */
  lemma UnderCore(base: string, name: string)
    requires Core(base)
    ensures MatchGlob(Under(base), name) <==> exists j :: Ends(name, j) && name[..j] == base
  {
    var pattern := Under(base);
    UnderIsSuffix(base);
    assert MatchGlob(pattern, name) <==> name == base || StartsWith(name, base + "/");
    if name == base {
      assert Ends(name, |name|) && name[..|name|] == base;
    } else if StartsWith(name, base + "/") {
      assert name[..|base|] == (base + "/")[..|base|] == base && name[|base|] == (base + "/")[|base|] == '/';
    }
    if j :| Ends(name, j) && name[..j] == base {
      assert j < |name| ==> name[..j + 1] == base + "/";
      assert j == |name| ==> name[..j] == name;
    }
  }

  lemma UnderIsSuffix(base: string)
    requires Core(base)
    ensures EndsWith(Under(base), "/**") && Under(base)[..|Under(base)| - 3] == base
    ensures Under(base) != "**" && Under(base) != "**/*" && !StartsWith(Under(base), "**/")
  {
    var pattern := Under(base);
    assert pattern[|base|..] == "/**" && pattern[..|base|] == base;
    assert pattern[|pattern| - 1] == '*' && pattern[|pattern| - 2] == '*' && pattern[|pattern| - 3] == '/';
    if StartsWith(pattern, "**/") {
      StarsOfBase(base);
    }
  }

  lemma StarsOfBase(base: string)
    requires StartsWith(Under(base), "**/")
    ensures !Core(base)
  {
    var pattern := Under(base);
    assert pattern[0] == "**/"[0] && pattern[1] == "**/"[1] && pattern[2] == "**/"[2];
    assert forall k :: 0 <= k < |base| ==> pattern[k] == base[k];
    assert pattern[|base|] == '/';
  }

  // ---- Recursive wildcards before the base --------------------------------------------

  /** The core is matched by what stands from some component on. */
  ghost predicate FromSome(deep: bool, core: string, name: string) {
    exists i :: Starts(name, i) && (deep || i == 0) && MatchGlob(core, name[i..])
  }

  lemma StartsTwice(name: string, i: int, k: int)
    requires Starts(name, i) && Starts(name[i..], k)
    ensures Starts(name, i + k) && name[i..][k..] == name[i + k..]
  {
  }

  lemma {:induction false} BaseFromSome(base: string, name: string)
    ensures MatchGlob(base, name) <==> FromSome(Deep(base), CoreOf(base), name)
    decreases |base|
  {
    assert Starts(name, 0) && name[0..] == name;
    if Deep(base) {
      var tail := base[3..];
      assert base == "**/" + tail;
      StarStar(tail, name);
      if MatchGlob(base, name) {
        var i :| Starts(name, i) && MatchGlob(tail, name[i..]);
        BaseFromSome(tail, name[i..]);
        var k :| Starts(name[i..], k) && MatchGlob(CoreOf(tail), name[i..][k..]);
        StartsTwice(name, i, k);
      }
      if FromSome(true, CoreOf(base), name) {
        var i :| Starts(name, i) && MatchGlob(CoreOf(base), name[i..]);
        assert name[i..][0..] == name[i..] && Starts(name[i..], 0);
        BaseFromSome(tail, name[i..]);
      }
    }
  }

  lemma UnderTail(base: string)
    requires Deep(base)
    ensures Under(base) == "**/" + Under(base[3..])
  {
    assert base == "**/" + base[3..];
  }

  /** The pattern: the core, literally, stands at some component. */
  lemma {:induction false} UnderLiteral(base: string, name: string)
    requires CoreOf(base) != "**"
    ensures MatchGlob(Under(base), name) <==> HasLiteral(Deep(base), CoreOf(base), name)
    decreases |base|
  {
    if Deep(base) {
      var tail := base[3..];
      UnderTail(base);
      StarStar(Under(tail), name);
      if MatchGlob(Under(base), name) {
        var i :| Starts(name, i) && MatchGlob(Under(tail), name[i..]);
        UnderLiteral(tail, name[i..]);
        var a, b :| Cut(Deep(tail), name[i..], a, b) && name[i..][a..b] == CoreOf(tail);
        StartsTwice(name, i, a);
        assert Cut(true, name, i + a, i + b) && name[i + a..i + b] == name[i..][a..b];
      }
      if HasLiteral(true, CoreOf(base), name) {
        var i, j :| Cut(true, name, i, j) && name[i..j] == CoreOf(base);
        assert Cut(Deep(tail), name[i..], 0, j - i) && name[i..][0..j - i] == name[i..j];
        UnderLiteral(tail, name[i..]);
      }
    } else {
      UnderCore(base, name);
      if j :| Ends(name, j) && name[..j] == base {
        assert Cut(false, name, 0, j) && name[0..j] == name[..j];
      }
      if HasLiteral(false, base, name) {
        var i, j :| Cut(false, name, i, j) && name[i..j] == base;
        assert name[0..j] == name[..j];
      }
    }
  }

  /** What the pattern means: the core, as a pattern, is matched at some component. */
  lemma UnderMatchIsCut(base: string, name: string)
    ensures UnderMatch(base, name) <==> HasMatch(Deep(base), CoreOf(base), name)
  {
    if UnderMatch(base, name) {
      var j :| Ends(name, j) && MatchGlob(base, name[..j]);
      BaseFromSome(base, name[..j]);
      var i :| Starts(name[..j], i) && (Deep(base) || i == 0) && MatchGlob(CoreOf(base), name[..j][i..]);
      assert name[..j][i..] == name[i..j] && Cut(Deep(base), name, i, j);
    }
    if HasMatch(Deep(base), CoreOf(base), name) {
      var i, j :| Cut(Deep(base), name, i, j) && MatchGlob(CoreOf(base), name[i..j]);
      assert name[..j][i..] == name[i..j] && Starts(name[..j], i);
      BaseFromSome(base, name[..j]);
    }
  }

  lemma {:induction false} StarsMatchAll(base: string, name: string)
    requires CoreOf(base) == "**"
    ensures MatchGlob(base, name) && MatchGlob(Under(base), name)
    decreases |base|
  {
    assert Starts(name, 0) && name[0..] == name;
    if Deep(base) {
      assert base == "**/" + base[3..];
      StarsMatchAll(base[3..], name);
      StarStar(base[3..], name);
      UnderTail(base);
      StarStar(Under(base[3..]), name);
    } else {
      assert Under(base) == "**/" + "**";
      StarStar("**", name);
    }
  }

  /** Everything under what the base matches. */
  ghost predicate BaseIsPattern(base: string) {
    forall name :: CleanName(name) ==> (MatchGlob(Under(base), name) <==> UnderMatch(base, name))
  }

  /** A final `**` selects what lies at or under whatever its base matches exactly when the base,
      after any recursive wildcards it begins with, is one itself, or has no special character, or
      is no file name and matches none. */
  lemma BaseIsPatternExactlyWhen(base: string)
    ensures BaseIsPattern(base) <==> CoreOf(base) == "**" || LiteralBase(CoreOf(base))
  {
    if CoreOf(base) == "**" {
      forall name | CleanName(name)
        ensures MatchGlob(Under(base), name) && UnderMatch(base, name)
      {
        StarsMatchAll(base, name);
        assert Ends(name, |name|) && name[..|name|] == name;
      }
    } else {
      forall name | CleanName(name)
        ensures MatchGlob(Under(base), name) <==> HasLiteral(Deep(base), CoreOf(base), name)
        ensures UnderMatch(base, name) <==> HasMatch(Deep(base), CoreOf(base), name)
      {
        UnderLiteral(base, name);
        UnderMatchIsCut(base, name);
      }
      SameExactlyWhen(Deep(base), CoreOf(base));
    }
  }

  /** A wildcard before a final `**` is taken literally. */
  lemma WildBaseIsLiteral()
    ensures !BaseIsPattern("*") && !MatchGlob("*/" + "**", "a/b") && MatchGlob("*/" + "**", "*/b")
  {
    assert "*/" + "**" == Under("*");
    UnderIsSuffix("*");
    assert "a/b"[0] != ("*" + "/")[0];
    BaseIsPatternExactlyWhen("*");
    OneComponent("*");
    assert Special("*"[0]);
  }
}
