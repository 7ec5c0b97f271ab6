/**
 Include and exclude patterns: filepath.Match extended by `**`, and the literal components a
 walk may start from (platform/context-sync/manifest.go).
 */
module Globs {
  import opened Wrappers

  /** A path's first component. */
  function First(s: string): (part: string)
    ensures part <= s && '/' !in part
  {
    if s == "" || s[0] == '/' then "" else [s[0]] + First(s[1..])
  }

  /** What follows the first slash. */
  function Rest(s: string): (rest: Option<string>)
    ensures rest.Some? ==> |rest.value| < |s| && s == First(s) + "/" + rest.value
    ensures rest.None? ==> First(s) == s
  {
    if s == "" then None else if s[0] == '/' then Some(s[1..]) else Rest(s[1..])
  }

  /** A path's components. */
  function Split(s: string): (parts: seq<string>)
    ensures |parts| > 0
    decreases |s|
  {
    match Rest(s)
    case None => [s]
    case Some(rest) => [First(s)] + Split(rest)
  }

  // ---- One pattern without `**` ------------------------------------------------------

  datatype Class = Malformed | Class(negated: bool, ranges: seq<(char, char)>, rest: string)

  datatype Bound = NoBound | Bound(ch: char, rest: string)

  /** One end of a range, escaped or not; something has to follow it. */
  function ClassChar(s: string): (b: Bound)
    ensures b.Bound? ==> 0 < |b.rest| < |s|
  {
    if s == "" || s[0] == '-' || s[0] == ']' then NoBound
    else
      var t := if s[0] == '\\' then s[1..] else s;
      if |t| < 2 then NoBound else Bound(t[0], t[1..])
  }

  function ClassRanges(negated: bool, ranges: seq<(char, char)>, s: string): (c: Class)
    ensures c.Class? ==> |c.rest| < |s|
    decreases |s|
  {
    if s != "" && s[0] == ']' && ranges != [] then Class(negated, ranges, s[1..])
    else
      match ClassChar(s)
      case NoBound => Malformed
      case Bound(lo, rest) =>
        if rest[0] != '-' then ClassRanges(negated, ranges + [(lo, lo)], rest)
        else
          match ClassChar(rest[1..])
          case NoBound => Malformed
          case Bound(hi, more) => ClassRanges(negated, ranges + [(lo, hi)], more)
  }

  /** The class whose '[' has been read. */
  function ClassOf(s: string): (c: Class)
    ensures c.Class? ==> |c.rest| < |s|
  {
    if s != "" && s[0] == '^' then ClassRanges(true, [], s[1..]) else ClassRanges(false, [], s)
  }

  predicate InClass(c: Class, ch: char)
    requires c.Class?
  {
    c.negated != exists i :: 0 <= i < |c.ranges| && c.ranges[i].0 <= ch <= c.ranges[i].1
  }

  /** filepath.Match, where a malformed pattern matches nothing. */
  predicate Matches(p: string, name: string)
    decreases |p|, |name|
  {
    if p == "" then name == ""
    else if p[0] == '*' then
      Matches(p[1..], name) || (name != "" && name[0] != '/' && Matches(p, name[1..]))
    else if name == "" then false
    else if p[0] == '?' then name[0] != '/' && Matches(p[1..], name[1..])
    else if p[0] == '[' then
      match ClassOf(p[1..])
      case Malformed => false
      case Class(negated, ranges, rest) =>
        InClass(Class(negated, ranges, rest), name[0]) && Matches(rest, name[1..])
    else if p[0] == '\\' then |p| > 1 && p[1] == name[0] && Matches(p[2..], name[1..])
    else p[0] == name[0] && Matches(p[1..], name[1..])
  }

  // ---- With `**` ---------------------------------------------------------------------

  predicate StartsWith(s: string, prefix: string) {
    prefix <= s
  }

  predicate EndsWith(s: string, suffix: string) {
    |suffix| <= |s| && s[|s| - |suffix|..] == suffix
  }

  predicate MatchGlob(pattern: string, name: string)
    decreases |pattern|
  {
    if pattern == "**" || pattern == "**/*" then true
    else if StartsWith(pattern, "**/") then
      var tail := pattern[3..];
      MatchGlob(tail, name) || exists i :: 0 <= i < |name| && name[i] == '/' && MatchGlob(tail, name[i + 1..])
    else if EndsWith(pattern, "/**") then
      var base := pattern[..|pattern| - 3];
      name == base || StartsWith(name, base + "/")
    else Matches(pattern, name)
  }

  predicate Excluded(name: string, excludes: seq<string>) {
    exists i :: 0 <= i < |excludes| && MatchGlob(excludes[i], name)
  }

  // ---- Where a walk starts -----------------------------------------------------------

  predicate Wild(part: string) {
    '*' in part || '?' in part || '[' in part
  }

  /** The leading components without a wildcard. */
  function Literal(parts: seq<string>): seq<string> {
    if parts == [] || Wild(parts[0]) then [] else [parts[0]] + Literal(parts[1..])
  }

  predicate Proper(part: string) {
    part != "" && part != "." && part != ".."
  }

  datatype Place = Outside | Inside(parts: seq<string>)

  /** Components joined to the root as filepath.Join does it: empty ones and "." go, ".." goes
      up, and up from the root leaves the tree. */
  function Joined(at: seq<string>, parts: seq<string>): Place
    decreases |parts|
  {
    if parts == [] then Inside(at)
    else if parts[0] == "" || parts[0] == "." then Joined(at, parts[1..])
    else if parts[0] == ".." then (if at == [] then Outside else Joined(at[..|at| - 1], parts[1..]))
    else Joined(at + [parts[0]], parts[1..])
  }

  /** The directory or file a walk for the pattern starts from. */
  function WalkStart(pattern: string): Place {
    Joined([], Literal(Split(pattern)))
  }

  /** The walk from there comes to this file. */
  predicate Reached(pattern: string, name: string) {
    WalkStart(pattern).Inside? && WalkStart(pattern).parts <= Split(name)
  }

  /** The name of a file under the root. */
  predicate CleanName(name: string) {
    forall i :: 0 <= i < |Split(name)| ==> Proper(Split(name)[i])
  }

  // ---- No file is missed -------------------------------------------------------------

  lemma {:induction false} FirstOfJoin(a: string, b: string)
    requires '/' !in a
    ensures First(a + "/" + b) == a && Rest(a + "/" + b) == Some(b)
  {
    var s := a + "/" + b;
    if a == "" {
      assert s[1..] == b;
    } else {
      assert s[1..] == a[1..] + "/" + b && s[0] == a[0] && a[0] in a;
      FirstOfJoin(a[1..], b);
    }
  }

  lemma {:induction false} SplitJoin(a: string, b: string)
    ensures Split(a + "/" + b) == Split(a) + Split(b)
    decreases |a|
  {
    match Rest(a)
    case None =>
      FirstOfJoin(a, b);
    case Some(rest) =>
      assert a + "/" + b == First(a) + "/" + (rest + "/" + b);
      FirstOfJoin(First(a), rest + "/" + b);
      SplitJoin(rest, b);
  }

  /** A literal component against the component it matched: the same, or with an escape taken
      out, and then shorter. */
  predicate Fits(lit: string, part: string) {
    if '\\' in lit then |part| < |lit| else part == lit
  }

  /** The name begins with this part, and what the slash or the end after it stands for follows. */
  predicate Heads(part: string, q: string, name: string) {
    && part <= name && (q == "" ==> name == part)
    && (q != "" ==> |part| < |name| && name[|part|] == '/' && Matches(q[1..], name[|part| + 1..]))
  }

  lemma HeadsCons(part: string, q: string, name: string)
    requires name != "" && Heads(part, q, name[1..])
    ensures Heads([name[0]] + part, q, name)
  {
    assert name == [name[0]] + name[1..];
    if q != "" {
      assert name[1..][|part| + 1..] == name[|part| + 2..];
    }
  }

  lemma FitsMore(lit: string, part: string, c: char)
    requires Fits(lit, part)
    ensures c != '\\' ==> Fits([c] + lit, [c] + part)
    ensures forall x :: Fits(['\\', x] + lit, [c] + part)
  {
  }

  /** What a component without wildcards matches, up to the slash or the end that follows it. */
  lemma {:induction false} LiteralHead(lit: string, q: string, name: string) returns (part: string)
    requires !Wild(lit) && '/' !in lit && (q == "" || q[0] == '/') && Matches(lit + q, name)
    ensures '/' !in part && Fits(lit, part) && Heads(part, q, name)
    decreases |lit|
  {
    if lit == "" {
      assert lit + q == q;
      part := "";
    } else if lit == "\\" {
      assert (lit + q)[2..] == q[1..];
      part := "";
    } else {
      var n := if lit[0] == '\\' then 2 else 1;
      assert lit[0] in lit && lit[n - 1] in lit && (lit + q)[n..] == lit[n..] + q;
      part := LiteralHead(lit[n..], q, name[1..]);
      FitsMore(lit[n..], part, name[0]);
      assert lit == (if n == 2 then ['\\', lit[1]] else [lit[0]]) + lit[n..];
      HeadsCons(part, q, name);
      part := [name[0]] + part;
    }
  }

  /** Literal components against the first components of a name. */
  predicate FitsAll(lits: seq<string>, parts: seq<string>) {
    |lits| <= |parts| && forall i :: 0 <= i < |lits| ==> Fits(lits[i], parts[i])
  }

  lemma FitsCons(lit: string, lits: seq<string>, part: string, parts: seq<string>)
    requires Fits(lit, part) && FitsAll(lits, parts)
    ensures FitsAll([lit] + lits, [part] + parts)
  {
  }

  lemma LiteralCons(part: string, parts: seq<string>)
    requires !Wild(part)
    ensures Literal([part] + parts) == [part] + Literal(parts)
  {
    assert ([part] + parts)[1..] == parts;
  }

  /** What a pattern matches has, component for component, what its literal components say. */
  lemma {:induction false} LiteralsFit(pattern: string, name: string)
    requires Matches(pattern, name)
    ensures FitsAll(Literal(Split(pattern)), Split(name))
    decreases |pattern|
  {
    var first := First(pattern);
    if !Wild(first) {
      match Rest(pattern)
      case None =>
        LastFits(pattern, name);
      case Some(rest) =>
        var after := FirstFits(first, rest, name);
        LiteralsFit(rest, after);
        LiteralCons(first, Split(rest));
        FitsCons(first, Literal(Split(rest)), Split(name)[0], Split(after));
    }
  }

  lemma LastFits(pattern: string, name: string)
    requires Rest(pattern).None? && !Wild(pattern) && '/' !in pattern && Matches(pattern, name)
    ensures FitsAll(Literal(Split(pattern)), Split(name))
  {
    assert pattern == pattern + "";
    var part := LiteralHead(pattern, "", name);
    OneComponent(name);
    OneComponent(pattern);
    LiteralCons(pattern, []);
    assert [pattern] == [pattern] + [];
  }

  lemma FirstFits(first: string, rest: string, name: string) returns (after: string)
    requires !Wild(first) && '/' !in first && Matches(first + "/" + rest, name)
    ensures Matches(rest, after) && |Split(name)| > 0 && Split(name) == [Split(name)[0]] + Split(after)
    ensures Fits(first, Split(name)[0])
  {
    assert first + "/" + rest == first + ("/" + rest);
    var part := LiteralHead(first, "/" + rest, name);
    assert ("/" + rest)[1..] == rest;
    after := name[|part| + 1..];
    assert name == part + "/" + after;
    FirstOfJoin(part, after);
  }

  /** Literal components end before a wildcard. */
  lemma {:induction false} LiteralBefore(parts: seq<string>, star: string)
    requires Wild(star)
    ensures Literal(parts + [star]) <= parts
  {
    if parts == [] {
      assert parts + [star] == [star];
    } else if !Wild(parts[0]) {
      LiteralBefore(parts[1..], star);
      assert parts + [star] == [parts[0]] + (parts[1..] + [star]);
      LiteralCons(parts[0], parts[1..] + [star]);
      assert parts == [parts[0]] + parts[1..];
    }
  }

  lemma DoubleStarIsWild(pattern: string)
    requires StartsWith(pattern, "**/")
    ensures Literal(Split(pattern)) == []
  {
    var tail := pattern[3..];
    assert pattern == "**" + "/" + tail;
    SplitJoin("**", tail);
    assert Split("**") == ["**"];
    assert Split(pattern)[0] == "**" && '*' in "**";
  }

  lemma BaseUnder(base: string, name: string)
    requires name == base || StartsWith(name, base + "/")
    ensures Literal(Split(base) + Split("**")) <= Split(name)
  {
    OneComponent("**");
    assert '*' in "**";
    LiteralBefore(Split(base), "**");
    if name != base {
      UnderBase(base, name);
    }
  }

  lemma UnderBase(base: string, name: string)
    requires StartsWith(name, base + "/")
    ensures Split(base) <= Split(name)
  {
    assert name == base + "/" + name[|base| + 1..];
    SplitJoin(base, name[|base| + 1..]);
  }

  /** Components a file's name has are joined as they are. */
  lemma {:induction false} ProperJoin(at: seq<string>, parts: seq<string>)
    requires forall i :: 0 <= i < |parts| ==> Proper(parts[i])
    ensures Joined(at, parts) == Inside(at + parts)
    decreases |parts|
  {
    if parts == [] {
      assert at + parts == at;
    } else {
      assert Proper(parts[0]);
      ProperJoin(at + [parts[0]], parts[1..]);
      assert at + [parts[0]] + parts[1..] == at + parts;
    }
  }

  /** No literal component holds a backslash. */
  predicate NoEscape(pattern: string) {
    forall part :: part in Literal(Split(pattern)) ==> '\\' !in part
  }

  /** The patterns whose walk starts where their matches are. */
  predicate Walkable(pattern: string) {
    EndsWith(pattern, "/**") || NoEscape(pattern)
  }

  lemma ProperFits(lit: string, part: string)
    requires Fits(lit, part) && Proper(part)
    ensures Proper(lit)
  {
    assert '\\' !in "" && '\\' !in "." && '\\' !in "..";
  }

  lemma ReachedUnder(pattern: string, name: string)
    requires forall i :: 0 <= i < |Literal(Split(pattern))| ==> Proper(Literal(Split(pattern))[i])
    ensures Reached(pattern, name) <==> Literal(Split(pattern)) <= Split(name)
  {
    var lits := Literal(Split(pattern));
    ProperJoin([], lits);
    assert [] + lits == lits;
  }

  /** A pattern without `**`: the walk comes to a file it matches unless an escape stands in the
      literal components, and then it looks for a name that is longer than the file's. */
  lemma PlainReached(pattern: string, name: string)
    requires Matches(pattern, name) && CleanName(name)
    ensures Reached(pattern, name) <==> NoEscape(pattern)
  {
    var lits, parts := Literal(Split(pattern)), Split(name);
    LiteralsFit(pattern, name);
    forall i | 0 <= i < |lits|
      ensures Proper(lits[i])
    {
      ProperFits(lits[i], parts[i]);
    }
    ReachedUnder(pattern, name);
    if NoEscape(pattern) {
      forall i | 0 <= i < |lits|
        ensures lits[i] == parts[i]
      {
        assert lits[i] in lits;
      }
    } else {
      var lit :| lit in lits && '\\' in lit;
      var i :| 0 <= i < |lits| && lits[i] == lit;
      assert lits[i] != parts[i];
    }
  }

  lemma BaseReached(pattern: string, name: string)
    requires !StartsWith(pattern, "**/") && EndsWith(pattern, "/**") && MatchGlob(pattern, name) && CleanName(name)
    ensures Reached(pattern, name)
  {
    var base := pattern[..|pattern| - 3];
    assert pattern == base + "/" + "**";
    SplitJoin(base, "**");
    BaseUnder(base, name);
    var lits := Literal(Split(pattern));
    forall i | 0 <= i < |lits|
      ensures Proper(lits[i])
    {
      assert lits[i] == Split(name)[i];
    }
    ReachedUnder(pattern, name);
  }

  lemma StarReached(pattern: string, name: string)
    requires pattern == "**" || StartsWith(pattern, "**/")
    ensures Reached(pattern, name) && NoEscape(pattern)
  {
    if pattern == "**" {
      OneComponent(pattern);
      assert '*' in pattern && Literal(["**"]) == [];
    } else {
      DoubleStarIsWild(pattern);
    }
  }

  /** The walk comes to a file the pattern matches exactly when the pattern ends in a recursive
      wildcard, whose base is compared literally, or has no backslash before its first wildcard. */
  lemma ReachedExactlyWhen(pattern: string, name: string)
    requires MatchGlob(pattern, name) && CleanName(name)
    ensures Reached(pattern, name) <==> Walkable(pattern)
  {
    if pattern == "**" || StartsWith(pattern, "**/") {
      StarReached(pattern, name);
    } else if EndsWith(pattern, "/**") {
      BaseReached(pattern, name);
    } else {
      PlainReached(pattern, name);
    }
  }

  /** No file a pattern matches is missed by its walk, whatever files there are, exactly when the
      pattern is of that kind or matches no file name at all. */
  lemma NothingMissedExactlyWhen(pattern: string)
    ensures (forall name :: CleanName(name) && MatchGlob(pattern, name) ==> Reached(pattern, name))
            <==> Walkable(pattern) || forall name :: CleanName(name) ==> !MatchGlob(pattern, name)
  {
    forall name | CleanName(name) && MatchGlob(pattern, name)
      ensures Reached(pattern, name) <==> Walkable(pattern)
    {
      ReachedExactlyWhen(pattern, name);
    }
  }

  /** A file that is missed: the walk looks for the backslash, the match takes it for an escape. */
  lemma BackslashMisses()
    ensures MatchGlob("a\\b", "ab") && CleanName("ab") && !Reached("a\\b", "ab")
  {
    EscapeMatches("a\\b");
    OneComponent("ab");
    EscapeIsLiteral("a\\b");
    ReachedExactlyWhen("a\\b", "ab");
  }

  lemma EscapeIsLiteral(p: string)
    requires p == "a\\b"
    ensures !Walkable(p)
  {
    assert p[1] == '\\' && p[2] == 'b' && '/' !in p;
    OneComponent(p);
    LiteralCons(p, []);
    assert [p] == [p] + [] && p in Literal(Split(p));
  }

  lemma EscapeMatches(p: string)
    requires p == "a\\b"
    ensures MatchGlob(p, "ab")
  {
    EscapedB();
    assert p[0] == 'a' && p[1..] == "\\b" && "ab"[1..] == "b";
    assert Matches(p, "ab");
    assert !StartsWith(p, "**/") && !EndsWith(p, "/**");
  }

  lemma EscapedB()
    ensures Matches("\\b", "b")
  {
    assert "\\b"[2..] == "" && "b"[1..] == "";
    assert Matches("", "");
  }

  lemma {:induction false} OneComponent(s: string)
    requires '/' !in s
    ensures Split(s) == [s] && Rest(s) == None
  {
    if s != "" {
      assert s[0] in s;
      OneComponent(s[1..]);
    }
  }
}
