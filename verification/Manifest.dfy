/**
 The manifest of the live tree: which files the include and exclude patterns select, and
 whether two manifests differ (platform/context-sync/manifest.go).
 */
module Manifest {
  import opened Wrappers
  import opened Names
  import opened Globs

  datatype Stat = Stat(size: nat, mtime: int)

  /** The files under the root, by their slash-separated names. */
  type Tree = map<string, Stat>

  datatype Entry = Entry(path: string, size: nat, mtime: int)

  ghost predicate CleanTree(tree: Tree) {
    forall name :: name in tree ==> CleanName(name)
  }

  function EntryOf(tree: Tree, name: string): Entry
    requires name in tree
  {
    Entry(name, tree[name].size, tree[name].mtime)
  }

  // ---- What is to be found -----------------------------------------------------------

  /** The file is included and not excluded. */
  predicate Selected(name: string, includes: seq<string>, excludes: seq<string>) {
    !Excluded(name, excludes) && exists i :: 0 <= i < |includes| && MatchGlob(includes[i], name)
  }

  /** Some include's walk finds the file. */
  predicate Found(name: string, includes: seq<string>, excludes: seq<string>) {
    !Excluded(name, excludes)
    && exists i :: 0 <= i < |includes| && Reached(includes[i], name) && MatchGlob(includes[i], name)
  }

  /** A manifest in path order, each path once, of exactly these files. */
  ghost predicate Lists(m: seq<Entry>, files: Tree) {
    Sorted(Paths(m)) && Distinct(Paths(m))
    && (forall i :: 0 <= i < |m| ==> m[i].path in files && m[i] == EntryOf(files, m[i].path))
    && forall name :: name in files ==> name in Paths(m)
  }

  function Paths(m: seq<Entry>): (paths: seq<string>)
    ensures |paths| == |m|
    ensures forall i :: 0 <= i < |m| ==> paths[i] == m[i].path
  {
    if m == [] then [] else [m[0].path] + Paths(m[1..])
  }

  /** The files some pattern selects, and what a stat of each says. */
  ghost function Chosen(tree: Tree, includes: seq<string>, excludes: seq<string>): Tree {
    map name | name in tree && Selected(name, includes, excludes) :: tree[name]
  }

  /** An include whose walk finds what it matches takes the file, and no exclude does. */
  predicate Walked(name: string, includes: seq<string>, excludes: seq<string>) {
    !Excluded(name, excludes)
    && exists i :: 0 <= i < |includes| && Walkable(includes[i]) && MatchGlob(includes[i], name)
  }

  /** The files those includes select. */
  ghost function WalkedOf(tree: Tree, includes: seq<string>, excludes: seq<string>): Tree {
    map name | name in tree && Walked(name, includes, excludes) :: tree[name]
  }

  /** Walking from each include's literal components finds what testing every file against the
      walkable includes finds. */
  lemma FoundExactlyWhen(name: string, includes: seq<string>, excludes: seq<string>)
    requires CleanName(name)
    ensures Found(name, includes, excludes) <==> Walked(name, includes, excludes)
  {
    forall i | 0 <= i < |includes| && MatchGlob(includes[i], name)
      ensures Reached(includes[i], name) <==> Walkable(includes[i])
    {
      ReachedExactlyWhen(includes[i], name);
    }
  }

  /** Every file name an include that cannot be walked would select is selected by one that can. */
  ghost predicate Covered(includes: seq<string>, excludes: seq<string>) {
    forall name :: CleanName(name) && Selected(name, includes, excludes) ==> Walked(name, includes, excludes)
  }

  /** What is walked is what is selected, in every tree. */
  ghost predicate WalkingIsTesting(includes: seq<string>, excludes: seq<string>) {
    forall tree :: CleanTree(tree) ==> WalkedOf(tree, includes, excludes) == Chosen(tree, includes, excludes)
  }

  lemma WalkedIsSelected(name: string, includes: seq<string>, excludes: seq<string>)
    requires Walked(name, includes, excludes)
    ensures Selected(name, includes, excludes)
  {
    var i :| 0 <= i < |includes| && Walkable(includes[i]) && MatchGlob(includes[i], name);
  }

  /** Walking from the literal components finds, in every tree, what putting each file to every
      pattern would find exactly when the includes that can be walked cover the others; it does
      when every include can be walked. */
  lemma WalkingIsTestingExactlyWhen(includes: seq<string>, excludes: seq<string>)
    ensures WalkingIsTesting(includes, excludes) <==> Covered(includes, excludes)
    ensures (forall i :: 0 <= i < |includes| ==> Walkable(includes[i])) ==> Covered(includes, excludes)
  {
    if WalkingIsTesting(includes, excludes) {
      forall name | CleanName(name) && Selected(name, includes, excludes)
        ensures Walked(name, includes, excludes)
      {
        var tree: Tree := map[name := Stat(0, 0)];
        assert CleanTree(tree) && name in Chosen(tree, includes, excludes);
        assert name in WalkedOf(tree, includes, excludes);
      }
    }
    if Covered(includes, excludes) {
      forall tree | CleanTree(tree)
        ensures WalkedOf(tree, includes, excludes) == Chosen(tree, includes, excludes)
      {
        CoveredTree(tree, includes, excludes);
      }
    }
  }

  lemma CoveredTree(tree: Tree, includes: seq<string>, excludes: seq<string>)
    requires CleanTree(tree) && Covered(includes, excludes)
    ensures WalkedOf(tree, includes, excludes) == Chosen(tree, includes, excludes)
  {
    forall name | name in tree
      ensures Walked(name, includes, excludes) <==> Selected(name, includes, excludes)
    {
      if Walked(name, includes, excludes) {
        WalkedIsSelected(name, includes, excludes);
      }
    }
  }

  // ---- Scanning ----------------------------------------------------------------------

  method WalkGlob(tree: Tree, pattern: string, excludes: seq<string>, before: Tree) returns (out: Tree)
    requires forall name :: name in before ==> name in tree && before[name] == tree[name]
    ensures forall name :: name in out ==> name in tree && out[name] == tree[name]
    ensures forall name :: name in tree ==>
              (name in out <==> name in before
                                || (Reached(pattern, name) && MatchGlob(pattern, name) && !Excluded(name, excludes)))
  {
    out := before;
    var todo := set name | name in tree && Reached(pattern, name);
    while todo != {}
      invariant forall name :: name in todo ==> name in tree && Reached(pattern, name)
      invariant forall name :: name in out ==> name in tree && out[name] == tree[name]
      invariant forall name :: name in tree && name !in todo ==>
                  (name in out <==> name in before
                                    || (Reached(pattern, name) && MatchGlob(pattern, name) && !Excluded(name, excludes)))
      invariant forall name :: name in todo ==> (name in out <==> name in before)
      decreases todo
    {
      var name :| name in todo;
      todo := todo - {name};
      if MatchGlob(pattern, name) && !Excluded(name, excludes) {
        out := out[name := tree[name]];
      }
    }
  }

  method SortedNames(files: Tree) returns (names: seq<string>)
    ensures Sorted(names) && Distinct(names) && forall name :: name in names <==> name in files
  {
    names := [];
    var todo := files.Keys;
    while todo != {}
      invariant todo <= files.Keys && Distinct(names)
      invariant forall name :: name in names <==> name in files && name !in todo
      decreases todo
    {
      var name :| name in todo;
      todo := todo - {name};
      names := names + [name];
    }
    SortLists(names);
    names := Sort(names);
  }

  method Listed(files: Tree) returns (m: seq<Entry>)
    ensures Lists(m, files)
  {
    var names := SortedNames(files);
    m := EntriesOf(files, names);
    EntriesList(m, names, files);
  }

  method EntriesOf(files: Tree, names: seq<string>) returns (m: seq<Entry>)
    requires forall name :: name in names ==> name in files
    ensures |m| == |names| && forall k :: 0 <= k < |m| ==> names[k] in files && m[k] == EntryOf(files, names[k])
  {
    m := [];
    for i := 0 to |names|
      invariant |m| == i && forall k :: 0 <= k < i ==> names[k] in files && m[k] == EntryOf(files, names[k])
    {
      m := m + [EntryOf(files, names[i])];
    }
  }

  lemma EntriesList(m: seq<Entry>, names: seq<string>, files: Tree)
    requires |m| == |names| && forall k :: 0 <= k < |m| ==> names[k] in files && m[k] == EntryOf(files, names[k])
    requires Sorted(names) && Distinct(names) && forall name :: name in names <==> name in files
    ensures Lists(m, files)
  {
    assert Paths(m) == names;
  }

  /** The manifest is the sorted listing of the files the includes that can be walked select. */
  method Scan(tree: Tree, includes: seq<string>, excludes: seq<string>) returns (m: seq<Entry>)
    requires CleanTree(tree)
    ensures Lists(m, WalkedOf(tree, includes, excludes))
    ensures Covered(includes, excludes) ==> Lists(m, Chosen(tree, includes, excludes))
  {
    var seen: Tree := map[];
    for i := 0 to |includes|
      invariant forall name :: name in seen ==> name in tree && seen[name] == tree[name]
      invariant forall name :: name in tree ==> (name in seen <==> Found(name, includes[..i], excludes))
    {
      seen := WalkGlob(tree, includes[i], excludes, seen);
      forall name | name in tree
        ensures name in seen <==> Found(name, includes[..i + 1], excludes)
      {
        FoundGrows(name, includes, i, excludes);
      }
    }
    assert includes[..|includes|] == includes;
    FoundIsWalked(tree, seen, includes, excludes);
    m := Listed(seen);
    if Covered(includes, excludes) {
      CoveredTree(tree, includes, excludes);
    }
  }

  lemma FoundIsWalked(tree: Tree, seen: Tree, includes: seq<string>, excludes: seq<string>)
    requires CleanTree(tree)
    requires forall name :: name in seen ==> name in tree && seen[name] == tree[name]
    requires forall name :: name in tree ==> (name in seen <==> Found(name, includes, excludes))
    ensures seen == WalkedOf(tree, includes, excludes)
  {
    forall name | name in tree
      ensures Found(name, includes, excludes) <==> Walked(name, includes, excludes)
    {
      FoundExactlyWhen(name, includes, excludes);
    }
  }

  lemma FoundGrows(name: string, includes: seq<string>, i: nat, excludes: seq<string>)
    requires i < |includes|
    ensures Found(name, includes[..i + 1], excludes)
            <==> Found(name, includes[..i], excludes)
                 || (Reached(includes[i], name) && MatchGlob(includes[i], name) && !Excluded(name, excludes))
  {
    var more := includes[..i + 1];
    assert forall k :: 0 <= k < i ==> more[k] == includes[..i][k];
    assert more[i] == includes[i];
    if Found(name, more, excludes) {
      var k :| 0 <= k < |more| && Reached(more[k], name) && MatchGlob(more[k], name);
      assert k < i ==> Reached(includes[..i][k], name);
    }
    if Found(name, includes[..i], excludes) {
      var k :| 0 <= k < i && Reached(includes[..i][k], name) && MatchGlob(includes[..i][k], name);
      assert Reached(more[k], name) && MatchGlob(more[k], name);
    }
    if Reached(includes[i], name) && MatchGlob(includes[i], name) {
      assert Reached(more[i], name) && MatchGlob(more[i], name);
    }
  }

  // ---- Change ------------------------------------------------------------------------

  method Changed(m: seq<Entry>, prev: seq<Entry>) returns (changed: bool)
    ensures changed == (m != prev)
  {
    if |m| != |prev| {
      return true;
    }
    for i := 0 to |m|
      invariant m[..i] == prev[..i]
    {
      if m[i] != prev[i] {
        return true;
      }
    }
    assert m == m[..|m|] && prev == prev[..|m|];
    return false;
  }

  /** Listings in order differ exactly when what they list does: a manifest says changed if and
      only if some file came, went, or changed size or time. */
  lemma ChangedExactlyWhen(m: seq<Entry>, prev: seq<Entry>, now: Tree, earlier: Tree)
    requires Lists(m, now) && Lists(prev, earlier)
    ensures m == prev <==> now == earlier
  {
    if now == earlier {
      SameListing(m, prev, now);
    }
    if m == prev {
      SameFiles(m, now, earlier);
      SameFiles(m, earlier, now);
      assert now == earlier;
    }
  }

  lemma SameFiles(m: seq<Entry>, a: Tree, b: Tree)
    requires Lists(m, a) && Lists(m, b)
    ensures forall name :: name in a ==> name in b && a[name] == b[name]
  {
    forall name | name in a
      ensures name in b && a[name] == b[name]
    {
      assert name in Paths(m);
      var i :| 0 <= i < |m| && Paths(m)[i] == name;
      assert m[i] == EntryOf(a, name) == EntryOf(b, name);
    }
  }

  lemma SameListing(m: seq<Entry>, n: seq<Entry>, files: Tree)
    requires Lists(m, files) && Lists(n, files)
    ensures m == n
  {
    forall name
      ensures name in Paths(m) <==> name in Paths(n)
    {
      ListedPath(m, files, name);
      ListedPath(n, files, name);
    }
    SortedIsUnique(Paths(m), Paths(n));
    forall i | 0 <= i < |m|
      ensures m[i] == n[i]
    {
      assert Paths(m)[i] == Paths(n)[i];
    }
  }

  lemma ListedPath(m: seq<Entry>, files: Tree, name: string)
    requires Lists(m, files)
    ensures name in Paths(m) <==> name in files
  {
    if name in Paths(m) {
      var i :| 0 <= i < |m| && Paths(m)[i] == name;
    }
  }
}
