/** Printing a path and resolving one undo each other. */
module PwdProofs {
  import opened Options
  import opened Pwd

  // ----- Resolving an absolute path -----

  /** The characters up to the next slash. */
  function Word(path: string): (w: string)
    ensures |w| <= |path| && w == path[..|w|] && '/' !in w
    ensures |w| < |path| ==> path[|w|] == '/'
  {
    if path == [] || path[0] == '/' then [] else [path[0]] + Word(path[1..])
  }

  function Components(path: string): seq<string>
    decreases |path|
  {
    if path == [] then []
    else if path[0] == '/' then Components(path[1..])
    else [Word(path)] + Components(path[|Word(path)|..])
  }

  function Descend(fs: Fs, d: Ino, names: seq<string>): Option<Ino>
    decreases names
  {
    if names == [] then Some(d)
    else if d !in fs || Lookup(fs[d], names[0]).None? then None
    else Descend(fs, Lookup(fs[d], names[0]).value, names[1..])
  }

  /** The empty path names nothing; only absolute paths are resolved here. */
  function Resolve(fs: Fs, root: Ino, path: string): Option<Ino> {
    if path == [] || path[0] != '/' then None else Descend(fs, root, Components(path))
  }

  ghost predicate ProperNames(names: seq<string>) {
    forall i :: 0 <= i < |names| ==> ProperName(names[i])
  }

  lemma {:induction false} WordOf(name: string, rest: string)
    requires '/' !in name && (rest == [] || rest[0] == '/')
    ensures Word(name + rest) == name
  {
    if name == [] {
      assert name + rest == rest;
    } else {
      assert (name + rest)[1..] == name[1..] + rest;
      WordOf(name[1..], rest);
    }
  }

  lemma FirstComponent(name: string, rest: string)
    requires ProperName(name) && (rest == [] || rest[0] == '/')
    ensures Components(['/'] + name + rest) == [name] + Components(rest)
  {
    var path := name + rest;
    assert (['/'] + name + rest)[0] == '/' && (['/'] + name + rest)[1..] == path;
    WordOf(name, rest);
    assert path[|name|..] == rest;
    assert path[0] == name[0] && name[0] in name;
  }

  lemma {:induction false} ComponentsOfJoin(names: seq<string>)
    requires ProperNames(names)
    ensures Components(Join(names)) == names
    ensures names != [] ==> Join(names) != [] && Join(names)[0] == '/'
  {
    if names == [] {
    } else {
      ComponentsOfJoin(names[1..]);
      FirstComponent(names[0], Join(names[1..]));
      assert names == [names[0]] + names[1..];
    }
  }

  lemma {:induction false} DescendAppend(fs: Fs, d: Ino, a: seq<string>, b: seq<string>)
    ensures Descend(fs, d, a + b) == if Descend(fs, d, a).None? then None else Descend(fs, Descend(fs, d, a).value, b)
    decreases a
  {
    if a == [] {
      assert a + b == b;
    } else {
      assert (a + b)[0] == a[0] && (a + b)[1..] == a[1..] + b;
      if d in fs && Lookup(fs[d], a[0]).Some? {
        DescendAppend(fs, Lookup(fs[d], a[0]).value, a[1..], b);
      }
    }
  }

  lemma DescendOne(fs: Fs, d: Ino, name: string)
    requires d in fs
    ensures Descend(fs, d, [name]) == Lookup(fs[d], name)
  {
    assert [name][1..] == [];
  }

  // ----- What the program prints leads back -----

  /** In a directory with distinct names, the first entry with an inode number is found under its name. */
  lemma LookupOfEntry(entries: seq<Entry>, i: nat)
    requires DistinctNames(entries) && i < |entries|
    ensures Lookup(entries, entries[i].name) == Some(entries[i].ino)
  {
    var r := Lookup(entries, entries[i].name);
    if r.Some? {
      var j :| 0 <= j < |entries| && entries[j] == Entry(entries[i].name, r.value);
      assert j == i;
    }
  }

  /** The entry found in the parent is the true child, never one of the dot entries. */
  lemma FirstMatchIsChild(fs: Fs, root: Ino, depth: map<Ino, nat>, d: Ino)
    requires IsTree(fs, root, depth) && d in fs && d != root
    ensures var p := Parent(fs, d);
            && p in fs && NameOf(fs[p], d).Some?
            && var name := NameOf(fs[p], d).value;
               !IsDot(name) && ProperName(name) && Lookup(fs[p], name) == Some(d)
  {
    TreeParent(fs, root, depth, d);
    var p := Parent(fs, d);
    TreeParent(fs, root, depth, p);
    assert DirectoryOk(fs, root, depth, p);
    var name := NameOf(fs[p], d).value;
    var i :| 0 <= i < |fs[p]| && fs[p][i] == Entry(name, d);
    LookupOfEntry(fs[p], i);
    TreeParent(fs, root, depth, Parent(fs, p));
  }

  /** The names the program collects lead from the root to where it started. */
  lemma {:induction false} PathLeadsBack(fs: Fs, root: Ino, depth: map<Ino, nat>, d: Ino)
    requires IsTree(fs, root, depth) && d in fs
    ensures ProperNames(PathOf(fs, root, depth, d)) && Descend(fs, root, PathOf(fs, root, depth, d)) == Some(d)
    ensures |PathOf(fs, root, depth, d)| == depth[d]
    decreases depth[d]
  {
    assert DirectoryOk(fs, root, depth, d);
    if d != root {
      var p := Parent(fs, d);
      TreeParent(fs, root, depth, d);
      FirstMatchIsChild(fs, root, depth, d);
      PathLeadsBack(fs, root, depth, p);
      var name := NameOf(fs[p], d).value;
      DescendAppend(fs, root, PathOf(fs, root, depth, p), [name]);
      DescendOne(fs, p, name);
    }
  }

  /** The printed path resolves to the starting directory, except at the root, where nothing is printed. */
  lemma PrintedPathResolvesIff(fs: Fs, root: Ino, depth: map<Ino, nat>, d: Ino)
    requires IsTree(fs, root, depth) && d in fs
    ensures Resolve(fs, root, Join(PathOf(fs, root, depth, d))) == Some(d) <==> d != root
    ensures d == root ==> Join(PathOf(fs, root, depth, d)) == []
  {
    var names := PathOf(fs, root, depth, d);
    assert DirectoryOk(fs, root, depth, d);
    PathLeadsBack(fs, root, depth, d);
    if d != root {
      ComponentsOfJoin(names);
    }
  }

  // ----- Every other way round -----

  ghost predicate NoDots(names: seq<string>) {
    forall i :: 0 <= i < |names| ==> !IsDot(names[i])
  }

  /** A directory reached by a name other than a dot entry is a child, and the program finds that name. */
  lemma ChildHasOneName(fs: Fs, root: Ino, depth: map<Ino, nat>, p: Ino, name: string)
    requires IsTree(fs, root, depth) && NoHardLinks(fs, root)
    requires p in fs && !IsDot(name) && Lookup(fs[p], name).Some? && Lookup(fs[p], name).value in fs
    ensures var d := Lookup(fs[p], name).value;
            d != root && Parent(fs, d) == p && NameOf(fs[p], d) == Some(name)
  {
    var d := Lookup(fs[p], name).value;
    var i :| 0 <= i < |fs[p]| && fs[p][i] == Entry(name, d);
    FirstMatchIsChild(fs, root, depth, d);
    var found := NameOf(fs[p], d).value;
    var j :| 0 <= j < |fs[p]| && fs[p][j] == Entry(found, d);
    assert i == j;
  }

  /** Printing undoes resolving: a path of ordinary names to a directory is the one the program prints there. */
  lemma {:induction false} ResolvedPathIsPrinted(fs: Fs, root: Ino, depth: map<Ino, nat>, names: seq<string>)
    requires IsTree(fs, root, depth) && NoHardLinks(fs, root) && NoDots(names)
    requires Descend(fs, root, names).Some? && Descend(fs, root, names).value in fs
    ensures PathOf(fs, root, depth, Descend(fs, root, names).value) == names
    decreases |names|
  {
    assert DirectoryOk(fs, root, depth, root);
    if names == [] {
    } else {
      var front, last := names[..|names| - 1], names[|names| - 1];
      assert names == front + [last];
      DescendAppend(fs, root, front, [last]);
      var p := Descend(fs, root, front).value;
      assert p in fs;
      DescendOne(fs, p, last);
      ResolvedPathIsPrinted(fs, root, depth, front);
      ChildHasOneName(fs, root, depth, p, last);
    }
  }
}
