/**
The path printer of MyPwd/mypwd.c: it climbs from the current directory to the root, finding the name of
each directory in its parent by inode number.
*/
module Pwd {
  import opened Options

  type Ino = nat

  datatype Entry = Entry(name: string, ino: Ino)

  /** The directories, each with its entries in the order readdir gives them; other inodes are files. */
  type Fs = map<Ino, seq<Entry>>

  // ----- Directories -----

  /** What stat and chdir find under a name. */
  function Lookup(entries: seq<Entry>, name: string): (r: Option<Ino>)
    ensures r.Some? ==> exists i :: 0 <= i < |entries| && entries[i] == Entry(name, r.value)
                                    && forall j :: 0 <= j < i ==> entries[j].name != name
    ensures r.None? ==> forall i :: 0 <= i < |entries| ==> entries[i].name != name
  {
    if entries == [] then None
    else if entries[0].name == name then
      assert entries[0] == Entry(name, entries[0].ino);
      Some(entries[0].ino)
    else
      var r := Lookup(entries[1..], name);
      assert forall i :: 0 < i < |entries| ==> entries[i] == entries[1..][i - 1];
      assert forall i :: 0 <= i < |entries[1..]| ==> entries[1..][i] == entries[i + 1];
      r
  }

  /** The name of the first entry with the inode number. */
  function NameOf(entries: seq<Entry>, ino: Ino): (r: Option<string>)
    ensures r.Some? ==> exists i :: 0 <= i < |entries| && entries[i] == Entry(r.value, ino)
                                    && forall j :: 0 <= j < i ==> entries[j].ino != ino
    ensures r.None? ==> forall i :: 0 <= i < |entries| ==> entries[i].ino != ino
  {
    if entries == [] then None
    else if entries[0].ino == ino then
      assert entries[0] == Entry(entries[0].name, ino);
      Some(entries[0].name)
    else
      var r := NameOf(entries[1..], ino);
      assert forall i :: 0 < i < |entries| ==> entries[i] == entries[1..][i - 1];
      assert forall i :: 0 <= i < |entries[1..]| ==> entries[1..][i] == entries[i + 1];
      r
  }

  predicate DistinctNames(entries: seq<Entry>) {
    forall i, j :: 0 <= i < j < |entries| ==> entries[i].name != entries[j].name
  }

  predicate ProperName(name: string) {
    name != [] && '/' !in name
  }

  function Parent(fs: Fs, d: Ino): Ino
    requires d in fs
  {
    var r := Lookup(fs[d], "..");
    if r.Some? then r.value else d
  }

  predicate IsDot(name: string) {
    name == "." || name == ".."
  }

  /** What every directory has: `.`, `..`, and, unless it is the root, an entry in its parent. */
  ghost predicate DirectoryOk(fs: Fs, root: Ino, depth: map<Ino, nat>, d: Ino)
    requires d in fs && depth.Keys == fs.Keys
  {
    var p := Parent(fs, d);
    && DistinctNames(fs[d]) && (forall i :: 0 <= i < |fs[d]| ==> ProperName(fs[d][i].name))
    && Lookup(fs[d], ".") == Some(d) && Lookup(fs[d], "..") == Some(p) && p in fs
    && (if d == root then p == d && depth[d] == 0
        else depth[d] == depth[p] + 1 && exists i :: 0 <= i < |fs[p]| && fs[p][i].ino == d)
  }

  /** A finite directory tree: `depth` counts the steps from each directory up to the root. */
  ghost predicate IsTree(fs: Fs, root: Ino, depth: map<Ino, nat>) {
    && root in fs && depth.Keys == fs.Keys
    && forall d {:trigger DirectoryOk(fs, root, depth, d)} :: d in fs ==> DirectoryOk(fs, root, depth, d)
  }

  /** No directory has a second entry, in its parent or elsewhere, besides the dot entries. */
  ghost predicate NoHardLinks(fs: Fs, root: Ino) {
    && (forall d, i :: d in fs && 0 <= i < |fs[d]| && !IsDot(fs[d][i].name) && fs[d][i].ino in fs ==>
          fs[d][i].ino != root && Parent(fs, fs[d][i].ino) == d)
    && (forall d, i, j :: d in fs && 0 <= i < j < |fs[d]| && fs[d][i].ino == fs[d][j].ino && fs[d][i].ino in fs ==>
          IsDot(fs[d][i].name) || IsDot(fs[d][j].name))
  }

  lemma TreeParent(fs: Fs, root: Ino, depth: map<Ino, nat>, d: Ino)
    requires IsTree(fs, root, depth) && d in fs
    ensures Lookup(fs[d], ".") == Some(d) && Lookup(fs[d], "..") == Some(Parent(fs, d)) && Parent(fs, d) in fs
    ensures Parent(fs, d) == d <==> d == root
    ensures d != root ==> depth[Parent(fs, d)] < depth[d] && NameOf(fs[Parent(fs, d)], d).Some?
  {
    assert DirectoryOk(fs, root, depth, d);
  }

  // ----- The path -----

  /** The names from the root down to d, as the program finds them. */
  ghost function PathOf(fs: Fs, root: Ino, depth: map<Ino, nat>, d: Ino): seq<string>
    requires IsTree(fs, root, depth) && d in fs
    decreases depth[d]
  {
    TreeParent(fs, root, depth, d);
    if d == root then []
    else
      var p := Parent(fs, d);
      PathOf(fs, root, depth, p) + [NameOf(fs[p], d).value]
  }

  function Join(names: seq<string>): string {
    if names == [] then [] else ['/'] + names[0] + Join(names[1..])
  }

  /** The process: its current directory and what it has printed. */
  class Process {
    const fs: Fs
    var cwd: Ino
    var output: string

    constructor (fs: Fs, cwd: Ino)
      ensures this.fs == fs && this.cwd == cwd && output == []
    {
      this.fs, this.cwd, this.output := fs, cwd, [];
    }

    /** stat of a name: the number of the first entry that carries it; none stands for the error exit. */
    method GetInode(fname: string) returns (ino: Option<Ino>)
      ensures ino.Some? <==> cwd in fs && exists i :: 0 <= i < |fs[cwd]| && fs[cwd][i].name == fname
      ensures ino.Some? ==>
                exists i :: 0 <= i < |fs[cwd]| && fs[cwd][i] == Entry(fname, ino.value)
                            && forall j :: 0 <= j < i ==> fs[cwd][j].name != fname
      ensures ino == if cwd in fs then Lookup(fs[cwd], fname) else None
    {
      if cwd !in fs {
        return None;
      }
      var dir := fs[cwd];
      for i := 0 to |dir|
        invariant forall j :: 0 <= j < i ==> dir[j].name != fname
        invariant Lookup(dir[i..], fname) == Lookup(dir, fname)
      {
        if dir[i].name == fname {
          assert dir[i] == Entry(fname, dir[i].ino);
          return Some(dir[i].ino);
        }
        assert dir[i..][1..] == dir[i + 1..];
      }
      return None;
    }

    /** The loop over the entries of the current directory; none stands for the error exit. */
    method InumToName(inode: Ino) returns (name: Option<string>)
      ensures name.Some? <==> cwd in fs && exists i :: 0 <= i < |fs[cwd]| && fs[cwd][i].ino == inode
      ensures name.Some? ==>
                exists i :: 0 <= i < |fs[cwd]| && fs[cwd][i] == Entry(name.value, inode)
                            && forall j :: 0 <= j < i ==> fs[cwd][j].ino != inode
      ensures name == if cwd in fs then NameOf(fs[cwd], inode) else None
    {
      if cwd !in fs {
        return None;
      }
      var dir := fs[cwd];
      for i := 0 to |dir|
        invariant forall j :: 0 <= j < i ==> dir[j].ino != inode
        invariant NameOf(dir[i..], inode) == NameOf(dir, inode)
      {
        if dir[i].ino == inode {
          assert dir[i] == Entry(dir[i].name, inode);
          return Some(dir[i].name);
        }
        assert dir[i..][1..] == dir[i + 1..];
      }
      return None;
    }

    /** Prints the path of the current directory; fails only on a file system that is not a tree. */
    method PrintPathTo(thisNode: Ino, ghost root: Ino, ghost depth: map<Ino, nat>) returns (ok: bool)
      requires IsTree(fs, root, depth) && thisNode in fs && cwd == thisNode
      modifies this
      ensures ok && cwd == root
      ensures output == old(output) + Join(PathOf(fs, root, depth, thisNode))
      decreases depth[thisNode]
    {
      TreeParent(fs, root, depth, thisNode);
      var up := GetInode("..");
      if up == None {
        return false;
      }
      if up.value != thisNode {
        TreeParent(fs, root, depth, up.value);
        JoinClimb(fs, root, depth, thisNode);
        cwd := up.value;
        var itsName := InumToName(thisNode);
        var myNode := GetInode(".");
        if itsName == None || myNode == None {
          return false;
        }
        ok := PrintPathTo(myNode.value, root, depth);
        if !ok {
          return false;
        }
        output := output + "/" + itsName.value;
        Regroup(old(output), Join(PathOf(fs, root, depth, up.value)), itsName.value);
      }
      return true;
    }

    /** The whole program: none when it exits with an error, otherwise the line it prints. */
    method PrintWorkingDirectory(ghost root: Ino, ghost depth: map<Ino, nat>) returns (line: Option<string>)
      requires IsTree(fs, root, depth) && cwd in fs && output == []
      modifies this
      ensures line == Some(Join(PathOf(fs, root, depth, old(cwd))) + "\n")
    {
      TreeParent(fs, root, depth, cwd);
      var here := GetInode(".");
      if here == None {
        return None;
      }
      var ok := PrintPathTo(here.value, root, depth);
      if !ok {
        return None;
      }
      assert output == Join(PathOf(fs, root, depth, old(cwd)));
      return Some(output + "\n");
    }
  }

  lemma Regroup(a: string, b: string, name: string)
    ensures a + b + "/" + name == a + (b + "/" + name)
  {
  }

  lemma {:induction false} JoinSnoc(names: seq<string>, name: string)
    ensures Join(names + [name]) == Join(names) + "/" + name
  {
    if names == [] {
      assert [name][1..] == [] && Join([]) == [];
    } else {
      var front := ['/'] + names[0];
      assert (names + [name])[0] == names[0] && (names + [name])[1..] == names[1..] + [name];
      JoinSnoc(names[1..], name);
      assert front + ((Join(names[1..]) + "/") + name) == ((front + Join(names[1..])) + "/") + name;
    }
  }

  /** The printed path of a directory is that of its parent with one more name. */
  lemma JoinClimb(fs: Fs, root: Ino, depth: map<Ino, nat>, d: Ino)
    requires IsTree(fs, root, depth) && d in fs && d != root
    ensures var p := Parent(fs, d);
            p in fs && NameOf(fs[p], d).Some?
            && Join(PathOf(fs, root, depth, d)) == Join(PathOf(fs, root, depth, p)) + "/" + NameOf(fs[p], d).value
  {
    TreeParent(fs, root, depth, d);
    var p := Parent(fs, d);
    JoinSnoc(PathOf(fs, root, depth, p), NameOf(fs[p], d).value);
  }
}
