/** Values of the Git model: file trees, commits, checkouts, and what the status
    commands report about them.  A content hash is modelled by the content itself,
    that is, the hash is taken to be injective. */
module Git {
  import opened Prelude

  type Path = string
  type Loc = string  // where a checkout lives on disk
  type Sha = nat

  /** A regular file: either its bytes decode as UTF-8, or they do not. */
  datatype Content = Text(text: string) | Binary(blob: nat)

  type Tree = map<Path, Content>

  datatype Commit = Commit(parents: seq<Sha>, tree: Tree)

  datatype Checkout = Checkout(head: Sha, index: Tree, worktree: Tree)

  /** Whether Git ignores an untracked path; the rule may read the working tree,
      because ignore files are part of it. */
  type IgnoreRule = (Tree, Path) -> bool

  /** All repositories on the machine.  Commits are content addressed, so one
      object store serves every checkout. */
  datatype DiskState = DiskState(commits: map<Sha, Commit>, checkouts: map<Loc, Checkout>) {
    predicate Valid() {
      && (forall c :: c in checkouts ==> checkouts[c].head in commits)
      && (forall s :: s in commits ==> forall k :: 0 <= k < |commits[s].parents| ==> commits[s].parents[k] in commits)
    }

    function HeadTree(root: Loc): Tree
      requires Valid() && root in checkouts
    {
      commits[checkouts[root].head].tree
    }
  }

  /** Commit objects are never rewritten and no checkout appears or disappears. */
  predicate Grows(before: DiskState, after: DiskState) {
    && before.checkouts.Keys == after.checkouts.Keys
    && before.commits.Items <= after.commits.Items
  }

  lemma Kept(before: DiskState, after: DiskState, s: Sha)
    requires Grows(before, after) && s in before.commits
    ensures s in after.commits && after.commits[s] == before.commits[s]
  {
    assert (s, before.commits[s]) in before.commits.Items;
  }

  function At(t: Tree, p: Path): Option<Content> {
    if p in t then Some(t[p]) else None
  }

  function DiffPaths(a: Tree, b: Tree): (r: set<Path>)
    ensures forall p :: p in r <==> At(a, p) != At(b, p)
  {
    set p | p in a.Keys + b.Keys && At(a, p) != At(b, p)
  }

  /** `dst` with its entries at `paths` replaced by (or removed as in) `src`. */
  function Copy(src: Tree, dst: Tree, paths: set<Path>): (r: Tree)
    ensures forall p :: At(r, p) == if p in paths then At(src, p) else At(dst, p)
  {
    map p | p in src.Keys + dst.Keys && (if p in paths then p in src else p in dst)
      :: if p in paths then src[p] else dst[p]
  }

  /** The entries of `t` at `paths`, as the hash of each file. */
  function Pick(t: Tree, paths: set<Path>): (r: Tree)
    ensures paths <= t.Keys ==> r.Keys == paths
  {
    map p | p in paths && p in t :: t[p]
  }

  /** `git diff --cached --name-only` */
  function StagedPaths(d: DiskState, root: Loc): set<Path>
    requires d.Valid() && root in d.checkouts
  {
    DiffPaths(d.checkouts[root].index, d.HeadTree(root))
  }

  /** `git diff --name-only` */
  function TrackedChanges(c: Checkout): set<Path> {
    set p | p in c.index && At(c.index, p) != At(c.worktree, p)
  }

  /** `git ls-files --others --exclude-standard` */
  function UntrackedPaths(ignored: IgnoreRule, c: Checkout): set<Path> {
    set p | p in c.worktree && p !in c.index && !ignored(c.worktree, p)
  }

  function ChangedPaths(ignored: IgnoreRule, d: DiskState, root: Loc): set<Path>
    requires d.Valid() && root in d.checkouts
  {
    TrackedChanges(d.checkouts[root]) + StagedPaths(d, root) + UntrackedPaths(ignored, d.checkouts[root])
  }

  function UntrackedFiles(ignored: IgnoreRule, c: Checkout): Tree {
    map p | p in UntrackedPaths(ignored, c) :: c.worktree[p]
  }

  /** Every expected untracked file is still there, untracked, with the expected content. */
  predicate UntrackedIntact(ignored: IgnoreRule, c: Checkout, expected: Tree) {
    && expected.Keys <= UntrackedPaths(ignored, c)
    && (forall p :: p in expected ==> At(c.worktree, p) == Some(expected[p]))
  }

  /** `git diff-tree -r`: a root or merge commit lists nothing. */
  function CommitChangedPaths(commits: map<Sha, Commit>, s: Sha): set<Path>
    requires s in commits
    requires forall k :: 0 <= k < |commits[s].parents| ==> commits[s].parents[k] in commits
  {
    if |commits[s].parents| == 1 then DiffPaths(commits[s].tree, commits[commits[s].parents[0]].tree) else {}
  }

  lemma SameTree(a: Tree, b: Tree)
    ensures a == b <==> forall p :: At(a, p) == At(b, p)
  {
    if forall p :: At(a, p) == At(b, p) {
      forall p
        ensures (p in a <==> p in b) && (p in a ==> a[p] == b[p])
      {
        assert At(a, p) == At(b, p);
      }
    }
  }

  /** Two trees differ nowhere exactly when they are the same tree. */
  lemma NoDiffMeansSame(a: Tree, b: Tree)
    ensures DiffPaths(a, b) == {} <==> a == b
  {
    if DiffPaths(a, b) == {} {
      forall p
        ensures At(a, p) == At(b, p)
      {
        assert p in DiffPaths(a, b) <==> At(a, p) != At(b, p);
      }
      SameTree(a, b);
    }
  }

  /** Nothing is reported as changed exactly when index, head and tracked files agree, and every other file
      is ignored. */
  lemma CleanExactly(ignored: IgnoreRule, d: DiskState, root: Loc)
    requires d.Valid() && root in d.checkouts
    ensures var c := d.checkouts[root];
      ChangedPaths(ignored, d, root) == {} <==>
      && c.index == d.commits[c.head].tree
      && (forall p :: p in c.index ==> p in c.worktree && c.worktree[p] == c.index[p])
      && (forall p :: p in c.worktree && p !in c.index ==> ignored(c.worktree, p))
  {
    var c, changed := d.checkouts[root], ChangedPaths(ignored, d, root);
    NoDiffMeansSame(c.index, d.commits[c.head].tree);
    forall p
      ensures p in changed <==> p in TrackedChanges(c) || p in StagedPaths(d, root) || p in UntrackedPaths(ignored, c)
      ensures p in TrackedChanges(c) <==> p in c.index && (p !in c.worktree || c.worktree[p] != c.index[p])
      ensures p in UntrackedPaths(ignored, c) <==> p in c.worktree && p !in c.index && !ignored(c.worktree, p)
    {
    }
    if changed == {} {
      assert StagedPaths(d, root) == {};
    } else {
      var p :| p in changed;
    }
  }

  /** Universal newlines, as Python's text mode reads a file. */
  function Newlines(s: string): string {
    if s == "" then ""
    else if s[0] != '\r' then [s[0]] + Newlines(s[1..])
    else if |s| > 1 && s[1] == '\n' then ['\n'] + Newlines(s[2..])
    else ['\n'] + Newlines(s[1..])
  }

  lemma {:induction false} NewlinesHasNoReturn(s: string)
    ensures '\r' !in Newlines(s)
  {
    if s == "" {
    } else if s[0] == '\r' && |s| > 1 && s[1] == '\n' {
      NewlinesHasNoReturn(s[2..]);
    } else {
      NewlinesHasNoReturn(s[1..]);
    }
  }

  lemma {:induction false} NewlinesKeeps(s: string)
    requires '\r' !in s
    ensures Newlines(s) == s
  {
    if s != "" {
      NewlinesKeeps(s[1..]);
      assert s == [s[0]] + s[1..];
    }
  }

  /** Lines put together with one kind of line end. */
  function JoinedBy(lines: seq<string>, ending: string): string
    requires lines != []
  {
    if |lines| == 1 then lines[0] else lines[0] + ending + JoinedBy(lines[1..], ending)
  }

  predicate OneLined(line: string) {
    '\r' !in line && '\n' !in line
  }

  lemma {:induction false} NewlinesAfterLine(line: string, rest: string)
    requires OneLined(line)
    ensures Newlines(line + rest) == line + Newlines(rest)
  {
    if line == "" {
      assert line + rest == rest;
    } else {
      assert line[0] in line;
      NewlinesAfterLine(line[1..], rest);
      var whole := line + rest;
      assert whole[1..] == line[1..] + rest;
      assert [line[0]] + (line[1..] + Newlines(rest)) == line + Newlines(rest);
    }
  }

  lemma NewlinesAfterEnding(ending: string, rest: string)
    requires ending == "\n" || ending == "\r\n" || (ending == "\r" && (rest == "" || rest[0] != '\n'))
    ensures Newlines(ending + rest) == "\n" + Newlines(rest)
  {
    var s := ending + rest;
    if ending == "\r\n" {
      assert s[2..] == rest;
    } else {
      assert s[1..] == rest;
    }
  }

  /** Whichever line end a text is written with, it reads as the same lines put together with line feeds. */
  lemma {:induction false} LinesReadAlike(lines: seq<string>, ending: string)
    requires lines != [] && (forall line :: line in lines ==> OneLined(line))
    requires ending == "\n" || ending == "\r\n" || ending == "\r"
    ensures Newlines(JoinedBy(lines, ending)) == JoinedBy(lines, "\n")
    ensures ending == "\r" ==> '\n' !in JoinedBy(lines, ending)
  {
    assert lines[0] in lines;
    if |lines| == 1 {
      NewlinesAfterLine(lines[0], "");
      assert lines[0] + "" == lines[0];
    } else {
      assert forall line :: line in lines[1..] ==> line in lines;
      LinesReadAlike(lines[1..], ending);
      var rest := JoinedBy(lines[1..], ending);
      assert rest != "" ==> rest[0] in rest;
      LineReads(lines[0], ending, rest);
    }
  }

  lemma LineReads(line: string, ending: string, rest: string)
    requires OneLined(line)
    requires ending == "\n" || ending == "\r\n" || (ending == "\r" && (rest == "" || rest[0] != '\n'))
    ensures Newlines(line + ending + rest) == line + "\n" + Newlines(rest)
  {
    NewlinesAfterLine(line, ending + rest);
    NewlinesAfterEnding(ending, rest);
    assert line + ending + rest == line + (ending + rest);
    assert line + "\n" + Newlines(rest) == line + ("\n" + Newlines(rest));
  }

  /** Reading a text file and writing it back keeps it exactly when it has no carriage return. */
  lemma NewlinesFixed(s: string)
    ensures Newlines(s) == s <==> '\r' !in s
    ensures Newlines(Newlines(s)) == Newlines(s)
  {
    NewlinesHasNoReturn(s);
    NewlinesKeeps(Newlines(s));
    if '\r' !in s {
      NewlinesKeeps(s);
    }
  }

  /** What `read_text` followed by `write_text` makes of a file. */
  function AsWritten(c: Content): Option<Content> {
    match c
    case Text(text) => Some(Text(Newlines(text)))
    case Binary(_) => None
  }
}
