/** Copying a directory's contents with an explicit worklist
    (`copy_dir_contents` in crates/agentum-server/src/harness.rs). */
module CopyTree {
  import opened Basics

  /** A directory as `read_dir` hands it out, one entry after the other. */
  datatype Listing =
    | End
    | FileEntry(name: string, content: string, next: Listing)
    | DirEntry(name: string, inside: Listing, next: Listing)

  type Path = seq<string>

  datatype Entry = FileAt(content: string) | DirAt

  type Disk = map<Path, Entry>

  /** What a copy does to the destination, one object at a time. */
  datatype Effect = MakeDir(path: Path) | CopyFile(path: Path, tag: string, content: string)

  // ---------- the recursive copy ----------

  /** Everything a copy of the listing into `to` has to do below `to`. */
  function Below(l: Listing, to: Path, tag: string): seq<Effect>
    decreases l, 0
  {
    match l
    case End => []
    case FileEntry(name, content, next) =>
      [CopyFile(to + [name], tag + "/" + name, content)] + Below(next, to, tag)
    case DirEntry(name, inside, next) =>
      Tree(inside, to + [name], tag + "/" + name) + Below(next, to, tag)
  }

  /** The directory itself first, then its contents. */
  function Tree(l: Listing, to: Path, tag: string): seq<Effect>
    decreases l, 1
  {
    [MakeDir(to)] + Below(l, to, tag)
  }

  function Names(l: Listing): set<string> {
    match l
    case End => {}
    case _ => {l.name} + Names(l.next)
  }

  /** A directory holds each name once. */
  predicate Proper(l: Listing) {
    match l
    case End => true
    case FileEntry(name, _, next) => name !in Names(next) && Proper(next)
    case DirEntry(name, inside, next) => name !in Names(next) && Proper(inside) && Proper(next)
  }

  function Size(l: Listing): nat {
    match l
    case End => 1
    case FileEntry(_, _, next) => 1 + Size(next)
    case DirEntry(_, inside, next) => 1 + Size(inside) + Size(next)
  }

  ghost predicate DistinctPaths(es: seq<Effect>) {
    forall i, j :: 0 <= i < j < |es| ==> es[i].path != es[j].path
  }

  lemma {:induction false} BelowPaths(l: Listing, to: Path, tag: string, e: Effect)
    requires e in Below(l, to, tag)
    ensures |e.path| > |to| && e.path[..|to|] == to && e.path[|to|] in Names(l)
  {
    match l
    case FileEntry(name, content, next) =>
      if e != CopyFile(to + [name], tag + "/" + name, content) {
        BelowPaths(next, to, tag, e);
      }
    case DirEntry(name, inside, next) =>
      if e in Below(next, to, tag) {
        BelowPaths(next, to, tag, e);
      } else if e != MakeDir(to + [name]) {
        BelowPaths(inside, to + [name], tag + "/" + name, e);
        assert e.path[..|to|] == e.path[..|to| + 1][..|to|];
        assert e.path[|to|] == e.path[..|to| + 1][|to|];
      }
  }

  lemma {:induction false} BelowDistinct(l: Listing, to: Path, tag: string)
    requires Proper(l)
    ensures DistinctPaths(Below(l, to, tag))
    decreases l, 0
  {
    match l
    case End =>
    case FileEntry(name, content, next) =>
      BelowDistinct(next, to, tag);
      forall e | e in Below(next, to, tag) ensures e.path != to + [name] {
        BelowPaths(next, to, tag, e);
      }
    case DirEntry(name, inside, next) =>
      BelowDistinct(next, to, tag);
      TreeDistinct(inside, to + [name], tag + "/" + name);
      var a, b := Tree(inside, to + [name], tag + "/" + name), Below(next, to, tag);
      forall i, j | 0 <= i < |a| && 0 <= j < |b| ensures a[i].path != b[j].path {
        assert b[j] in b;
        BelowPaths(next, to, tag, b[j]);
        TreePaths(inside, to + [name], tag + "/" + name, i);
        assert a[i].path[..|to| + 1][|to|] == name;
      }
  }

  lemma TreePaths(l: Listing, to: Path, tag: string, i: nat)
    requires i < |Tree(l, to, tag)|
    ensures var p := Tree(l, to, tag)[i].path; |p| >= |to| && p[..|to|] == to
  {
    if i > 0 {
      BelowPaths(l, to, tag, Tree(l, to, tag)[i]);
    }
  }

  lemma {:induction false} TreeDistinct(l: Listing, to: Path, tag: string)
    requires Proper(l)
    ensures DistinctPaths(Tree(l, to, tag))
    decreases l, 1
  {
    BelowDistinct(l, to, tag);
    forall e | e in Below(l, to, tag) ensures e.path != to {
      BelowPaths(l, to, tag, e);
    }
  }

  // ---------- what a listing holds, by relative path ----------

  /** The object at a relative path; the listing's own directory is at the empty one. */
  function Lookup(l: Listing, rel: Path): Option<Entry>
    decreases l, 1
  {
    if rel == [] then Some(DirAt) else Inside(l, rel)
  }

  function Inside(l: Listing, rel: Path): Option<Entry>
    requires rel != []
    decreases l, 0
  {
    match l
    case End => None
    case FileEntry(name, content, next) =>
      if name != rel[0] then Inside(next, rel) else if |rel| == 1 then Some(FileAt(content)) else None
    case DirEntry(name, inside, next) =>
      if name != rel[0] then Inside(next, rel) else Lookup(inside, rel[1..])
  }

  predicate IsFile(l: Listing, rel: Path) {
    Lookup(l, rel).Some? && Lookup(l, rel).value.FileAt?
  }

  lemma {:induction false} InsideNamed(l: Listing, rel: Path)
    requires rel != [] && rel[0] !in Names(l)
    ensures Inside(l, rel) == None
  {
    if l != End { InsideNamed(l.next, rel); }
  }

  /** A relative path as the label has it. */
  function Slashed(rel: Path): string {
    if rel == [] then "" else "/" + rel[0] + Slashed(rel[1..])
  }

  /** What copying the object at `rel` does. */
  function EffectAt(to: Path, tag: string, rel: Path, x: Entry): Effect {
    match x
    case DirAt => MakeDir(to + rel)
    case FileAt(content) => CopyFile(to + rel, tag + Slashed(rel), content)
  }

  lemma EffectBelow(to: Path, tag: string, name: string, rel: Path, x: Entry)
    ensures EffectAt(to + [name], tag + "/" + name, rel, x) == EffectAt(to, tag, [name] + rel, x)
  {
    assert to + [name] + rel == to + ([name] + rel);
    assert ([name] + rel)[1..] == rel;
    Joined(tag, name, Slashed(rel));
  }

  lemma Joined(tag: string, name: string, more: string)
    ensures tag + "/" + name + more == tag + ("/" + name + more)
  {
  }

  /** The recursive copy does what each relative path asks for, */
  lemma {:induction false} TreeHas(l: Listing, to: Path, tag: string, rel: Path)
    requires Proper(l) && Lookup(l, rel).Some?
    ensures EffectAt(to, tag, rel, Lookup(l, rel).value) in Tree(l, to, tag)
    decreases l, 1
  {
    if rel == [] {
      assert to + rel == to;
    } else {
      BelowHas(l, to, tag, rel);
    }
  }

  lemma {:induction false} BelowHas(l: Listing, to: Path, tag: string, rel: Path)
    requires Proper(l) && rel != [] && Inside(l, rel).Some?
    ensures EffectAt(to, tag, rel, Inside(l, rel).value) in Below(l, to, tag)
    decreases l, 0
  {
    match l
    case FileEntry(name, content, next) =>
      if name != rel[0] {
        BelowHas(next, to, tag, rel);
      } else {
        assert rel == [name] && Slashed(rel[1..]) == "";
        Joined(tag, name, "");
        assert tag + "/" + name + "" == tag + "/" + name;
      }
    case DirEntry(name, inside, next) =>
      if name != rel[0] {
        BelowHas(next, to, tag, rel);
      } else {
        TreeHas(inside, to + [name], tag + "/" + name, rel[1..]);
        EffectBelow(to, tag, name, rel[1..], Inside(l, rel).value);
        assert [name] + rel[1..] == rel;
      }
  }

  /** and nothing else. */
  lemma {:induction false} TreeOnly(l: Listing, to: Path, tag: string, e: Effect) returns (rel: Path)
    requires Proper(l) && e in Tree(l, to, tag)
    ensures Lookup(l, rel).Some? && e == EffectAt(to, tag, rel, Lookup(l, rel).value)
    decreases l, 1
  {
    if e == MakeDir(to) {
      rel := [];
      assert to + rel == to;
    } else {
      rel := BelowOnly(l, to, tag, e);
    }
  }

  lemma {:induction false} BelowOnly(l: Listing, to: Path, tag: string, e: Effect) returns (rel: Path)
    requires Proper(l) && e in Below(l, to, tag)
    ensures rel != [] && rel[0] in Names(l)
    ensures Inside(l, rel).Some? && e == EffectAt(to, tag, rel, Inside(l, rel).value)
    decreases l, 0
  {
    match l
    case FileEntry(name, content, next) =>
      if e in Below(next, to, tag) {
        rel := BelowOnly(next, to, tag, e);
      } else {
        rel := [name];
        assert Slashed(rel[1..]) == "";
        Joined(tag, name, "");
        assert tag + "/" + name + "" == tag + "/" + name;
      }
    case DirEntry(name, inside, next) =>
      if e in Below(next, to, tag) {
        rel := BelowOnly(next, to, tag, e);
      } else {
        var sub := TreeOnly(inside, to + [name], tag + "/" + name, e);
        rel := [name] + sub;
        assert rel[1..] == sub;
        EffectBelow(to, tag, name, sub, Lookup(inside, sub).value);
      }
  }

  // ---------- the files of a listing ----------

  function Prefixed(name: string, rels: seq<Path>): seq<Path> {
    seq(|rels|, i requires 0 <= i < |rels| => [name] + rels[i])
  }

  function Files(l: Listing): seq<Path> {
    match l
    case End => []
    case FileEntry(name, _, next) => [[name]] + Files(next)
    case DirEntry(name, inside, next) => Prefixed(name, Files(inside)) + Files(next)
  }

  lemma {:induction false} FilesAre(l: Listing, rel: Path)
    requires Proper(l)
    ensures rel in Files(l) <==> IsFile(l, rel)
    ensures rel in Files(l) ==> rel != [] && rel[0] in Names(l)
    decreases l
  {
    match l
    case End =>
    case FileEntry(name, _, next) =>
      FilesAre(next, rel);
      FirstFile(name, Files(next), rel);
      if rel != [] {
        FirstEntry(l, rel);
      }
    case DirEntry(name, inside, next) =>
      FilesAre(next, rel);
      assert rel in Files(l) <==> rel in Prefixed(name, Files(inside)) || rel in Files(next);
      if rel != [] {
        FirstEntry(l, rel);
        if rel[0] == name {
          FilesAre(inside, rel[1..]);
          InPrefixed(name, Files(inside), rel);
        }
      }
  }

  lemma FirstEntry(l: Listing, rel: Path)
    requires l != End && rel != []
    ensures IsFile(l, rel) <==>
      if rel[0] != l.name then IsFile(l.next, rel) else if l.FileEntry? then |rel| == 1 else IsFile(l.inside, rel[1..])
  {
    assert Lookup(l, rel) == Inside(l, rel) && Lookup(l.next, rel) == Inside(l.next, rel);
  }

  lemma FirstFile(name: string, rels: seq<Path>, rel: Path)
    ensures rel in [[name]] + rels <==> (|rel| == 1 && rel[0] == name) || rel in rels
  {
    assert |rel| == 1 && rel[0] == name <==> rel == [name];
  }

  lemma InPrefixed(name: string, rels: seq<Path>, rel: Path)
    requires rel != [] && rel[0] == name
    ensures rel in Prefixed(name, rels) <==> rel[1..] in rels
  {
    if rel[1..] in rels {
      var i :| 0 <= i < |rels| && rels[i] == rel[1..];
      assert Prefixed(name, rels)[i] == rel;
    }
    if i :| 0 <= i < |rels| && Prefixed(name, rels)[i] == rel {
      assert rel[1..] == rels[i];
    }
  }

  ghost predicate AllDistinct(rels: seq<Path>) {
    forall i, j :: 0 <= i < j < |rels| ==> rels[i] != rels[j]
  }

  lemma {:induction false} FilesDistinct(l: Listing)
    requires Proper(l)
    ensures AllDistinct(Files(l))
    decreases l
  {
    match l
    case End =>
    case FileEntry(name, _, next) =>
      FilesDistinct(next);
      FilesAre(next, [name]);
    case DirEntry(name, inside, next) =>
      FilesDistinct(next);
      FilesDistinct(inside);
      var a, b, rels := Prefixed(name, Files(inside)), Files(next), Files(inside);
      forall i, j | 0 <= i < j < |a| ensures a[i] != a[j] {
        assert a[i][1..] == rels[i] && a[j][1..] == rels[j];
      }
      forall i, j | 0 <= i < |a| && 0 <= j < |b| ensures a[i] != b[j] {
        FilesAre(next, b[j]);
      }
  }

  /** What `written` says of each file: the label, then the names on the way to it. */
  function Labelled(rels: seq<Path>, tag: string): seq<string> {
    seq(|rels|, i requires 0 <= i < |rels| => tag + Slashed(rels[i]))
  }

  // ---------- effects on the disk ----------

  function Made(e: Effect): Entry {
    match e
    case MakeDir(_) => DirAt
    case CopyFile(_, _, content) => FileAt(content)
  }

  /** A directory cannot replace a file, nor a file a directory. */
  predicate Clashes(disk: Disk, e: Effect) {
    e.path in disk && (e.MakeDir? <==> disk[e.path].FileAt?)
  }

  /** `disk` is `start` with exactly the objects of `done` written over it. */
  ghost predicate Shows(start: Disk, done: seq<Effect>, disk: Disk) {
    && (forall e :: e in done ==> e.path in disk && disk[e.path] == Made(e))
    && (forall p {:trigger p in disk} {:trigger p in start} ::
          (forall e :: e in done ==> e.path != p) ==>
            (p in disk <==> p in start) && (p in start ==> disk[p] == start[p]))
  }

  /** `create_dir_all` makes the missing directories above its path, too. Below a
      destination that is there nothing is missing, so only the first one finds any. */
  function WithAncestors(disk: Disk, to: Path): Disk {
    disk + map k: nat | 0 < k < |to| :: to[..k] := DirAt
  }

  /** Some directory above the path is a file. */
  predicate Obstructed(disk: Disk, to: Path) {
    exists k :: 0 < k < |to| && to[..k] in disk && disk[to[..k]].FileAt?
  }

  function Labels(es: seq<Effect>): seq<string> {
    if es == [] then []
    else
      var e := es[|es| - 1];
      Labels(es[..|es| - 1]) + if e.CopyFile? then [e.tag] else []
  }

  lemma {:induction false} LabelsAppend(a: seq<Effect>, b: seq<Effect>)
    ensures Labels(a + b) == Labels(a) + Labels(b)
  {
    if b == [] {
      assert a + b == a;
    } else {
      assert (a + b)[..|a + b| - 1] == a + b[..|b| - 1];
      LabelsAppend(a, b[..|b| - 1]);
    }
  }

  lemma LabelsOne(e: Effect)
    ensures Labels([e]) == if e.CopyFile? then [e.tag] else []
  {
    assert [e][..0] == [];
  }

  lemma {:induction false} LabelsBelow(l: Listing, to: Path, tag: string)
    ensures Labels(Below(l, to, tag)) == Labelled(Files(l), tag)
    decreases l, 0
  {
    match l
    case End =>
    case FileEntry(name, content, next) =>
      var e := CopyFile(to + [name], tag + "/" + name, content);
      LabelsOne(e);
      LabelsAppend([e], Below(next, to, tag));
      LabelsBelow(next, to, tag);
      FileLabel(tag, name);
      LabelledAppend([[name]], Files(next), tag);
    case DirEntry(name, inside, next) =>
      LabelsAppend(Tree(inside, to + [name], tag + "/" + name), Below(next, to, tag));
      LabelsTree(inside, to + [name], tag + "/" + name);
      LabelsBelow(next, to, tag);
      PrefixedLabels(tag, name, Files(inside));
      LabelledAppend(Prefixed(name, Files(inside)), Files(next), tag);
  }

  lemma LabelledAppend(a: seq<Path>, b: seq<Path>, tag: string)
    ensures Labelled(a + b, tag) == Labelled(a, tag) + Labelled(b, tag)
  {
  }

  lemma FileLabel(tag: string, name: string)
    ensures Labelled([[name]], tag) == [tag + "/" + name]
  {
    assert Slashed([name][1..]) == "";
    Joined(tag, name, "");
    assert tag + "/" + name + "" == tag + "/" + name;
  }

  lemma PrefixedLabels(tag: string, name: string, rels: seq<Path>)
    ensures Labelled(Prefixed(name, rels), tag) == Labelled(rels, tag + "/" + name)
  {
    forall i | 0 <= i < |rels| ensures tag + Slashed(Prefixed(name, rels)[i]) == tag + "/" + name + Slashed(rels[i]) {
      assert ([name] + rels[i])[1..] == rels[i];
      Joined(tag, name, Slashed(rels[i]));
    }
  }

  lemma {:induction false} LabelsTree(l: Listing, to: Path, tag: string)
    ensures Labels(Tree(l, to, tag)) == Labelled(Files(l), tag)
    decreases l, 1
  {
    LabelsOne(MakeDir(to));
    LabelsAppend([MakeDir(to)], Below(l, to, tag));
    LabelsBelow(l, to, tag);
  }

  /** The labels do not depend on the order, but for their own. */
  lemma {:induction false} LabelsPermute(a: seq<Effect>, b: seq<Effect>)
    requires multiset(a) == multiset(b)
    ensures multiset(Labels(a)) == multiset(Labels(b))
    decreases |a|
  {
    if a == [] {
      assert |multiset(b)| == 0;
      assert b == [];
    } else {
      var front, last := a[..|a| - 1], a[|a| - 1];
      assert a == front + [last];
      assert last in multiset(b);
      var i :| 0 <= i < |b| && b[i] == last;
      TakeOne(front, last, a, b, i);
      LabelsPermute(front, b[..i] + b[i + 1..]);
      LabelsAppend(front, [last]);
      LabelsAround(b[..i], last, b[i + 1..], b);
    }
  }

  lemma TakeOne(front: seq<Effect>, last: Effect, a: seq<Effect>, b: seq<Effect>, i: nat)
    requires a == front + [last] && i < |b| && b[i] == last && multiset(a) == multiset(b)
    ensures multiset(front) == multiset(b[..i] + b[i + 1..]) && b == b[..i] + [last] + b[i + 1..]
  {
    var before, after := b[..i], b[i + 1..];
    assert b == before + [last] + after;
    assert multiset(a) == multiset(front + [last]) == multiset(front) + multiset{last};
    assert multiset(b) == multiset(before + [last] + after);
    assert multiset(front) == multiset(a) - multiset{last};
    assert multiset(before + after) == multiset(before) + multiset(after);
  }

  lemma LabelsAround(before: seq<Effect>, e: Effect, after: seq<Effect>, all: seq<Effect>)
    requires all == before + [e] + after
    ensures multiset(Labels(all)) == multiset(Labels(before + after)) + multiset(Labels([e]))
  {
    LabelsAppend(before + [e], after);
    LabelsAppend(before, [e]);
    LabelsAppend(before, after);
  }

  /** Taking one more effect off a distinct plan: its path is new. */
  lemma NextIsNew(all: seq<Effect>, done: seq<Effect>, e: Effect, rest: multiset<Effect>)
    requires DistinctPaths(all)
    requires multiset(done) + multiset{e} + rest == multiset(all)
    ensures forall d :: d in done ==> d.path != e.path
    ensures e in all
  {
    assert e in multiset(all);
    forall d | d in done ensures d.path != e.path {
      assert d in multiset(done) && d in multiset(all);
      var i :| 0 <= i < |all| && all[i] == d;
      var j :| 0 <= j < |all| && all[j] == e;
      if i == j {
        assert multiset(all)[e] >= 2;
        OnlyOnce(all, e, i);
      }
    }
  }

  lemma OnlyOnce(all: seq<Effect>, e: Effect, i: nat)
    requires DistinctPaths(all) && i < |all| && all[i] == e
    ensures multiset(all)[e] == 1
  {
    assert all == all[..i] + [e] + all[i + 1..];
    assert e !in all[..i] && e !in all[i + 1..];
    assert multiset(all) == multiset(all[..i]) + multiset{e} + multiset(all[i + 1..]);
  }

  /** The operation on this object is one that the file system refuses, or clashes. */
  predicate Fails(start: Disk, broken: set<Path>, e: Effect) {
    e.path in broken || Clashes(start, e)
  }

  /** One effect: fails when it has to, else shows. A failed one may leave anything at its
      path, so nothing is said of the disk then. */
  method Perform(disk: Disk, broken: set<Path>, e: Effect, ghost start: Disk, ghost done: seq<Effect>)
    returns (r: Option<Disk>)
    requires Shows(start, done, disk)
    requires forall d :: d in done ==> d.path != e.path
    ensures r.None? <==> Fails(start, broken, e)
    ensures r.Some? ==> Shows(start, done + [e], r.value)
  {
    if e.path in broken || (e.path in disk && (e.MakeDir? <==> disk[e.path].FileAt?)) {
      r := None;
    } else {
      var after := disk[e.path := Made(e)];
      forall p | forall d :: d in done + [e] ==> d.path != p
        ensures (p in after <==> p in start) && (p in start ==> after[p] == start[p])
      {
        assert e in done + [e];
        assert forall d :: d in done ==> d in done + [e];
      }
      r := Some(after);
    }
  }

  // ---------- the worklist ----------

  datatype Item = Item(from: Listing, to: Path, tag: string)

  function Plan(stack: seq<Item>): multiset<Effect> {
    if stack == [] then multiset{}
    else
      var top := stack[|stack| - 1];
      Plan(stack[..|stack| - 1]) + multiset(Tree(top.from, top.to, top.tag))
  }

  function Load(stack: seq<Item>): nat {
    if stack == [] then 0 else Load(stack[..|stack| - 1]) + Size(stack[|stack| - 1].from)
  }

  lemma Push(stack: seq<Item>, item: Item)
    ensures Plan(stack + [item]) == Plan(stack) + multiset(Tree(item.from, item.to, item.tag))
    ensures Load(stack + [item]) == Load(stack) + Size(item.from)
  {
    assert (stack + [item])[..|stack|] == stack;
  }

  /** A copy under way: what it has done so far, of `all` it has to do. */
  ghost predicate UnderWay(all: seq<Effect>, start: Disk, broken: set<Path>, disk: Disk, done: seq<Effect>, written: seq<string>,
                           left: multiset<Effect>)
  {
    && Shows(start, done, disk)
    && (forall e :: e in done ==> !Fails(start, broken, e))
    && written == Labels(done)
    && multiset(done) + left == multiset(all)
  }

  /** Carries out one effect that is still to do. */
  method Do(e: Effect, disk: Disk, broken: set<Path>, written: seq<string>,
            ghost all: seq<Effect>, ghost start: Disk, ghost done: seq<Effect>, ghost left: multiset<Effect>)
    returns (ok: bool, disk': Disk, written': seq<string>, ghost done': seq<Effect>)
    requires DistinctPaths(all) && UnderWay(all, start, broken, disk, done, written, multiset{e} + left)
    ensures ok ==> UnderWay(all, start, broken, disk', done', written', left)
    ensures !ok ==> exists e :: e in all && Fails(start, broken, e)
  {
    NextIsNew(all, done, e, left);
    var r := Perform(disk, broken, e, start, done);
    done' := done + [e];
    assert done'[..|done|] == done;
    ok := r.Some?;
    disk' := if ok then r.value else disk;
    written' := if e.CopyFile? then written + [e.tag] else written;
  }

  /** One entry of a directory: a file is copied at once, a directory is put on the stack. */
  method CopyEntry(rest: Listing, item: Item, stack: seq<Item>, disk: Disk, broken: set<Path>, written: seq<string>,
                   ghost all: seq<Effect>, ghost start: Disk, ghost done: seq<Effect>)
    returns (ok: bool, stack': seq<Item>, disk': Disk, written': seq<string>, ghost done': seq<Effect>)
    requires rest != End && DistinctPaths(all)
    requires UnderWay(all, start, broken, disk, done, written, Plan(stack) + multiset(Below(rest, item.to, item.tag)))
    ensures ok ==> UnderWay(all, start, broken, disk', done', written', Plan(stack') + multiset(Below(rest.next, item.to, item.tag)))
    ensures Load(stack') + Size(rest.next) < Load(stack) + Size(rest)
    ensures !ok ==> exists e :: e in all && Fails(start, broken, e)
  {
    var to, tag := item.to + [rest.name], item.tag + "/" + rest.name;
    ghost var after := multiset(Below(rest.next, item.to, item.tag));
    if rest.DirEntry? {
      var sub := Item(rest.inside, to, tag);
      Push(stack, sub);
      assert multiset(Below(rest, item.to, item.tag)) == multiset(Tree(rest.inside, to, tag)) + after;
      assert Plan(stack) + multiset(Below(rest, item.to, item.tag)) == Plan(stack + [sub]) + after;
      ok, stack', disk', written', done' := true, stack + [sub], disk, written, done;
    } else {
      var e := CopyFile(to, tag, rest.content);
      assert multiset(Below(rest, item.to, item.tag)) == multiset{e} + after;
      assert Plan(stack) + multiset(Below(rest, item.to, item.tag)) == multiset{e} + (Plan(stack) + after);
      ok, disk', written', done' := Do(e, disk, broken, written, all, start, done, Plan(stack) + after);
      stack' := stack;
    }
  }

  /** Goes through the entries of a directory. */
  method CopyEntries(item: Item, stack: seq<Item>, disk: Disk, broken: set<Path>, written: seq<string>,
                     ghost all: seq<Effect>, ghost start: Disk, ghost done: seq<Effect>)
    returns (ok: bool, stack': seq<Item>, disk': Disk, written': seq<string>, ghost done': seq<Effect>)
    requires DistinctPaths(all)
    requires UnderWay(all, start, broken, disk, done, written, Plan(stack) + multiset(Below(item.from, item.to, item.tag)))
    ensures ok ==> UnderWay(all, start, broken, disk', done', written', Plan(stack'))
    ensures ok ==> Load(stack') < Load(stack) + Size(item.from)
    ensures !ok ==> exists e :: e in all && Fails(start, broken, e)
  {
    ok, stack', disk', written', done' := true, stack, disk, written, done;
    var rest := item.from;
    while ok && rest != End
      invariant ok ==> UnderWay(all, start, broken, disk', done', written', Plan(stack') + multiset(Below(rest, item.to, item.tag)))
      invariant Load(stack') + Size(rest) <= Load(stack) + Size(item.from)
      invariant !ok ==> exists e :: e in all && Fails(start, broken, e)
      decreases ok, rest
    {
      ok, stack', disk', written', done' := CopyEntry(rest, item, stack', disk', broken, written', all, start, done');
      rest := rest.next;
    }
  }

  /** Makes the directory, then goes through its entries. */
  method CopyItem(item: Item, stack: seq<Item>, disk: Disk, broken: set<Path>, written: seq<string>,
                  ghost all: seq<Effect>, ghost start: Disk, ghost done: seq<Effect>)
    returns (ok: bool, stack': seq<Item>, disk': Disk, written': seq<string>, ghost done': seq<Effect>)
    requires DistinctPaths(all)
    requires UnderWay(all, start, broken, disk, done, written, Plan(stack) + multiset(Tree(item.from, item.to, item.tag)))
    ensures ok ==> UnderWay(all, start, broken, disk', done', written', Plan(stack'))
    ensures ok ==> Load(stack') < Load(stack) + Size(item.from)
    ensures !ok ==> exists e :: e in all && Fails(start, broken, e)
  {
    var e := MakeDir(item.to);
    stack' := stack;
    ghost var left := Plan(stack) + multiset(Below(item.from, item.to, item.tag));
    assert Plan(stack) + multiset(Tree(item.from, item.to, item.tag)) == multiset{e} + left;
    ok, disk', written', done' := Do(e, disk, broken, written, all, start, done, left);
    if ok {
      ok, stack', disk', written', done' := CopyEntries(item, stack, disk', broken, written', all, start, done');
    }
  }

  /** The directories above the destination. */
  method MakeAncestors(disk: Disk, to: Path) returns (r: Option<Disk>)
    ensures r.None? <==> Obstructed(disk, to)
    ensures r.Some? ==> r.value == WithAncestors(disk, to)
  {
    r := if Obstructed(disk, to) then None else Some(WithAncestors(disk, to));
  }

  lemma AncestorsOutside(start: Disk, to: Path, e: Effect)
    requires |e.path| >= |to|
    ensures Clashes(WithAncestors(start, to), e) == Clashes(start, e)
  {
  }

  lemma TreeIsBelow(l: Listing, to: Path, tag: string)
    ensures forall e :: e in Tree(l, to, tag) ==> |e.path| >= |to|
  {
    forall e | e in Below(l, to, tag) ensures |e.path| >= |to| {
      BelowPaths(l, to, tag, e);
    }
  }

  /** The destination shows the listing, each object at its relative path; what the listing
      does not have is as before, and so is everything else but the directories above. */
  ghost predicate Copied(src: Listing, start: Disk, dst: Path, disk: Disk) {
    && (forall rel {:trigger Lookup(src, rel)} ::
          if Lookup(src, rel).Some? then dst + rel in disk && disk[dst + rel] == Lookup(src, rel).value
          else Unchanged(start, disk, dst + rel))
    && (forall p {:trigger Unchanged(start, disk, p)} :: !(dst <= p) ==>
          if p != [] && p <= dst then p in disk && disk[p] == DirAt else Unchanged(start, disk, p))
  }

  predicate Unchanged(start: Disk, disk: Disk, p: Path) {
    (p in disk <==> p in start) && (p in start ==> disk[p] == start[p])
  }

  /** A file stands where a directory has to go, or the other way round. */
  ghost predicate InTheWay(src: Listing, start: Disk, dst: Path, rel: Path) {
    && Lookup(src, rel).Some? && dst + rel in start
    && (start[dst + rel].FileAt? <==> Lookup(src, rel).value.DirAt?)
  }

  lemma SamePlace(dst: Path, a: Path, b: Path)
    requires dst + a == dst + b
    ensures a == b
  {
    assert (dst + a)[|dst|..] == a && (dst + b)[|dst|..] == b;
  }

  lemma ShownIsCopied(src: Listing, start: Disk, dst: Path, tag: string, disk: Disk)
    requires Proper(src) && Shows(WithAncestors(start, dst), Tree(src, dst, tag), disk)
    ensures Copied(src, start, dst, disk)
  {
    forall rel: Path ensures
      if Lookup(src, rel).Some? then dst + rel in disk && disk[dst + rel] == Lookup(src, rel).value
      else Unchanged(start, disk, dst + rel)
    {
      if Lookup(src, rel).Some? {
        TreeHas(src, dst, tag, rel);
      } else if e :| e in Tree(src, dst, tag) && e.path == dst + rel {
        var found := TreeOnly(src, dst, tag, e);
        SamePlace(dst, found, rel);
      }
    }
    TreeIsBelow(src, dst, tag);
    forall p: Path | !(dst <= p)
      ensures if p != [] && p <= dst then p in disk && disk[p] == DirAt else Unchanged(start, disk, p)
    {
      if e :| e in Tree(src, dst, tag) && e.path == p {
        var found := TreeOnly(src, dst, tag, e);
      }
      if p != [] && p <= dst {
        assert p == dst[..|p|] && |p| < |dst|;
      }
    }
  }

  /** Something of the listing cannot be made. */
  ghost predicate Refused(src: Listing, start: Disk, dst: Path, broken: set<Path>, rel: Path) {
    InTheWay(src, start, dst, rel) || (Lookup(src, rel).Some? && dst + rel in broken)
  }

  lemma FailsIsRefused(src: Listing, start: Disk, dst: Path, tag: string, broken: set<Path>)
    requires Proper(src)
    ensures (forall e :: e in Tree(src, dst, tag) ==> !Fails(start, broken, e))
      <==> forall rel :: !Refused(src, start, dst, broken, rel)
  {
    if e :| e in Tree(src, dst, tag) && Fails(start, broken, e) {
      var rel := TreeOnly(src, dst, tag, e);
      assert Refused(src, start, dst, broken, rel);
    }
    if rel :| Refused(src, start, dst, broken, rel) {
      TreeHas(src, dst, tag, rel);
    }
  }

  /** Copies what is in `src` into `dst`, on a disk that refuses the operations on the objects
      at `broken`. It succeeds exactly when none of those is to be made, no file stands above
      the destination, and no file and directory are in each other's way; then the
      destination shows the listing, and `written` has each file once. */
  method CopyDirContents(src: Listing, start: Disk, broken: set<Path>, dst: Path, tag: string)
    returns (ok: bool, disk: Disk, written: seq<string>, ghost files: seq<Path>)
    requires Proper(src)
    ensures ok <==> !Obstructed(start, dst) && forall rel :: !Refused(src, start, dst, broken, rel)
    ensures ok ==> Copied(src, start, dst, disk)
    ensures AllDistinct(files) && forall rel :: rel in files <==> IsFile(src, rel)
    ensures ok ==> multiset(written) == multiset(Labelled(files, tag))
  {
    ghost var done;
    disk, written, files := start, [], Files(src);
    FilesDistinct(src);
    forall rel ensures rel in files <==> IsFile(src, rel) {
      FilesAre(src, rel);
    }
    var base := MakeAncestors(start, dst);
    ok := base.Some?;
    if !ok { return; }
    ok, disk, written, done := CopyInto(src, base.value, broken, dst, tag);
    TreeIsBelow(src, dst, tag);
    forall e | e in Tree(src, dst, tag) ensures Fails(base.value, broken, e) == Fails(start, broken, e) {
      AncestorsOutside(start, dst, e);
    }
    FailsIsRefused(src, start, dst, tag, broken);
    if ok {
      ShownIsCopied(src, start, dst, tag, disk);
      LabelsPermute(done, Tree(src, dst, tag));
      LabelsTree(src, dst, tag);
    }
  }

  /** The worklist loop. */
  method CopyInto(src: Listing, start: Disk, broken: set<Path>, dst: Path, tag: string)
    returns (ok: bool, disk: Disk, written: seq<string>, ghost done: seq<Effect>)
    requires Proper(src)
    ensures ok <==> forall e :: e in Tree(src, dst, tag) ==> !Fails(start, broken, e)
    ensures ok ==> multiset(done) == multiset(Tree(src, dst, tag)) && DistinctPaths(Tree(src, dst, tag))
    ensures ok ==> Shows(start, Tree(src, dst, tag), disk)
    ensures ok ==> written == Labels(done)
  {
    ghost var all := Tree(src, dst, tag);
    TreeDistinct(src, dst, tag);
    var stack := [Item(src, dst, tag)];
    Push([], Item(src, dst, tag));
    assert [] + [Item(src, dst, tag)] == stack;
    ok, disk, written, done := true, start, [], [];
    while ok && stack != []
      invariant ok ==> UnderWay(all, start, broken, disk, done, written, Plan(stack))
      invariant !ok ==> exists e :: e in all && Fails(start, broken, e)
      decreases ok, Load(stack)
    {
      var item := stack[|stack| - 1];
      stack := stack[..|stack| - 1];
      ok, stack, disk, written, done := CopyItem(item, stack, disk, broken, written, all, start, done);
    }
    if ok {
      SameElements(all, done);
    }
  }

  lemma SameElements(a: seq<Effect>, b: seq<Effect>)
    requires multiset(a) == multiset(b)
    ensures forall e :: e in a <==> e in b
  {
    forall e ensures e in a <==> e in b {
      assert e in a <==> e in multiset(a);
      assert e in b <==> e in multiset(b);
    }
  }
}
