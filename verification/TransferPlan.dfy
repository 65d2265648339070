/**
 Planning a transfer (src/ssh/transfer.rs): the stack-driven walk of a directory tree into a flat
 list of work.

 The tree is what the file system answers while it is being walked.  The walk is compared with a
 structural account of the tree that knows nothing of stacks or path strings.
 */
module TransferPlan {
  import opened Wrappers

  datatype Direction = Upload | Download

  /** What the walk meets.  A directory that is not readable cannot be listed; an `Unlisted` entry
      is one the walk leaves alone: its name is not UTF-8, or its metadata cannot be read. */
  datatype Node = File(size: nat) | Symlink | Dir(readable: bool, entries: seq<Entry>) | Unlisted

  datatype Entry = Entry(name: string, node: Node)

  datatype SkipReason = AlreadyExists | IsSymlink

  datatype TransferItem = TransferItem(
    src: string, dst: string, isDir: bool, size: nat, exists_: bool, skip: Option<SkipReason>)

  // ---------------------------------------------------------------- what is in a tree

  datatype Kind = Directory | Regular(size: nat) | Link

  /** Something in the tree, by its path from the directory the selection was made in. */
  datatype Found = Found(rel: seq<string>, kind: Kind)

  /** Every directory, file and symlink of the tree, each as often as it is there. */
  ghost function Everything(rel: seq<string>, node: Node): multiset<Found>
    decreases node
  {
    match node
    case File(size) => multiset{Found(rel, Regular(size))}
    case Symlink => multiset{Found(rel, Link)}
    case Unlisted => multiset{}
    case Dir(readable, entries) =>
      multiset{Found(rel, Directory)} + if readable then EverythingIn(rel, entries) else multiset{}
  }

  ghost function EverythingIn(rel: seq<string>, entries: seq<Entry>): multiset<Found>
    decreases entries
  {
    if entries == [] then multiset{}
    else Everything(rel + [entries[0].name], entries[0].node) + EverythingIn(rel, entries[1..])
  }

  function Bytes(node: Node): nat
    decreases node
  {
    match node
    case File(size) => size
    case Dir(readable, entries) => if readable then BytesIn(entries) else 0
    case _ => 0
  }

  function BytesIn(entries: seq<Entry>): nat
    decreases entries
  {
    if entries == [] then 0 else Bytes(entries[0].node) + BytesIn(entries[1..])
  }

  // ---------------------------------------------------------------- the order of the walk

  /** A directory waiting on the stack. */
  datatype Pending = Pending(rel: seq<string>, node: Node)

  function EntriesOf(node: Node): seq<Entry> {
    if node.Dir? && node.readable then node.entries else []
  }

  /** The files and symlinks directly in a directory, in the order they are listed. */
  function OwnItems(rel: seq<string>, entries: seq<Entry>): seq<Found> {
    if entries == [] then [] else OwnItem(rel, entries[0]) + OwnItems(rel, entries[1..])
  }

  function OwnItem(rel: seq<string>, entry: Entry): seq<Found> {
    match entry.node
    case File(size) => [Found(rel + [entry.name], Regular(size))]
    case Symlink => [Found(rel + [entry.name], Link)]
    case _ => []
  }

  /** Its subdirectories, in the order they are listed. */
  function Subdirectories(rel: seq<string>, entries: seq<Entry>): seq<Pending> {
    if entries == [] then []
    else Subdirectory(rel, entries[0]) + Subdirectories(rel, entries[1..])
  }

  function Subdirectory(rel: seq<string>, entry: Entry): seq<Pending> {
    if entry.node.Dir? then [Pending(rel + [entry.name], entry.node)] else []
  }

  function NodeCount(node: Node): nat
    decreases node
  {
    1 + if node.Dir? && node.readable then NodeCountIn(node.entries) else 0
  }

  function NodeCountIn(entries: seq<Entry>): nat
    decreases entries
  {
    if entries == [] then 0 else NodeCount(entries[0].node) + NodeCountIn(entries[1..])
  }

  /** The nodes under the directories on a stack: what the walk still has ahead of it. */
  function NodesLeft(stack: seq<Pending>): nat {
    if stack == [] then 0 else NodeCount(stack[0].node) + NodesLeft(stack[1..])
  }

  lemma {:induction false} NodesLeftConcat(a: seq<Pending>, b: seq<Pending>)
    ensures NodesLeft(a + b) == NodesLeft(a) + NodesLeft(b)
  {
    if a == [] {
      assert a + b == b;
    } else {
      assert (a + b)[1..] == a[1..] + b;
      NodesLeftConcat(a[1..], b);
    }
  }

  lemma {:induction false} SubdirectoriesAreFewer(rel: seq<string>, entries: seq<Entry>)
    ensures NodesLeft(Subdirectories(rel, entries)) <= NodeCountIn(entries)
  {
    if entries != [] {
      SubdirectoriesAreFewer(rel, entries[1..]);
      var first := if entries[0].node.Dir? then [Pending(rel + [entries[0].name], entries[0].node)] else [];
      NodesLeftConcat(first, Subdirectories(rel, entries[1..]));
    }
  }

  lemma NodesLeftSplit(stack: seq<Pending>)
    requires stack != []
    ensures NodesLeft(stack) == NodeCount(stack[|stack| - 1].node) + NodesLeft(stack[..|stack| - 1])
  {
    var n := |stack| - 1;
    assert stack == stack[..n] + [stack[n]];
    NodesLeftConcat(stack[..n], [stack[n]]);
    assert [stack[n]][1..] == [];
  }

  /** One directory and everything under it: the directory itself, then its own files and links,
      then its subdirectories, last listed first, each completely. */
  function Walked(p: Pending): seq<Found>
    decreases NodeCount(p.node), 0
  {
    SubdirectoriesAreFewer(p.rel, EntriesOf(p.node));
    [Found(p.rel, Directory)] + OwnItems(p.rel, EntriesOf(p.node))
      + WalkedStack(Subdirectories(p.rel, EntriesOf(p.node)))
  }

  function WalkedStack(stack: seq<Pending>): seq<Found>
    decreases NodesLeft(stack), |stack| + 1
  {
    if stack == [] then []
    else
      NodesLeftSplit(stack);
      Walked(stack[|stack| - 1]) + WalkedStack(stack[..|stack| - 1])
  }

  lemma {:induction false} WalkedConcat(a: seq<Pending>, b: seq<Pending>)
    ensures WalkedStack(a + b) == WalkedStack(b) + WalkedStack(a)
    decreases |b|
  {
    if b == [] {
      assert a + b == a;
    } else {
      var n := |b| - 1;
      assert (a + b)[..|a + b| - 1] == a + b[..n];
      assert (a + b)[|a + b| - 1] == b[n];
      WalkedConcat(a, b[..n]);
    }
  }

  /** Popping a directory and pushing its subdirectories is one step of the recursive listing. */
  lemma PopAndPush(rest: seq<Pending>, p: Pending)
    ensures WalkedStack(rest + [p])
            == [Found(p.rel, Directory)] + OwnItems(p.rel, EntriesOf(p.node))
               + WalkedStack(rest + Subdirectories(p.rel, EntriesOf(p.node)))
  {
    assert (rest + [p])[..|rest|] == rest;
    WalkedConcat(rest, Subdirectories(p.rel, EntriesOf(p.node)));
  }

  // ---------------------------------------------------------------- paths

  /** `Path::join` for a plain name. */
  function LocalJoin(dir: string, name: string): string {
    if dir == [] || dir[|dir| - 1] == '/' then dir + name else dir + "/" + name
  }

  function RemoteJoin(dir: string, name: string): string {
    if dir != [] && dir[|dir| - 1] == '/' then dir + name else dir + "/" + name
  }

  function Join(direction: Direction, dir: string, name: string): string {
    if direction.Upload? then RemoteJoin(dir, name) else LocalJoin(dir, name)
  }

  function ChildSrc(direction: Direction, dir: string, name: string): string {
    if direction.Upload? then LocalJoin(dir, name) else RemoteJoin(dir, name)
  }

  function LastComponent(path: string): string {
    AfterLastSlash(WithoutTrailingSlashes(path))
  }

  function WithoutTrailingSlashes(s: string): string {
    if s != [] && s[|s| - 1] == '/' then WithoutTrailingSlashes(s[..|s| - 1]) else s
  }

  function AfterLastSlash(s: string): (r: string)
    ensures '/' !in r
  {
    if s == [] || s[|s| - 1] == '/' then []
    else AfterLastSlash(s[..|s| - 1]) + [s[|s| - 1]]
  }

  /** Relative paths start with the name of what the user selected. */
  function SrcAt(direction: Direction, root: string, rel: seq<string>): string {
    if |rel| <= 1 then root else ChildSrc(direction, SrcAt(direction, root, rel[..|rel| - 1]), rel[|rel| - 1])
  }

  function Joined(rel: seq<string>): string {
    if rel == [] then []
    else if |rel| == 1 then rel[0]
    else Joined(rel[..|rel| - 1]) + "/" + rel[|rel| - 1]
  }

  /** The item planned for something found: source and destination on the same relative path. */
  function Planned(direction: Direction, src: string, base: string, existsAt: string -> bool, f: Found): TransferItem {
    var s, d := SrcAt(direction, src, f.rel), base + Joined(f.rel);
    match f.kind
    case Directory => TransferItem(s, d, true, 0, false, None)
    case Regular(size) => TransferItem(s, d, false, size, existsAt(d), None)
    case Link => TransferItem(s, d, false, 0, false, Some(IsSymlink))
  }

  /** What is planned for what was found: a directory as one, a file with its size and whether its
      name is taken, a link to be passed over. */
  lemma WhatIsPlanned(direction: Direction, src: string, base: string, existsAt: string -> bool, f: Found)
    ensures var item := Planned(direction, src, base, existsAt, f);
            && (item.isDir <==> f.kind == Directory)
            && item.skip == (if f.kind == Link then Some(IsSymlink) else None)
            && item.size == (if f.kind.Regular? then f.kind.size else 0)
            && (item.exists_ <==> f.kind.Regular? && existsAt(item.dst))
  {
  }

  /** What was selected keeps its place and lands in the destination under its own name; whatever is in
      a directory lies and lands in it under its own, with one slash between. */
  lemma WhereItLiesAndLands(direction: Direction, src: string, base: string, rel: seq<string>, name: string)
    ensures SrcAt(direction, src, [name]) == src && Joined([name]) == name
    ensures rel != [] ==>
              var dir := SrcAt(direction, src, rel);
              && base + Joined(rel + [name]) == (base + Joined(rel)) + "/" + name
              && (dir != [] ==> SrcAt(direction, src, rel + [name])
                                == dir + (if dir[|dir| - 1] == '/' then "" else "/") + name)
  {
    assert (rel + [name])[..|rel|] == rel;
  }

  /** The name of what was selected is what follows the last slash, slashes at the end aside. */
  lemma {:induction false} TheSelectedName(dir: string, name: string, slashes: string)
    requires name != [] && '/' !in name && (dir != [] ==> dir[|dir| - 1] == '/')
    requires forall i :: 0 <= i < |slashes| ==> slashes[i] == '/'
    ensures LastComponent(dir + name + slashes) == name
    decreases |slashes|
  {
    var path := dir + name + slashes;
    if slashes != [] {
      var fewer := slashes[..|slashes| - 1];
      assert path[..|path| - 1] == dir + name + fewer;
      TheSelectedName(dir, name, fewer);
    } else {
      assert path == dir + name && path[|path| - 1] == name[|name| - 1];
      assert name[|name| - 1] in name;
      AfterTheSlash(dir, name);
    }
  }

  lemma {:induction false} AfterTheSlash(dir: string, name: string)
    requires '/' !in name && (dir != [] ==> dir[|dir| - 1] == '/')
    ensures AfterLastSlash(dir + name) == name
  {
    if name != [] {
      assert (dir + name)[..|dir + name| - 1] == dir + name[..|name| - 1];
      assert name[|name| - 1] in name;
      AfterTheSlash(dir, name[..|name| - 1]);
    } else {
      assert dir + name == dir;
    }
  }

  function PlannedAll(direction: Direction, src: string, base: string, existsAt: string -> bool, found: seq<Found>)
    : (items: seq<TransferItem>)
    ensures |items| == |found|
    ensures forall i :: 0 <= i < |found| ==> items[i] == Planned(direction, src, base, existsAt, found[i])
  {
    seq(|found|, i requires 0 <= i < |found| => Planned(direction, src, base, existsAt, found[i]))
  }

  function FileCount(found: seq<Found>): nat {
    if found == [] then 0 else (if found[0].kind.Regular? then 1 else 0) + FileCount(found[1..])
  }

  function FileBytes(found: seq<Found>): nat {
    if found == [] then 0 else (if found[0].kind.Regular? then found[0].kind.size else 0) + FileBytes(found[1..])
  }

  lemma {:induction false} CountsConcat(a: seq<Found>, b: seq<Found>)
    ensures FileCount(a + b) == FileCount(a) + FileCount(b)
    ensures FileBytes(a + b) == FileBytes(a) + FileBytes(b)
  {
    if a == [] {
      assert a + b == b;
    } else {
      assert (a + b)[1..] == a[1..] + b;
      CountsConcat(a[1..], b);
    }
  }

  lemma {:induction false} OwnItemsConcat(rel: seq<string>, a: seq<Entry>, b: seq<Entry>)
    ensures OwnItems(rel, a + b) == OwnItems(rel, a) + OwnItems(rel, b)
  {
    hide OwnItem;
    if a == [] {
      assert a + b == b;
    } else {
      assert (a + b)[1..] == a[1..] + b;
      OwnItemsConcat(rel, a[1..], b);
    }
  }

  lemma {:induction false} SubdirectoriesConcat(rel: seq<string>, a: seq<Entry>, b: seq<Entry>)
    ensures Subdirectories(rel, a + b) == Subdirectories(rel, a) + Subdirectories(rel, b)
  {
    hide Subdirectory;
    if a == [] {
      assert a + b == b;
    } else {
      assert (a + b)[1..] == a[1..] + b;
      SubdirectoriesConcat(rel, a[1..], b);
    }
  }

  // ---------------------------------------------------------------- the walk is the listing

  /** The stack visits exactly what the recursive listing contains, each as often as it is there. */
  lemma {:induction false} WalkIsTheListing(rel: seq<string>, node: Node)
    requires node.Dir?
    ensures multiset(Walked(Pending(rel, node))) == Everything(rel, node)
    decreases node
  {
    if node.readable {
      WalkIsTheListingIn(rel, node.entries);
    }
  }

  lemma {:induction false} WalkIsTheListingIn(rel: seq<string>, entries: seq<Entry>)
    ensures multiset(OwnItems(rel, entries)) + multiset(WalkedStack(Subdirectories(rel, entries)))
            == EverythingIn(rel, entries)
    decreases entries
  {
    if entries != [] {
      var e, rest := entries[0], entries[1..];
      var child := rel + [e.name];
      var own, stack := OwnItems(rel, rest), WalkedStack(Subdirectories(rel, rest));
      WalkIsTheListingIn(rel, rest);
      EntryIsListed(rel, entries);
      var first := OwnItem(rel, e);
      var under := if e.node.Dir? then Walked(Pending(child, e.node)) else [];
      if e.node.Dir? {
        WalkIsTheListing(child, e.node);
      }
      assert multiset(first) + multiset(under) == Everything(child, e.node);
      Regroup(first, under, own, stack);
    }
  }

  lemma EntryIsListed(rel: seq<string>, entries: seq<Entry>)
    requires entries != []
    ensures var e, rest := entries[0], entries[1..];
      var under := if e.node.Dir? then Walked(Pending(rel + [e.name], e.node)) else [];
      WalkedStack(Subdirectories(rel, entries)) == WalkedStack(Subdirectories(rel, rest)) + under
  {
    hide Walked, WalkedStack;
    var e, rest := entries[0], entries[1..];
    if e.node.Dir? {
      TopOfTheStack(Pending(rel + [e.name], e.node), Subdirectories(rel, rest));
    } else {
      assert Subdirectories(rel, entries) == Subdirectories(rel, rest);
    }
  }

  lemma Regroup(first: seq<Found>, under: seq<Found>, own: seq<Found>, stack: seq<Found>)
    ensures multiset(first + own) + multiset(stack + under)
         == (multiset(first) + multiset(under)) + (multiset(own) + multiset(stack))
  {
  }

  lemma TopOfTheStack(p: Pending, rest: seq<Pending>)
    ensures WalkedStack([p] + rest) == WalkedStack(rest) + Walked(p)
  {
    WalkedConcat([p], rest);
    assert [p][..0] == [];
  }

  lemma {:induction false} WalkCountsTheBytes(rel: seq<string>, node: Node)
    requires node.Dir?
    ensures FileBytes(Walked(Pending(rel, node))) == Bytes(node)
    decreases node
  {
    var entries := EntriesOf(node);
    if node.readable {
      WalkCountsTheBytesIn(rel, node.entries);
    }
    CountsConcat([Found(rel, Directory)] + OwnItems(rel, entries), WalkedStack(Subdirectories(rel, entries)));
    CountsConcat([Found(rel, Directory)], OwnItems(rel, entries));
    assert [Found(rel, Directory)][1..] == [];
  }

  lemma {:induction false} WalkCountsTheBytesIn(rel: seq<string>, entries: seq<Entry>)
    ensures FileBytes(OwnItems(rel, entries)) + FileBytes(WalkedStack(Subdirectories(rel, entries))) == BytesIn(entries)
    decreases entries
  {
    if entries != [] {
      var e, rest := entries[0], entries[1..];
      var child := rel + [e.name];
      WalkCountsTheBytesIn(rel, rest);
      EntryIsListed(rel, entries);
      var under := if e.node.Dir? then Walked(Pending(child, e.node)) else [];
      CountsConcat(WalkedStack(Subdirectories(rel, rest)), under);
      CountsConcat(OwnItem(rel, e), OwnItems(rel, rest));
      if e.node.Dir? {
        WalkCountsTheBytes(child, e.node);
      }
      OneEntry(rel, e);
      hide Walked, WalkedStack, FileBytes;
    }
  }

  lemma OneEntry(rel: seq<string>, e: Entry)
    ensures FileBytes(OwnItem(rel, e)) == if e.node.File? then e.node.size else 0
  {
    assert OwnItem(rel, e) != [] ==> OwnItem(rel, e)[1..] == [];
  }

  /** A directory that cannot be listed is an item without anything under it. */
  lemma AnUnreadableDirectoryIsAnItem(rel: seq<string>, entries: seq<Entry>)
    ensures Walked(Pending(rel, Dir(false, entries))) == [Found(rel, Directory)]
  {
  }

  // ---------------------------------------------------------------- parents first

  function Parent(rel: seq<string>): seq<string>
    requires rel != []
  {
    rel[..|rel| - 1]
  }

  /** Everything below `top` comes after the directory it is in. */
  ghost predicate ParentsFirst(top: seq<string>, found: seq<Found>) {
    forall i :: 0 <= i < |found| ==> AfterItsParent(top, found, i)
  }

  ghost predicate AfterItsParent(top: seq<string>, found: seq<Found>, i: nat)
    requires i < |found|
  {
    if |found[i].rel| <= |top| then found[i].rel == top
    else Found(Parent(found[i].rel), Directory) in found[..i]
  }

  lemma {:induction false} WalkPutsParentsFirst(p: Pending)
    ensures ParentsFirst(p.rel, Walked(p))
    decreases NodeCount(p.node), 0
  {
    var entries := EntriesOf(p.node);
    var top := Found(p.rel, Directory);
    var own, subs := OwnItems(p.rel, entries), Subdirectories(p.rel, entries);
    SubdirectoriesAreFewer(p.rel, entries);
    OwnAreChildren(p.rel, entries);
    StackPutsParentsFirst(p.rel, subs, [top] + own);
  }

  lemma {:induction false} OwnAreChildren(rel: seq<string>, entries: seq<Entry>)
    ensures forall f :: f in OwnItems(rel, entries) ==> f.rel != [] && Parent(f.rel) == rel
    ensures forall q :: q in Subdirectories(rel, entries) ==> q.rel != [] && Parent(q.rel) == rel
  {
    if entries != [] {
      OwnAreChildren(rel, entries[1..]);
    }
  }

  lemma ChunkPutsParentsFirst(top: seq<string>, sub: seq<string>, before: seq<Found>, chunk: seq<Found>)
    requires sub != [] && Parent(sub) == top
    requires Found(top, Directory) in before && ParentsFirst(top, before) && ParentsFirst(sub, chunk)
    ensures ParentsFirst(top, before + chunk)
  {
    forall i | 0 <= i < |before + chunk| ensures AfterItsParent(top, before + chunk, i) {
      if i < |before| {
        assert AfterItsParent(top, before, i);
        assert (before + chunk)[..i] == before[..i];
      } else {
        assert AfterItsParent(sub, chunk, i - |before|);
        assert chunk[i - |before|] in chunk;
        assert (before + chunk)[..i] == before + chunk[..i - |before|];
      }
    }
  }

  lemma {:induction false} StackPutsParentsFirst(top: seq<string>, stack: seq<Pending>, before: seq<Found>)
    requires forall q :: q in stack ==> q.rel != [] && Parent(q.rel) == top
    requires Found(top, Directory) in before && ParentsFirst(top, before)
    ensures ParentsFirst(top, before + WalkedStack(stack))
    decreases NodesLeft(stack), |stack| + 1
  {
    hide NodesLeft, NodeCount, Walked, ParentsFirst;
    if stack == [] {
      assert before + WalkedStack(stack) == before;
    } else {
      var n := |stack| - 1;
      var last := stack[n];
      NodesLeftSplit(stack);
      assert last in stack;
      WalkPutsParentsFirst(last);
      var chunk := Walked(last);
      ChunkPutsParentsFirst(top, last.rel, before, chunk);
      StackPutsParentsFirst(top, stack[..n], before + chunk);
      assert before + WalkedStack(stack) == (before + chunk) + WalkedStack(stack[..n]);
    }
  }

  // ---------------------------------------------------------------- distinct destinations

  function Part(dst: string): string {
    dst + ".part"
  }

  function PartOf(rel: seq<string>): seq<string>
    requires rel != []
  {
    rel[..|rel| - 1] + [Part(rel[|rel| - 1])]
  }

  /** What a directory listing guarantees: names are plain and no two are the same. */
  ghost predicate Names(entries: seq<Entry>) {
    && (forall i :: 0 <= i < |entries| ==> '/' !in entries[i].name)
    && (forall i, j :: 0 <= i < j < |entries| ==> entries[i].name != entries[j].name)
  }

  ghost predicate WellNamed(node: Node)
    decreases node
  {
    node.Dir? ==> WellNamedIn(node.entries)
  }

  ghost predicate WellNamedIn(entries: seq<Entry>)
    decreases entries, 0
  {
    Names(entries) && forall i :: 0 <= i < |entries| ==> WellNamed(entries[i].node)
  }

  /** No file stands beside another that has its temporary name. */
  ghost predicate NoPartNames(node: Node)
    decreases node
  {
    node.Dir? ==> NoPartNamesIn(node.entries)
  }

  ghost predicate NoPartNamesIn(entries: seq<Entry>)
    decreases entries, 0
  {
    && (forall i, j :: 0 <= i < |entries| && 0 <= j < |entries| ==> entries[i].name != Part(entries[j].name))
    && (forall i :: 0 <= i < |entries| ==> NoPartNames(entries[i].node))
  }

  ghost predicate IsBelow(rel: seq<string>, f: Found) {
    && |rel| <= |f.rel| && f.rel[..|rel|] == rel
    && forall i :: |rel| <= i < |f.rel| ==> '/' !in f.rel[i]
  }

  /** `f` is the entry called `name` in the directory `rel`, or something below it. */
  ghost predicate BelowEntry(rel: seq<string>, name: string, f: Found) {
    IsBelow(rel, f) && |rel| < |f.rel| && f.rel[|rel|] == name
  }

  lemma {:induction false} ListedBelow(rel: seq<string>, node: Node)
    requires WellNamed(node)
    ensures forall f :: f in Everything(rel, node) ==> IsBelow(rel, f)
    decreases node
  {
    if node.Dir? && node.readable {
      ListedBelowIn(rel, node.entries);
    }
  }

  lemma {:induction false} ListedBelowIn(rel: seq<string>, entries: seq<Entry>)
    requires WellNamedIn(entries)
    ensures forall f :: f in EverythingIn(rel, entries) ==> exists k ::
            0 <= k < |entries| && BelowEntry(rel, entries[k].name, f)
    decreases entries
  {
    if entries != [] {
      var child := rel + [entries[0].name];
      ListedBelow(child, entries[0].node);
      ListedBelowIn(rel, entries[1..]);
      forall f | f in EverythingIn(rel, entries) ensures exists k ::
          0 <= k < |entries| && BelowEntry(rel, entries[k].name, f) {
        if f in Everything(child, entries[0].node) {
          BelowChild(rel, entries[0].name, f);
          assert BelowEntry(rel, entries[0].name, f);
        } else {
          assert f in EverythingIn(rel, entries[1..]);
          var k :| 0 <= k < |entries[1..]| && BelowEntry(rel, entries[1..][k].name, f);
          assert BelowEntry(rel, entries[k + 1].name, f);
        }
      }
    }
  }

  lemma BelowChild(rel: seq<string>, name: string, f: Found)
    requires IsBelow(rel + [name], f) && '/' !in name
    ensures BelowEntry(rel, name, f)
  {
    assert f.rel[..|rel|] == f.rel[..|rel| + 1][..|rel|] == rel;
    assert f.rel[|rel|] == f.rel[..|rel| + 1][|rel|];
  }

  /** Nothing is listed twice, and nothing shares its path with anything else. */
  ghost predicate Once(listed: multiset<Found>) {
    && (forall f :: listed[f] <= 1)
    && (forall f, g :: f in listed && g in listed && f.rel == g.rel ==> f == g)
  }

  lemma {:induction false} ListedOnce(rel: seq<string>, node: Node)
    requires WellNamed(node)
    ensures Once(Everything(rel, node))
    decreases node
  {
    if node.Dir? && node.readable {
      ListedOnceIn(rel, node.entries);
      ListedBelowIn(rel, node.entries);
    }
  }

  lemma {:induction false} ListedOnceIn(rel: seq<string>, entries: seq<Entry>)
    requires WellNamedIn(entries)
    ensures Once(EverythingIn(rel, entries))
    decreases entries
  {
    if entries != [] {
      var child := rel + [entries[0].name];
      var first, rest := Everything(child, entries[0].node), EverythingIn(rel, entries[1..]);
      ListedOnce(child, entries[0].node);
      ListedOnceIn(rel, entries[1..]);
      ListedBelow(child, entries[0].node);
      ListedBelowIn(rel, entries[1..]);
      forall f, g | f in first && g in rest ensures f.rel != g.rel {
        BelowChild(rel, entries[0].name, f);
        var k :| 0 <= k < |entries[1..]| && BelowEntry(rel, entries[1..][k].name, g);
        assert entries[1..][k].name == entries[k + 1].name != entries[0].name;
      }
    }
  }

  /** No listed path below `rel` is the temporary name of a listed path. */
  ghost predicate NoParts(rel: seq<string>, listed: multiset<Found>) {
    forall f, g :: f in listed && g in listed && |rel| < |f.rel| && |rel| < |g.rel| ==> f.rel != PartOf(g.rel)
  }

  lemma {:induction false} ListedWithoutParts(rel: seq<string>, node: Node)
    requires WellNamed(node) && NoPartNames(node)
    ensures NoParts(rel, Everything(rel, node))
    decreases node
  {
    if node.Dir? && node.readable {
      ListedWithoutPartsIn(rel, node.entries);
    }
  }

  lemma {:induction false} ListedWithoutPartsIn(rel: seq<string>, entries: seq<Entry>)
    requires WellNamedIn(entries) && NoPartNamesIn(entries)
    ensures NoParts(rel, EverythingIn(rel, entries))
    decreases entries
  {
    if entries != [] {
      var name := entries[0].name;
      var child := rel + [name];
      var first, rest := Everything(child, entries[0].node), EverythingIn(rel, entries[1..]);
      ListedWithoutParts(child, entries[0].node);
      ListedWithoutPartsIn(rel, entries[1..]);
      ListedBelow(child, entries[0].node);
      ListedBelowIn(rel, entries[1..]);
      forall f, g | f in first + rest && g in first + rest && (f in first || g in first)
        ensures f.rel != PartOf(g.rel)
      {
        var i := EntryOf(rel, entries, f);
        var j := EntryOf(rel, entries, g);
        DifferentEntriesDoNotClash(rel, entries, i, f, j, g);
      }
    }
  }

  lemma EntryOf(rel: seq<string>, entries: seq<Entry>, f: Found) returns (k: nat)
    requires WellNamedIn(entries) && f in EverythingIn(rel, entries)
    ensures k < |entries| && BelowEntry(rel, entries[k].name, f)
    ensures f in Everything(rel + [entries[0].name], entries[0].node) ==> k == 0
    ensures k == 0 ==> f in Everything(rel + [entries[0].name], entries[0].node)
  {
    ListedBelowIn(rel, entries);
    k :| 0 <= k < |entries| && BelowEntry(rel, entries[k].name, f);
    ListedBelow(rel + [entries[0].name], entries[0].node);
    ListedBelowIn(rel, entries[1..]);
    if f in Everything(rel + [entries[0].name], entries[0].node) {
      BelowChild(rel, entries[0].name, f);
    } else {
      var m :| 0 <= m < |entries[1..]| && BelowEntry(rel, entries[1..][m].name, f);
      assert entries[1..][m] == entries[m + 1];
    }
  }

  lemma DifferentEntriesDoNotClash(rel: seq<string>, entries: seq<Entry>, i: nat, f: Found, j: nat, g: Found)
    requires WellNamedIn(entries) && NoPartNamesIn(entries) && i < |entries| && j < |entries|
    requires BelowEntry(rel, entries[i].name, f) && BelowEntry(rel, entries[j].name, g)
    ensures f.rel == PartOf(g.rel) ==> i == j && |g.rel| > |rel| + 1
  {
    var p := PartOf(g.rel);
    if |g.rel| == |rel| + 1 {
      assert p[|rel|] == Part(entries[j].name);
      assert f.rel[|rel|] != p[|rel|];
    } else {
      assert p[|rel|] == entries[j].name;
    }
  }

  // ---------------------------------------------------------------- from paths to strings

  ghost predicate Plain(rel: seq<string>) {
    rel != [] && forall i :: 0 <= i < |rel| ==> '/' !in rel[i]
  }

  lemma {:induction false} TheLastNameIsTheLast(a: string, m: string)
    requires '/' !in m
    ensures AfterLastSlash(a + "/" + m) == m
  {
    var s := a + "/" + m;
    if m != [] {
      assert s[..|s| - 1] == a + "/" + m[..|m| - 1];
      TheLastNameIsTheLast(a, m[..|m| - 1]);
    }
  }

  lemma {:induction false} JoinedHasSlashes(rel: seq<string>)
    requires Plain(rel)
    ensures '/' in Joined(rel) <==> |rel| > 1
  {
    if |rel| > 1 {
      assert Joined(rel)[|Joined(Parent(rel))|] == '/';
    }
  }

  lemma {:induction false} JoinedInjective(a: seq<string>, b: seq<string>)
    requires Plain(a) && Plain(b) && Joined(a) == Joined(b)
    ensures a == b
    decreases |a|
  {
    JoinedHasSlashes(a);
    JoinedHasSlashes(b);
    if |a| > 1 {
      var m, n := a[|a| - 1], b[|b| - 1];
      TheLastNameIsTheLast(Joined(Parent(a)), m);
      TheLastNameIsTheLast(Joined(Parent(b)), n);
      assert Joined(Parent(a)) == Joined(a)[..|Joined(a)| - |m| - 1];
      assert Joined(Parent(b)) == Joined(b)[..|Joined(b)| - |n| - 1];
      JoinedInjective(Parent(a), Parent(b));
      assert a == Parent(a) + [m] && b == Parent(b) + [n];
    }
  }

  lemma JoinedPart(rel: seq<string>)
    requires rel != []
    ensures Joined(PartOf(rel)) == Part(Joined(rel))
    ensures Plain(rel) ==> Plain(PartOf(rel))
  {
    var n := |rel| - 1;
    assert PartOf(rel)[..n] == rel[..n];
    if n > 0 {
      assert Joined(rel[..n]) + "/" + Part(rel[n]) == Part(Joined(rel[..n]) + "/" + rel[n]);
    }
  }

  /** The directories a path lies in, by name. */
  function Ancestors(path: string): set<string> {
    set i | 0 < i < |path| && path[i] == '/' :: path[..i]
  }

  /** A path whose string is cut at a slash was cut between two names. */
  lemma {:induction false} CutAtASlash(r: seq<string>, s: seq<string>)
    requires Plain(r) && Plain(s) && |Joined(r)| < |Joined(s)|
    requires Joined(s)[..|Joined(r)|] == Joined(r) && Joined(s)[|Joined(r)|] == '/'
    ensures |r| < |s| && s[..|r|] == r
    decreases |s|
  {
    var n := |Joined(r)|;
    JoinedHasSlashes(s);
    assert Joined(s)[n] in Joined(s);
    var parent, last := Parent(s), s[|s| - 1];
    var m := |Joined(parent)|;
    assert Joined(s) == Joined(parent) + "/" + last;
    assert forall k :: m < k < |Joined(s)| ==> Joined(s)[k] == last[k - m - 1];
    assert n <= m;
    assert Joined(s)[..m] == Joined(parent);
    if n == m {
      JoinedInjective(r, parent);
    } else {
      assert Joined(parent)[..n] == Joined(s)[..n];
      assert Joined(parent)[n] == Joined(s)[n];
      CutAtASlash(r, parent);
      assert s[..|r|] == parent[..|r|];
    }
  }
}
