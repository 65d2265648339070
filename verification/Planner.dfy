/**
 Turning a selection into a plan (src/ssh/transfer.rs): the loops over sources, stack and entries,
 and what the copy may rely on afterwards.
 */
module Planner {
  import opened Wrappers
  import opened TransferPlan

  /** What the user picked.  A file's size is unknown when it cannot be inspected. */
  datatype Selected = PickedDir(path: string, readable: bool, entries: seq<Entry>)
      | PickedFile(path: string, size: Option<nat>)

  function NodeOf(s: Selected): Node {
    match s
    case PickedDir(_, readable, entries) => Dir(readable, entries)
    case PickedFile(_, size) => File(if size.Some? then size.value else 0)
  }

  /** The selection as if it were the contents of one directory. */
  function AsEntries(sources: seq<Selected>): (entries: seq<Entry>)
    ensures |entries| == |sources|
  {
    seq(|sources|, i requires 0 <= i < |sources| => Entry(LastComponent(sources[i].path), NodeOf(sources[i])))
  }

  function FoundIn(s: Selected): seq<Found> {
    var rel := [LastComponent(s.path)];
    if s.PickedDir? then Walked(Pending(rel, NodeOf(s))) else [Found(rel, Regular(NodeOf(s).size))]
  }

  function FoundInAll(sources: seq<Selected>): seq<Found> {
    if sources == [] then [] else FoundInAll(sources[..|sources| - 1]) + FoundIn(sources[|sources| - 1])
  }

  /** What every destination starts with. */
  function Base(direction: Direction, dest: string): string {
    Join(direction, dest, [])
  }

  function PlanOf(direction: Direction, base: string, existsAt: string -> bool, sources: seq<Selected>)
    : (items: seq<TransferItem>)
    ensures |items| == |FoundInAll(sources)|
  {
    if sources == [] then []
    else
      PlanOf(direction, base, existsAt, sources[..|sources| - 1])
      + PlannedAll(direction, sources[|sources| - 1].path, base, existsAt, FoundIn(sources[|sources| - 1]))
  }

  /** No `Scanning` event from `from` to `to` was answered with a cancellation. */
  ghost predicate Unbroken(stop: nat -> bool, from: nat, to: nat) {
    forall e: nat :: from <= e < to ==> !stop(e)
  }

  /** The first cancellation is the last event. */
  ghost predicate BrokeAt(stop: nat -> bool, from: nat, to: nat) {
    from < to && Unbroken(stop, from, to - 1) && stop(to - 1)
  }

  /** Where a selected item comes from and where it goes. */
  datatype Route = Route(direction: Direction, src: string, base: string, existsAt: string -> bool)

  function PlannedOn(route: Route, found: seq<Found>): (items: seq<TransferItem>)
    ensures |items| == |found|
  {
    PlannedAll(route.direction, route.src, route.base, route.existsAt, found)
  }

  /** A plan being built, and how many events were delivered while building it. */
  datatype Draft = Draft(items: seq<TransferItem>, totalBytes: nat, scanned: nat)

  /** The draft with everything in `found` added to it. */
  function With(draft: Draft, route: Route, found: seq<Found>): Draft {
    Draft(draft.items + PlannedOn(route, found), draft.totalBytes + FileBytes(found), draft.scanned + FileCount(found))
  }

  lemma WithBoth(draft: Draft, route: Route, a: seq<Found>, b: seq<Found>)
    ensures With(With(draft, route, a), route, b) == With(draft, route, a + b)
  {
    hide FileBytes, FileCount, Planned;
    CountsConcat(a, b);
    assert draft.items + PlannedOn(route, a) + PlannedOn(route, b) == draft.items + PlannedOn(route, a + b);
  }

  lemma WithOne(draft: Draft, route: Route, f: Found)
    ensures var item := Planned(route.direction, route.src, route.base, route.existsAt, f);
      With(draft, route, [f]) ==
        match f.kind
        case Regular(size) => Draft(draft.items + [item], draft.totalBytes + size, draft.scanned + 1)
        case _ => draft.(items := draft.items + [item])
  {
    assert [f][1..] == [];
    var item := Planned(route.direction, route.src, route.base, route.existsAt, f);
    assert PlannedOn(route, [f]) == [item];
    assert FileBytes([f]) == if f.kind.Regular? then f.kind.size else 0;
    assert FileCount([f]) == if f.kind.Regular? then 1 else 0;
  }

  datatype Waiting = Waiting(src: string, dst: string, node: Node)

  function WaitingFor(route: Route, p: Pending): Waiting {
    Waiting(SrcAt(route.direction, route.src, p.rel), route.base + Joined(p.rel), p.node)
  }

  function AllWaiting(route: Route, stack: seq<Pending>): (queue: seq<Waiting>)
    ensures |queue| == |stack|
  {
    seq(|stack|, i requires 0 <= i < |stack| => WaitingFor(route, stack[i]))
  }

  lemma ChildPaths(route: Route, rel: seq<string>, name: string)
    requires rel != []
    ensures SrcAt(route.direction, route.src, rel + [name])
            == ChildSrc(route.direction, SrcAt(route.direction, route.src, rel), name)
    ensures route.base + Joined(rel + [name]) == route.base + Joined(rel) + "/" + name
  {
    assert (rel + [name])[..|rel|] == rel;
    assert route.base + (Joined(rel) + "/" + name) == route.base + Joined(rel) + "/" + name;
  }

  /** The directory itself and what lies directly in it. */
  function Level(p: Pending): seq<Found> {
    [Found(p.rel, Directory)] + OwnItems(p.rel, EntriesOf(p.node))
  }

  function Below(p: Pending): seq<Pending> {
    Subdirectories(p.rel, EntriesOf(p.node))
  }

  function LevelUpTo(p: Pending, i: nat): seq<Found>
    requires i <= |EntriesOf(p.node)|
  {
    [Found(p.rel, Directory)] + OwnItems(p.rel, EntriesOf(p.node)[..i])
  }

  function BelowUpTo(p: Pending, i: nat): seq<Pending>
    requires i <= |EntriesOf(p.node)|
  {
    Subdirectories(p.rel, EntriesOf(p.node)[..i])
  }

  lemma OneEntryMore(p: Pending, i: nat)
    requires i < |EntriesOf(p.node)|
    ensures var e := EntriesOf(p.node)[i];
      && LevelUpTo(p, i + 1) == LevelUpTo(p, i) + OwnItem(p.rel, e)
      && BelowUpTo(p, i + 1) == BelowUpTo(p, i) + if e.node.Dir? then [Pending(p.rel + [e.name], e.node)] else []
  {
    var entries := EntriesOf(p.node);
    assert entries[..i + 1] == entries[..i] + [entries[i]];
    OwnItemsConcat(p.rel, entries[..i], [entries[i]]);
    SubdirectoriesConcat(p.rel, entries[..i], [entries[i]]);
    assert [entries[i]][1..] == [];
  }

  lemma WholeLevel(p: Pending)
    ensures LevelUpTo(p, 0) == [Found(p.rel, Directory)] && BelowUpTo(p, 0) == []
    ensures LevelUpTo(p, |EntriesOf(p.node)|) == Level(p) && BelowUpTo(p, |EntriesOf(p.node)|) == Below(p)
  {
    assert EntriesOf(p.node)[..|EntriesOf(p.node)|] == EntriesOf(p.node);
  }

  /** Part of a level delivers no more events than all of it. */
  lemma LevelIsLonger(p: Pending, i: nat)
    requires i <= |EntriesOf(p.node)|
    ensures FileCount(LevelUpTo(p, i)) <= FileCount(Level(p))
  {
    hide OwnItems, FileCount, FileBytes;
    var entries := EntriesOf(p.node);
    assert entries == entries[..i] + entries[i..];
    OwnItemsConcat(p.rel, entries[..i], entries[i..]);
    CountsConcat(LevelUpTo(p, i), OwnItems(p.rel, entries[i..]));
    assert Level(p) == LevelUpTo(p, i) + OwnItems(p.rel, entries[i..]);
  }

  lemma StepOfTheWalk(rest: seq<Pending>, p: Pending, done: seq<Found>)
    requires p.rel != [] && forall q :: q in rest ==> q.rel != []
    ensures done + WalkedStack(rest + [p]) == (done + Level(p)) + WalkedStack(rest + Below(p))
    ensures FileCount(done) + FileCount(Level(p)) <= FileCount(done + WalkedStack(rest + [p]))
    ensures NodesLeft(rest + Below(p)) < NodesLeft(rest + [p])
    ensures forall q :: q in rest + Below(p) ==> q.rel != []
  {
    hide WalkedStack, NodesLeft, FileCount, FileBytes, OwnItems, Subdirectories;
    PopAndPush(rest, p);
    CountsConcat(done, Level(p));
    CountsConcat(done + Level(p), WalkedStack(rest + Below(p)));
    FewerNodesLeft(rest, p);
    OwnAreChildren(p.rel, EntriesOf(p.node));
  }

  /** The measure by which the walk ends. */
  lemma FewerNodesLeft(rest: seq<Pending>, p: Pending)
    ensures NodesLeft(rest + Below(p)) < NodesLeft(rest + [p])
  {
    hide NodesLeft;
    NodesLeftConcat(rest, Below(p));
    NodesLeftSplit(rest + [p]);
    assert (rest + [p])[..|rest|] == rest;
    SubdirectoriesAreFewer(p.rel, EntriesOf(p.node));
  }

  class Plan {
    var items: seq<TransferItem>
    var totalBytes: nat
    var scanned: nat
    const stop: nat -> bool

    function Now(): Draft
      reads this
    {
      Draft(items, totalBytes, scanned)
    }

    constructor (stop: nat -> bool)
      ensures Now() == Draft([], 0, 0) && this.stop == stop
    {
      items, totalBytes, scanned := [], 0, 0;
      this.stop := stop;
    }

    method PushFile(src: string, dst: string, size: nat, existsAt: string -> bool) returns (ok: bool)
      modifies this
      ensures items == old(items) + [TransferItem(src, dst, false, size, existsAt(dst), None)]
      ensures totalBytes == old(totalBytes) + size && scanned == old(scanned) + 1
      ensures ok == !stop(old(scanned))
    {
      totalBytes := totalBytes + size;
      items := items + [TransferItem(src, dst, false, size, existsAt(dst), None)];
      scanned := scanned + 1;
      ok := !stop(scanned - 1);
    }

    /** What one listed entry adds to the plan, or to the stack. */
    method Visit(ghost route: Route, ghost rel: seq<string>, direction: Direction, existsAt: string -> bool,
                 dir: Waiting, e: Entry, queue: seq<Waiting>)
      returns (ok: bool, stacked: seq<Waiting>)
      requires route.direction == direction && route.existsAt == existsAt
      requires rel != [] && dir.src == SrcAt(direction, route.src, rel) && dir.dst == route.base + Joined(rel)
      modifies this
      ensures Now() == With(old(Now()), route, OwnItem(rel, e))
      ensures stacked == queue + if e.node.Dir? then [WaitingFor(route, Pending(rel + [e.name], e.node))] else []
      ensures if ok then Unbroken(stop, old(scanned), scanned) else BrokeAt(stop, old(scanned), scanned)
    {
      var src, dst := ChildSrc(direction, dir.src, e.name), dir.dst + "/" + e.name;
      ChildPaths(route, rel, e.name);
      ok, stacked := true, queue;
      match e.node {
        case Symlink =>
          WithOne(Now(), route, Found(rel + [e.name], Link));
          items := items + [TransferItem(src, dst, false, 0, false, Some(IsSymlink))];
        case Dir(_, _) =>
          stacked := stacked + [Waiting(src, dst, e.node)];
        case File(size) =>
          WithOne(Now(), route, Found(rel + [e.name], Regular(size)));
          ok := PushFile(src, dst, size, existsAt);
        case Unlisted =>
      }
    }

    /** Lists one directory: its item, then its files and links, its subdirectories going on the
        stack. */
    method List(ghost route: Route, ghost p: Pending, ghost rest: seq<Pending>, direction: Direction,
                existsAt: string -> bool, dir: Waiting, queue: seq<Waiting>)
      returns (ok: bool, stacked: seq<Waiting>)
      requires route.direction == direction && route.existsAt == existsAt
      requires p.rel != [] && dir == WaitingFor(route, p) && queue == AllWaiting(route, rest)
      modifies this
      ensures ok ==> Now() == With(old(Now()), route, Level(p)) && stacked == AllWaiting(route, rest + Below(p))
      ensures if ok then Unbroken(stop, old(scanned), scanned) else BrokeAt(stop, old(scanned), scanned)
      ensures scanned <= old(scanned) + FileCount(Level(p))
    {
      hide With, Level, Below, LevelUpTo, BelowUpTo, OwnItem;
      WithOne(Now(), route, Found(p.rel, Directory));
      WholeLevel(p);
      items := items + [TransferItem(dir.src, dir.dst, true, 0, false, None)];
      stacked := queue;
      ok := true;
      assert rest + [] == rest;
      var entries := EntriesOf(dir.node);
      var i := 0;
      while i < |entries| && ok
        invariant i <= |entries|
        invariant Now() == With(old(Now()), route, LevelUpTo(p, i))
        invariant stacked == AllWaiting(route, rest + BelowUpTo(p, i))
        invariant if ok then Unbroken(stop, old(scanned), scanned) else BrokeAt(stop, old(scanned), scanned)
      {
        OneEntryMore(p, i);
        ScannedBy(old(Now()), route, LevelUpTo(p, i));
        WithBoth(old(Now()), route, LevelUpTo(p, i), OwnItem(p.rel, entries[i]));
        ok, stacked := Visit(route, p.rel, direction, existsAt, dir, entries[i], stacked);
        i := i + 1;
      }
      ScannedBy(old(Now()), route, LevelUpTo(p, i));
      LevelIsLonger(p, i);
    }

    /** Walks one selected directory. */
    method Walk(ghost route: Route, ghost name: string, direction: Direction, existsAt: string -> bool,
                src: string, dst: string, node: Node)
      returns (ok: bool)
      requires route == Route(direction, src, route.base, existsAt) && dst == route.base + name && node.Dir?
      modifies this
      ensures ok ==> Now() == With(old(Now()), route, Walked(Pending([name], node)))
      ensures if ok then Unbroken(stop, old(scanned), scanned) else BrokeAt(stop, old(scanned), scanned)
      ensures scanned <= old(scanned) + FileCount(Walked(Pending([name], node)))
    {
      hide With, Level, Below, Walked;
      ghost var all := Walked(Pending([name], node));
      ghost var stack, done := [Pending([name], node)], [];
      WalkedAlone(Pending([name], node));
      WithNothing(Now(), route);
      var queue := [Waiting(src, dst, node)];
      ok := true;
      while queue != []
        invariant ok
        invariant queue == AllWaiting(route, stack)
        invariant forall q :: q in stack ==> q.rel != []
        invariant done + WalkedStack(stack) == all
        invariant Now() == With(old(Now()), route, done)
        invariant Unbroken(stop, old(scanned), scanned)
        decreases NodesLeft(stack)
      {
        var n := |queue| - 1;
        var dir := queue[n];
        queue := queue[..n];
        ghost var p, rest := stack[n], stack[..n];
        assert stack == rest + [p] && p in stack;
        StepOfTheWalk(rest, p, done);
        WithBoth(old(Now()), route, done, Level(p));
        ScannedBy(old(Now()), route, done);
        ok, queue := List(route, p, rest, direction, existsAt, dir, queue);
        if !ok {
          return;
        }
        stack, done := rest + Below(p), done + Level(p);
      }
      assert done + WalkedStack([]) == done;
      ScannedBy(old(Now()), route, done);
    }

    /** Adds one selected source. */
    method Add(direction: Direction, existsAt: string -> bool, source: Selected, dest: string) returns (ok: bool)
      modifies this
      ensures ok ==> Now() == With(old(Now()), Route(direction, source.path, Base(direction, dest), existsAt),
              FoundIn(source))
      ensures if ok then Unbroken(stop, old(scanned), scanned) else BrokeAt(stop, old(scanned), scanned)
      ensures scanned <= old(scanned) + FileCount(FoundIn(source))
    {
      hide With;
      var name := LastComponent(source.path);
      var dst := Join(direction, dest, name);
      ghost var base := Base(direction, dest);
      DestinationIsUnderTheBase(direction, dest, name);
      ghost var route := Route(direction, source.path, base, existsAt);
      match source {
        case PickedDir(path, readable, entries) =>
          ok := Walk(route, name, direction, existsAt, path, dst, Dir(readable, entries));
        case PickedFile(path, size) =>
          var bytes := if size.Some? then size.value else 0;
          WithOne(Now(), route, Found([name], Regular(bytes)));
          ScannedBy(Now(), route, [Found([name], Regular(bytes))]);
          ok := PushFile(path, dst, bytes, existsAt);
      }
    }

    /** Walks what the user selected into a plan. */
    method Build(direction: Direction, existsAt: string -> bool, sources: seq<Selected>, dest: string)
      returns (ok: bool)
      requires Now() == Draft([], 0, 0)
      modifies this
      ensures ok ==> items == PlanOf(direction, Base(direction, dest), existsAt, sources)
      ensures ok ==> totalBytes == FileBytes(FoundInAll(sources))
      ensures ok <==> Unbroken(stop, 0, FileCount(FoundInAll(sources)))
    {
      hide With, PlanOf, FoundInAll, FoundIn, Base, FileCount, FileBytes;
      ghost var base := Base(direction, dest);
      NothingSelected(direction, base, existsAt);
      ok := true;
      var k := 0;
      while k < |sources|
        invariant k <= |sources| && ok
        invariant Now() == DraftOf(direction, base, existsAt, sources[..k])
        invariant Unbroken(stop, 0, scanned)
      {
        OneSourceMore(direction, base, existsAt, sources, k);
        FilesAhead(sources, k);
        ok := Add(direction, existsAt, sources[k], dest);
        if !ok {
          return;
        }
        k := k + 1;
      }
      assert sources[..k] == sources;
    }
  }

  lemma WithNothing(draft: Draft, route: Route)
    ensures With(draft, route, []) == draft
  {
    assert draft.items + PlannedOn(route, []) == draft.items;
  }

  lemma ScannedBy(draft: Draft, route: Route, found: seq<Found>)
    ensures With(draft, route, found).scanned == draft.scanned + FileCount(found)
  {
  }

  lemma WalkedAlone(p: Pending)
    ensures WalkedStack([p]) == Walked(p)
  {
    assert [p][..0] == [];
  }

  function DraftOf(direction: Direction, base: string, existsAt: string -> bool, sources: seq<Selected>): Draft {
    Draft(PlanOf(direction, base, existsAt, sources), FileBytes(FoundInAll(sources)), FileCount(FoundInAll(sources)))
  }

  lemma DestinationIsUnderTheBase(direction: Direction, dest: string, name: string)
    ensures Join(direction, dest, name) == Base(direction, dest) + name
  {
  }

  lemma NothingSelected(direction: Direction, base: string, existsAt: string -> bool)
    ensures DraftOf(direction, base, existsAt, []) == Draft([], 0, 0)
  {
  }

  lemma OneSourceMore(direction: Direction, base: string, existsAt: string -> bool, sources: seq<Selected>, k: nat)
    requires k < |sources|
    ensures DraftOf(direction, base, existsAt, sources[..k + 1])
         == With(DraftOf(direction, base, existsAt, sources[..k]), Route(direction, sources[k].path, base, existsAt),
           FoundIn(sources[k]))
  {
    hide FoundIn, FileCount, FileBytes, PlannedAll, PlanOf, FoundInAll;
    var before, after := sources[..k], sources[..k + 1];
    assert after[..|after| - 1] == before && after[|after| - 1] == sources[k];
    Unfolded(direction, base, existsAt, after);
    CountsConcat(FoundInAll(before), FoundIn(sources[k]));
  }

  lemma FilesAhead(sources: seq<Selected>, k: nat)
    requires k < |sources|
    ensures FileCount(FoundInAll(sources[..k])) + FileCount(FoundIn(sources[k])) <= FileCount(FoundInAll(sources))
  {
    hide FoundIn, FileCount, FileBytes;
    assert sources[..k + 1][..k] == sources[..k];
    CountsConcat(FoundInAll(sources[..k]), FoundIn(sources[k]));
    MoreSourcesMoreFiles(sources, k + 1);
  }

  lemma Unfolded(direction: Direction, base: string, existsAt: string -> bool, sources: seq<Selected>)
    requires sources != []
    ensures var rest, last := sources[..|sources| - 1], sources[|sources| - 1];
      && FoundInAll(sources) == FoundInAll(rest) + FoundIn(last)
      && PlanOf(direction, base, existsAt, sources)
         == PlanOf(direction, base, existsAt, rest) + PlannedAll(direction, last.path, base, existsAt, FoundIn(last))
  {
  }

  lemma {:induction false} MoreSourcesMoreFiles(sources: seq<Selected>, k: nat)
    requires k <= |sources|
    ensures FileCount(FoundInAll(sources[..k])) <= FileCount(FoundInAll(sources))
    decreases |sources| - k
  {
    if k == |sources| {
      assert sources[..k] == sources;
    } else {
      assert sources[..k + 1][..k] == sources[..k];
      CountsConcat(FoundInAll(sources[..k]), FoundIn(sources[k]));
      MoreSourcesMoreFiles(sources, k + 1);
    }
  }

  // ---------------------------------------------------------------- what the plan is

  lemma {:induction false} EverythingConcat(rel: seq<string>, a: seq<Entry>, b: seq<Entry>)
    ensures EverythingIn(rel, a + b) == EverythingIn(rel, a) + EverythingIn(rel, b)
    ensures BytesIn(a + b) == BytesIn(a) + BytesIn(b)
  {
    if a == [] {
      assert a + b == b;
    } else {
      assert (a + b)[1..] == a[1..] + b;
      EverythingConcat(rel, a[1..], b);
    }
  }

  /** The plan holds every directory, file and symlink under the selection exactly once, and its
      total is the sum of the file sizes. */
  lemma {:induction false} PlanIsTheSelection(sources: seq<Selected>)
    ensures multiset(FoundInAll(sources)) == EverythingIn([], AsEntries(sources))
    ensures FileBytes(FoundInAll(sources)) == BytesIn(AsEntries(sources))
  {
    if sources != [] {
      hide FileBytes, EverythingIn, BytesIn, FoundIn, AsEntries;
      var n := |sources| - 1;
      PlanIsTheSelection(sources[..n]);
      SourceIsItsListing(sources[n]);
      CountsConcat(FoundInAll(sources[..n]), FoundIn(sources[n]));
      LastEntry(sources);
    }
  }

  lemma LastEntry(sources: seq<Selected>)
    requires sources != []
    ensures var rest, last := sources[..|sources| - 1], sources[|sources| - 1];
      && EverythingIn([], AsEntries(sources))
         == EverythingIn([], AsEntries(rest)) + Everything([LastComponent(last.path)], NodeOf(last))
      && BytesIn(AsEntries(sources)) == BytesIn(AsEntries(rest)) + Bytes(NodeOf(last))
  {
    hide Everything, Bytes;
    var n := |sources| - 1;
    var last := [AsEntries(sources)[n]];
    assert AsEntries(sources) == AsEntries(sources[..n]) + last;
    EverythingConcat([], AsEntries(sources[..n]), last);
    assert last[1..] == [];
    assert [] + [LastComponent(sources[n].path)] == [LastComponent(sources[n].path)];
  }

  lemma SourceIsItsListing(s: Selected)
    ensures multiset(FoundIn(s)) == Everything([LastComponent(s.path)], NodeOf(s))
    ensures FileBytes(FoundIn(s)) == Bytes(NodeOf(s))
  {
    var rel := [LastComponent(s.path)];
    if s.PickedDir? {
      WalkIsTheListing(rel, NodeOf(s));
      WalkCountsTheBytes(rel, NodeOf(s));
    } else {
      assert [Found(rel, Regular(NodeOf(s).size))][1..] == [];
    }
  }

  /** Every item has the destination of what was found, on the path of its own source. */
  ghost predicate ItemFor(direction: Direction, base: string, existsAt: string -> bool, s: Selected, f: Found,
      item: TransferItem) {
    && item == Planned(direction, s.path, base, existsAt, f)
    && Under([LastComponent(s.path)], f.rel)
  }

  ghost predicate Under(top: seq<string>, rel: seq<string>) {
    |top| <= |rel| && rel[..|top|] == top
  }

  lemma {:induction false} WalkStaysUnder(p: Pending)
    ensures forall f :: f in Walked(p) ==> Under(p.rel, f.rel)
    decreases NodeCount(p.node), 0
  {
    SubdirectoriesAreFewer(p.rel, EntriesOf(p.node));
    OwnAreChildren(p.rel, EntriesOf(p.node));
    StackStaysUnder(p.rel, Subdirectories(p.rel, EntriesOf(p.node)));
  }

  lemma {:induction false} StackStaysUnder(top: seq<string>, stack: seq<Pending>)
    requires forall q :: q in stack ==> q.rel != [] && Parent(q.rel) == top
    ensures forall f :: f in WalkedStack(stack) ==> Under(top, f.rel)
    decreases NodesLeft(stack), |stack| + 1
  {
    if stack != [] {
      var n := |stack| - 1;
      NodesLeftSplit(stack);
      assert stack[n] in stack;
      WalkStaysUnder(stack[n]);
      StackStaysUnder(top, stack[..n]);
      forall f | f in Walked(stack[n]) ensures Under(top, f.rel) {
        assert f.rel[..|top|] == f.rel[..|top| + 1][..|top|];
      }
    }
  }

  lemma {:induction false} PlanItems(direction: Direction, base: string, existsAt: string -> bool,
      sources: seq<Selected>, i: nat)
    returns (k: nat)
    requires i < |FoundInAll(sources)|
    ensures k < |sources|
    ensures ItemFor(direction, base, existsAt, sources[k], FoundInAll(sources)[i],
            PlanOf(direction, base, existsAt, sources)[i])
  {
    hide FoundIn, FoundInAll, PlanOf, Planned;
    assert sources != [] by { NothingFound(); }
    var n := |sources| - 1;
    var before := |FoundInAll(sources[..n])|;
    Unfolded(direction, base, existsAt, sources);
    if i < before {
      k := PlanItems(direction, base, existsAt, sources[..n], i);
    } else {
      k := n;
      FoundUnderItsName(sources[n]);
      assert FoundInAll(sources)[i] in FoundIn(sources[n]);
    }
  }

  lemma NothingFound()
    ensures FoundInAll([]) == []
  {
  }

  lemma FoundUnderItsName(s: Selected)
    ensures forall f :: f in FoundIn(s) ==> Under([LastComponent(s.path)], f.rel)
  {
    if s.PickedDir? {
      hide Walked;
      WalkStaysUnder(Pending([LastComponent(s.path)], NodeOf(s)));
    }
  }

  /** Creating in plan order is enough: a directory comes before whatever is in it. */
  lemma {:induction false} ParentsArePlannedFirst(sources: seq<Selected>, i: nat)
    requires i < |FoundInAll(sources)| && |FoundInAll(sources)[i].rel| > 1
    ensures Found(Parent(FoundInAll(sources)[i].rel), Directory) in FoundInAll(sources)[..i]
  {
    hide Walked;
    var n := |sources| - 1;
    var before := FoundInAll(sources[..n]);
    if i < |before| {
      ParentsArePlannedFirst(sources[..n], i);
      assert FoundInAll(sources)[..i] == before[..i];
    } else {
      var p := Pending([LastComponent(sources[n].path)], NodeOf(sources[n]));
      assert sources[n].PickedDir?;
      WalkPutsParentsFirst(p);
      assert AfterItsParent(p.rel, Walked(p), i - |before|);
      assert FoundInAll(sources)[..i] == before + Walked(p)[..i - |before|];
    }
  }

  // ---------------------------------------------------------------- what is going to move

  predicate WillMove(item: TransferItem) {
    item.skip.None? && !item.isDir
  }

  function PlannedBytes(items: seq<TransferItem>): nat {
    if items == [] then 0
    else PlannedBytes(items[..|items| - 1]) + if WillMove(items[|items| - 1]) then items[|items| - 1].size else 0
  }

  function PlannedFiles(items: seq<TransferItem>): nat {
    if items == [] then 0
    else PlannedFiles(items[..|items| - 1]) + if WillMove(items[|items| - 1]) then 1 else 0
  }

  lemma {:induction false} PlannedBytesConcat(a: seq<TransferItem>, b: seq<TransferItem>)
    ensures PlannedBytes(a + b) == PlannedBytes(a) + PlannedBytes(b)
  {
    if b == [] {
      assert a + b == a;
    } else {
      assert (a + b)[..|a + b| - 1] == a + b[..|b| - 1];
      PlannedBytesConcat(a, b[..|b| - 1]);
    }
  }

  lemma {:induction false} PlannedBytesOf(route: Route, found: seq<Found>)
    ensures PlannedBytes(PlannedOn(route, found)) == FileBytes(found)
  {
    if found != [] {
      hide PlannedOn, PlannedBytes;
      PlannedBytesOf(route, found[1..]);
      FirstPlanned(route, found);
      PlannedBytesConcat(PlannedOn(route, [found[0]]), PlannedOn(route, found[1..]));
    } else {
      assert PlannedOn(route, found) == [];
    }
  }

  lemma FirstPlanned(route: Route, found: seq<Found>)
    requires found != []
    ensures PlannedOn(route, found) == PlannedOn(route, [found[0]]) + PlannedOn(route, found[1..])
    ensures PlannedBytes(PlannedOn(route, [found[0]])) == if found[0].kind.Regular? then found[0].kind.size else 0
  {
    var one := PlannedOn(route, [found[0]]);
    assert one[..0] == [];
  }

  /** Before any question is answered the bytes to move are the total the plan counted. */
  lemma {:induction false} TheTotalIsWhatWillMove(direction: Direction, base: string, existsAt: string -> bool,
      sources: seq<Selected>)
    ensures PlannedBytes(PlanOf(direction, base, existsAt, sources)) == FileBytes(FoundInAll(sources))
  {
    if sources != [] {
      hide PlannedBytes, FileBytes, FoundIn, PlannedAll;
      var n := |sources| - 1;
      var route := Route(direction, sources[n].path, base, existsAt);
      TheTotalIsWhatWillMove(direction, base, existsAt, sources[..n]);
      PlannedBytesOf(route, FoundIn(sources[n]));
      PlannedBytesConcat(PlanOf(direction, base, existsAt, sources[..n]), PlannedOn(route, FoundIn(sources[n])));
      CountsConcat(FoundInAll(sources[..n]), FoundIn(sources[n]));
    }
  }

  // ---------------------------------------------------------------- what the copy may rely on

  lemma TwiceIsTwo(s: seq<Found>, i: nat, j: nat)
    requires i < j < |s| && s[i] == s[j]
    ensures multiset(s)[s[i]] >= 2
  {
    assert s == s[..j] + [s[j]] + s[j + 1..];
    assert s[..j][i] == s[i];
    assert s[i] in multiset(s[..j]);
    assert multiset(s) == multiset(s[..j]) + multiset{s[j]} + multiset(s[j + 1..]);
  }

  lemma PathsAreDistinct(sources: seq<Selected>, i: nat, j: nat)
    requires WellNamedIn(AsEntries(sources)) && i < j < |FoundInAll(sources)|
    ensures FoundInAll(sources)[i].rel != FoundInAll(sources)[j].rel
  {
    hide FoundInAll, EverythingIn, FileBytes, WellNamedIn, AsEntries;
    var found := FoundInAll(sources);
    PlanIsTheSelection(sources);
    ListedOnceIn([], AsEntries(sources));
    assert found[i] in multiset(found) && found[j] in multiset(found);
    if found[i] == found[j] {
      TwiceIsTwo(found, i, j);
      assert false;
    }
  }

  lemma DestinationOf(direction: Direction, base: string, existsAt: string -> bool, sources: seq<Selected>, i: nat)
    requires i < |FoundInAll(sources)|
    ensures PlanOf(direction, base, existsAt, sources)[i].dst == base + Joined(FoundInAll(sources)[i].rel)
  {
    hide FoundInAll, PlanOf;
    var _ := PlanItems(direction, base, existsAt, sources, i);
  }

  /** Distinct names in every directory, and among the selected names, give distinct destinations. */
  lemma DestinationsAreDistinct(direction: Direction, base: string, existsAt: string -> bool, sources: seq<Selected>,
      i: nat, j: nat)
    requires WellNamedIn(AsEntries(sources)) && i < j < |FoundInAll(sources)|
    ensures PlanOf(direction, base, existsAt, sources)[i].dst != PlanOf(direction, base, existsAt, sources)[j].dst
  {
    hide FoundInAll, PlanOf, WellNamedIn, AsEntries, Joined;
    var a, b := FoundInAll(sources)[i].rel, FoundInAll(sources)[j].rel;
    FoundArePlain(sources);
    PathsAreDistinct(sources, i, j);
    DestinationOf(direction, base, existsAt, sources, i);
    DestinationOf(direction, base, existsAt, sources, j);
    if Joined(a) == Joined(b) {
      JoinedInjective(a, b);
      assert false;
    }
    SameBase(base, Joined(a), Joined(b));
  }

  lemma SameBase(base: string, a: string, b: string)
    ensures base + a == base + b <==> a == b
  {
    assert a == (base + a)[|base|..] && b == (base + b)[|base|..];
  }

  lemma FoundArePlain(sources: seq<Selected>)
    requires WellNamedIn(AsEntries(sources))
    ensures forall f :: f in FoundInAll(sources) ==> Plain(f.rel)
  {
    PlanIsTheSelection(sources);
    ListedBelowIn([], AsEntries(sources));
    forall f | f in FoundInAll(sources) ensures Plain(f.rel) {
      assert f in multiset(FoundInAll(sources));
    }
  }

  lemma PathsAreNotParts(sources: seq<Selected>, i: nat, j: nat)
    requires WellNamedIn(AsEntries(sources)) && NoPartNamesIn(AsEntries(sources))
    requires i < |FoundInAll(sources)| && j < |FoundInAll(sources)|
    ensures FoundInAll(sources)[j].rel != [] && FoundInAll(sources)[i].rel != PartOf(FoundInAll(sources)[j].rel)
  {
    hide FoundInAll, EverythingIn, FileBytes, WellNamedIn, NoPartNamesIn, AsEntries;
    var found := FoundInAll(sources);
    FoundArePlain(sources);
    PlanIsTheSelection(sources);
    ListedWithoutPartsIn([], AsEntries(sources));
    assert found[i] in multiset(found) && found[j] in multiset(found);
  }

  /** With no name standing beside its own temporary name, no destination is the temporary file of
      another. */
  lemma NoDestinationIsAPart(direction: Direction, base: string, existsAt: string -> bool, sources: seq<Selected>,
      i: nat, j: nat)
    requires WellNamedIn(AsEntries(sources)) && NoPartNamesIn(AsEntries(sources))
    requires i < |FoundInAll(sources)| && j < |FoundInAll(sources)|
    ensures PlanOf(direction, base, existsAt, sources)[i].dst != Part(PlanOf(direction, base, existsAt, sources)[j].dst)
  {
    hide FoundInAll, PlanOf, WellNamedIn, NoPartNamesIn, AsEntries, Joined;
    var a, b := FoundInAll(sources)[i].rel, FoundInAll(sources)[j].rel;
    FoundArePlain(sources);
    PathsAreNotParts(sources, i, j);
    DestinationOf(direction, base, existsAt, sources, i);
    DestinationOf(direction, base, existsAt, sources, j);
    JoinedPart(b);
    if Joined(a) == Joined(PartOf(b)) {
      JoinedInjective(a, PartOf(b));
      assert false;
    }
    SameBase(base, Joined(a), Part(Joined(b)));
    assert base + Part(Joined(b)) == Part(base + Joined(b));
  }

  /** Whatever a planned thing lies in, below the selection, is planned as a directory. */
  lemma {:induction false} AncestorsArePlanned(sources: seq<Selected>, j: nat, n: nat)
    requires j < |FoundInAll(sources)| && 1 <= n < |FoundInAll(sources)[j].rel|
    ensures Found(FoundInAll(sources)[j].rel[..n], Directory) in FoundInAll(sources)
    decreases j
  {
    hide FoundInAll;
    var found := FoundInAll(sources);
    var rel := found[j].rel;
    ParentsArePlannedFirst(sources, j);
    var k :| 0 <= k < j && found[..j][k] == Found(Parent(rel), Directory);
    assert found[k] == Found(Parent(rel), Directory);
    if n < |rel| - 1 {
      AncestorsArePlanned(sources, k, n);
      assert Parent(rel)[..n] == rel[..n];
    }
  }

  lemma AboveIsPlanned(base: string, sources: seq<Selected>, r: seq<string>, j: nat)
    requires WellNamedIn(AsEntries(sources)) && Plain(r) && j < |FoundInAll(sources)|
    requires base + Joined(r) in Ancestors(base + Joined(FoundInAll(sources)[j].rel))
    ensures Found(r, Directory) in FoundInAll(sources)
  {
    hide FoundInAll, WellNamedIn, AsEntries, Joined;
    var rel := FoundInAll(sources)[j].rel;
    FoundArePlain(sources);
    var a, b := Joined(r), Joined(rel);
    assert (base + b)[..|base + a|] == base + a && (base + b)[|base + a|] == '/' && |base + a| < |base + b|;
    assert b[..|a|] == (base + b)[|base|..|base + a|] == a;
    assert b[|a|] == (base + b)[|base + a|];
    CutAtASlash(r, rel);
    AncestorsArePlanned(sources, j, |r|);
  }

  /** No file, and no temporary file, stands where a planned directory needs a directory. */
  lemma NoFileIsAboveADirectory(direction: Direction, base: string, existsAt: string -> bool, sources: seq<Selected>,
      i: nat, j: nat)
    requires WellNamedIn(AsEntries(sources)) && NoPartNamesIn(AsEntries(sources))
    requires i < |FoundInAll(sources)| && j < |FoundInAll(sources)|
    requires !PlanOf(direction, base, existsAt, sources)[i].isDir
    ensures var items := PlanOf(direction, base, existsAt, sources);
      items[i].dst !in Ancestors(items[j].dst) && Part(items[i].dst) !in Ancestors(items[j].dst)
  {
    hide FoundInAll, PlanOf, WellNamedIn, NoPartNamesIn, AsEntries, Joined, Ancestors;
    var items, found := PlanOf(direction, base, existsAt, sources), FoundInAll(sources);
    var r := found[i].rel;
    FoundArePlain(sources);
    DestinationOf(direction, base, existsAt, sources, i);
    DestinationOf(direction, base, existsAt, sources, j);
    if items[i].dst in Ancestors(items[j].dst) {
      AboveIsPlanned(base, sources, r, j);
      FilesAreNotDirectories(direction, base, existsAt, sources, i);
      assert false;
    }
    JoinedPart(r);
    assert base + Joined(PartOf(r)) == Part(items[i].dst);
    if Part(items[i].dst) in Ancestors(items[j].dst) {
      AboveIsPlanned(base, sources, PartOf(r), j);
      var m :| 0 <= m < |found| && found[m] == Found(PartOf(r), Directory);
      DestinationOf(direction, base, existsAt, sources, m);
      NoDestinationIsAPart(direction, base, existsAt, sources, m, i);
      assert false;
    }
  }

  lemma FilesAreNotDirectories(direction: Direction, base: string, existsAt: string -> bool, sources: seq<Selected>,
      i: nat)
    requires WellNamedIn(AsEntries(sources)) && i < |FoundInAll(sources)|
    requires !PlanOf(direction, base, existsAt, sources)[i].isDir
    ensures Found(FoundInAll(sources)[i].rel, Directory) !in FoundInAll(sources)
  {
    hide FoundInAll, PlanOf, WellNamedIn, AsEntries, EverythingIn, FileBytes;
    var found := FoundInAll(sources);
    PlanIsTheSelection(sources);
    ListedOnceIn([], AsEntries(sources));
    var _ := PlanItems(direction, base, existsAt, sources, i);
    assert found[i] in multiset(found);
    var f := Found(found[i].rel, Directory);
    assert f in found ==> f in multiset(found);
  }
}
