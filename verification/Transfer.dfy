/**
 Copying a plan (src/ssh/transfer.rs): every file is written under a temporary name and renamed
 once it is complete.

 The two file systems are maps.  Every request to them and every event delivered to the user is
 logged.  What can go wrong is a set of oracles over the number of requests, or of events, so far:
 which requests fail, what a failed one left behind, how little a read returned, and which events
 were answered with a cancellation.
 */
module Transfer {
  import opened Wrappers
  import opened TransferPlan
  import opened Planner

  type Byte = bv8

  datatype Thing = Content(bytes: seq<Byte>) | Folder

  type Files = map<string, Thing>

  const CHUNK: nat := 32 * 1024

  datatype Weather = Weather(
    fault: nat -> bool,                       // the request fails
    left: nat -> Option<seq<Byte>>,           // what a failed open or write leaves under the temporary name
    short: nat -> nat,                        // the most a read returns
    stop: nat -> bool)                        // the event is answered with a cancellation

  /** A request to one of the file systems. */
  datatype Request =
    | OpenSource(path: string) | ReadAt(path: string, offset: nat)
    | Create(path: string) | WriteAt(path: string, offset: nat) | Flush | Close
    | Remove(path: string) | Rename(path: string, target: string)
    | Stat(path: string) | MakeDir(path: string)

  /** What the user is told, with the number of the item. */
  datatype Notice =
    | ItemSkipped(index: nat)
    | ItemStarted(index: nat)
    | Progress(doneBytes: nat)
    | ItemFinished(index: nat)
    | ItemFailed(index: nat)

  /** What is fixed during a run. */
  datatype Setup = Setup(direction: Direction, source: map<string, seq<Byte>>, weather: Weather)

  /** Between two items: the destination, and how many requests and events there were. */
  datatype Stage = Stage(files: Files, requests: nat, events: nat)

  /** Before the end of a file, a read returns something. */
  ghost predicate Honest(weather: Weather) {
    forall t: nat :: weather.short(t) > 0
  }

  ghost predicate SameAt(a: Files, b: Files, p: string) {
    (p in a <==> p in b) && (p in a ==> a[p] == b[p])
  }

  ghost predicate SameExcept(a: Files, b: Files, changed: set<string>) {
    forall p :: p !in changed ==> SameAt(a, b, p)
  }

  datatype Step = Finished | Stopped | Broken

  /** What became of one item.  The numbers are those of the requests that decide what is left: to
      remove the temporary file, to remove the target that is to be replaced, and to rename. */
  datatype Outcome =
    | Skipped
    | Made                              // the directory is there
    | NotMade
    | Copied
    | Aborted(failed: bool, removal: nat)    // given up before the rename, by a fault or by the user
    | NotRenamed(oldRemoval: Option<nat>, rename: nat)
    | Unreached

  /** RENAME onto an existing name fails (section 6.5 of draft-ietf-secsh-filexfer-02); the local
      one replaces a file but not a directory. */
  predicate CanRename(direction: Direction, dest: Files, dst: string) {
    if direction.Upload? then dst !in dest else dst in dest ==> dest[dst].Content?
  }

  /** The old target was removed to make room for the upload. */
  predicate OldIsRemoved(c: Setup, item: TransferItem, before: Files, oldRemoval: Option<nat>) {
    && c.direction.Upload? && item.exists_ && oldRemoval.Some? && !c.weather.fault(oldRemoval.value)
    && item.dst in before && before[item.dst].Content?
  }

  /** The file at `path` is the source, or a prefix of it if a read was cut short before its end. */
  ghost predicate Holds(c: Setup, src: string, files: Files, path: string) {
    && src in c.source && path in files && files[path].Content?
    && files[path].bytes <= c.source[src]
    && (Honest(c.weather) ==> files[path].bytes == c.source[src])
  }

  /** What handling one item did to the destination: the whole source under its name and nothing
      under the temporary name, or an exact account of what is left, by the requests that failed. */
  ghost predicate Settled(c: Setup, item: TransferItem, before: Files, after: Files, outcome: Outcome) {
    var part := Part(item.dst);
    match outcome
    case Copied => part !in after && Holds(c, item.src, after, item.dst)
    case Aborted(_, removal) =>
      && SameAt(before, after, item.dst)
      && (!c.weather.fault(removal) && (part in before ==> before[part].Content?) ==> part !in after)
    case NotRenamed(oldRemoval, rename) =>
      && Holds(c, item.src, after, part)
      && (oldRemoval.Some? <==> c.direction.Upload? && item.exists_)
      && (c.weather.fault(rename) || !CanRename(c.direction, after, item.dst))
      && (if OldIsRemoved(c, item, before, oldRemoval) then item.dst !in after
          else SameAt(before, after, item.dst))
    case Made => (item.dst != [] ==> item.dst in after && after[item.dst].Folder?) && SameAt(before, after, part)
    case _ => SameAt(before, after, item.dst) && SameAt(before, after, part)
  }

  /** `t` is one of the requests made for the item, and it is this one. */
  predicate Asked(requests: seq<Request>, before: Stage, after: Stage, t: int, request: Request) {
    before.requests <= t < after.requests <= |requests| && requests[t] == request
  }

  /** The numbers of an outcome are those of real requests, and a failure has its cause among them. */
  predicate Accounted(c: Setup, requests: seq<Request>, item: TransferItem, before: Stage, after: Stage,
      outcome: Outcome) {
    var part := Part(item.dst);
    && before.requests <= after.requests <= |requests|
    && match outcome
       case Copied => Asked(requests, before, after, after.requests - 1, Rename(part, item.dst))
       case Aborted(failed, removal) =>
         && Asked(requests, before, after, removal, Remove(part))
         && (failed && item.src in c.source && (part in before.files ==> before.files[part].Content?) ==>
               before.requests < removal && c.weather.fault(removal - 1))
       case NotRenamed(oldRemoval, rename) =>
         && Asked(requests, before, after, rename, Rename(part, item.dst))
         && (oldRemoval.Some? ==> Asked(requests, before, after, oldRemoval.value, Remove(item.dst)))
       case _ => true
  }

  /** Nothing but faults and cancellations stands in the way of the item. */
  ghost predicate Feasible(c: Setup, item: TransferItem, dest: Files) {
    if item.isDir then NothingInTheWay(dest, DirectoriesFor(c.direction, item))
    else
      && item.src in c.source
      && (Part(item.dst) in dest ==> dest[Part(item.dst)].Content?)
      && Replaceable(c.direction, item, dest)
  }

  /** Nothing stands under the name, or a file that the transfer was told to replace. */
  predicate Replaceable(direction: Direction, item: TransferItem, dest: Files) {
    item.dst in dest ==> dest[item.dst].Content? && (direction.Upload? ==> item.exists_)
  }

  predicate NothingInTheWay(dest: Files, paths: set<string>) {
    forall p :: p in paths ==> FolderOrNothing(dest, p)
  }

  predicate FolderOrNothing(dest: Files, p: string) {
    p in dest ==> dest[p].Folder?
  }

  predicate Succeeded(outcome: Outcome) {
    outcome.Copied? || outcome.Made? || outcome.Skipped?
  }

  /** The directories making this one may bring into being: locally, the missing ones above it too. */
  function DirectoriesFor(direction: Direction, item: TransferItem): set<string> {
    if direction.Download? then SelfAndAbove(item.dst) else {item.dst}
  }

  function SelfAndAbove(path: string): set<string> {
    if path == [] then {} else {path} + Ancestors(path)
  }

  function Touches(direction: Direction, item: TransferItem): set<string> {
    if item.skip.Some? then {} else if item.isDir then DirectoriesFor(direction, item) else {item.dst, Part(item.dst)}
  }

  /** `p` is as it was, or there was nothing and now there is a directory. */
  ghost predicate SameOrNewFolder(before: Files, after: Files, p: string) {
    SameAt(before, after, p) || (p !in before && p in after && after[p].Folder?)
  }

  predicate Fits(item: TransferItem, outcome: Outcome) {
    if item.skip.Some? then outcome.Skipped?
    else if item.isDir then outcome.Made? || outcome.NotMade?
    else outcome.Copied? || outcome.Aborted? || outcome.NotRenamed?
  }

  /** One item of a run. */
  ghost predicate Handled(c: Setup, requests: seq<Request>, item: TransferItem, before: Stage, after: Stage,
      outcome: Outcome) {
    && SameExcept(before.files, after.files, Touches(c.direction, item))
    && (item.isDir ==> forall p :: SameOrNewFolder(before.files, after.files, p))
    && Settled(c, item, before.files, after.files, outcome)
    && Accounted(c, requests, item, before, after, outcome)
    && (outcome.Unreached? || Fits(item, outcome))
    && (Faultless(c.weather) && Feasible(c, item, before.files) && !outcome.Unreached? ==>
          Succeeded(outcome) || (outcome.Aborted? && !outcome.failed))
  }

  /** A start, progress, and one ending if there is one. */
  predicate OneCopy(events: seq<Notice>, index: nat, ending: Option<Notice>) {
    var n := if ending.Some? then |events| - 1 else |events|;
    && 0 < n && events[0] == ItemStarted(index)
    && (forall k :: 1 <= k < n ==> events[k].Progress?)
    && (ending.Some? ==> events[n] == ending.value)
  }

  /** The numbers of progress only grow, and the last one is how many bytes have been moved. */
  ghost predicate ProgressGrows(events: seq<Notice>, moved: nat) {
    && (forall i, k :: 0 <= i < k < |events| && events[i].Progress? && events[k].Progress? ==>
          events[i].doneBytes < events[k].doneBytes)
    && (forall k :: 0 <= k < |events| && events[k].Progress? ==> events[k].doneBytes <= moved)
    && (moved > 0 ==> Progress(moved) in events)
  }

  lemma OneNoticeMore(events: seq<Notice>, moved: nat, event: Notice, more: nat)
    requires ProgressGrows(events, moved)
    requires if event.Progress? then event.doneBytes == moved + more && more > 0 else more == 0
    ensures ProgressGrows(events + [event], moved + more)
  {
    if event.Progress? {
      assert (events + [event])[|events|] == Progress(moved + more);
    }
  }

  lemma NoProgress(events: seq<Notice>, moved: nat, event: Notice)
    requires !event.Progress?
    ensures ProgressGrows(events, moved) ==> ProgressGrows(events + [event], moved)
  {
    if ProgressGrows(events, moved) {
      OneNoticeMore(events, moved, event, 0);
    }
  }

  /** What is reported of one item: by its outcome, and nothing else. */
  predicate Reports(index: nat, outcome: Outcome, events: seq<Notice>) {
    match outcome
    case Skipped => events == [ItemSkipped(index)]
    case Made => events == []
    case NotMade => events == [ItemFailed(index)]
    case Unreached => events == [] || events == [ItemStarted(index)]
    case Copied => OneCopy(events, index, Some(ItemFinished(index)))
    case NotRenamed(_, _) => OneCopy(events, index, Some(ItemFailed(index)))
    case Aborted(failed, _) =>
      if failed then OneCopy(events, index, Some(ItemFailed(index)))
      else OneCopy(events, index, None) && |events| > 1
  }

  ghost predicate Reported(c: Setup, delivered: seq<Notice>, index: nat, before: Stage, after: Stage,
      outcome: Outcome) {
    && before.events <= after.events <= |delivered|
    && Reports(index, outcome, delivered[before.events..after.events])
    && (outcome.Aborted? && !outcome.failed ==> after.events > 0 && c.weather.stop(after.events - 1))
  }

  /** Nothing but the temporary file changes while a file is fetched. */
  ghost predicate OnlyPart(before: Files, mid: Files, part: string) {
    && SameExcept(before, mid, {part})
    && (part in mid && mid[part].Folder? ==> part in before && before[part].Folder?)
  }

  /** Fetching, then removing the temporary file, is giving the item up. */
  lemma GivenUpIsHandled(c: Setup, requests: seq<Request>, item: TransferItem, before: Stage, mid: Stage, after: Stage,
                         failed: bool)
    requires !item.isDir && item.skip.None? && OnlyPart(before.files, mid.files, Part(item.dst))
    requires before.requests <= mid.requests && after.requests == mid.requests + 1 == |requests|
    requires requests[mid.requests] == Remove(Part(item.dst)) && SameExcept(mid.files, after.files, {Part(item.dst)})
    requires var part := Part(item.dst);
             !c.weather.fault(mid.requests) && (part in mid.files ==> mid.files[part].Content?) ==> part !in after.files
    requires failed ==>
               || item.src !in c.source || (Part(item.dst) in before.files && before.files[Part(item.dst)].Folder?)
               || (mid.requests > before.requests && c.weather.fault(mid.requests - 1))
    ensures Handled(c, requests, item, before, after, Aborted(failed, mid.requests))
  {
    PartIsNotAbove(item.dst);
    assert SameAt(before.files, mid.files, item.dst) && SameAt(mid.files, after.files, item.dst);
    forall p | p !in {item.dst, Part(item.dst)} ensures SameAt(before.files, after.files, p) {
      assert SameAt(before.files, mid.files, p) && SameAt(mid.files, after.files, p);
    }
  }

  /** Fetching, then putting the temporary file in place, is copying the item, or failing to rename. */
  lemma PlacedIsHandled(c: Setup, requests: seq<Request>, item: TransferItem, before: Stage, mid: Stage, after: Stage,
                        outcome: Outcome)
    requires !item.isDir && item.skip.None? && OnlyPart(before.files, mid.files, Part(item.dst))
    requires Holds(c, item.src, mid.files, Part(item.dst)) && before.requests <= mid.requests
    requires SameExcept(mid.files, after.files, {item.dst, Part(item.dst)})
    requires Placed(c, requests, item, mid, after, outcome)
    ensures Handled(c, requests, item, before, after, outcome)
  {
    PartIsNotAbove(item.dst);
    assert SameAt(before.files, mid.files, item.dst);
    forall p | p !in {item.dst, Part(item.dst)} ensures SameAt(before.files, after.files, p) {
      assert SameAt(before.files, mid.files, p) && SameAt(mid.files, after.files, p);
    }
  }

  /** What putting the temporary file in place comes to: exactly what a failed rename leaves. */
  ghost predicate Placed(c: Setup, requests: seq<Request>, item: TransferItem, mid: Stage, after: Stage,
      outcome: Outcome) {
    var part := Part(item.dst);
    && after.requests == |requests| == mid.requests + (if c.direction.Upload? && item.exists_ then 2 else 1)
    && requests[after.requests - 1] == Rename(part, item.dst)
    && (c.direction.Upload? && item.exists_ ==> requests[mid.requests] == Remove(item.dst))
    && match outcome
       case Copied =>
         && part !in after.files && part in mid.files && item.dst in after.files
         && after.files[item.dst] == mid.files[part] && !c.weather.fault(after.requests - 1)
       case NotRenamed(oldRemoval, rename) =>
         && (c.weather.fault(rename) || !CanRename(c.direction, after.files, item.dst))
         && SameAt(mid.files, after.files, part) && rename == after.requests - 1
         && oldRemoval == (if c.direction.Upload? && item.exists_ then Some(mid.requests) else None)
         && (if OldIsRemoved(c, item, mid.files, oldRemoval) then item.dst !in after.files
             else SameAt(mid.files, after.files, item.dst))
       case _ => false
  }

  lemma HandledIgnoresEvents(c: Setup, requests: seq<Request>, item: TransferItem, before: Stage, after: Stage,
                             start: Stage, outcome: Outcome)
    requires Handled(c, requests, item, before, after, outcome) && start == before.(events := start.events)
    ensures Handled(c, requests, item, start, after, outcome)
  {
  }

  lemma HandledIgnoresTheLastEvent(c: Setup, requests: seq<Request>, item: TransferItem, before: Stage, after: Stage,
                                   end: Stage, outcome: Outcome)
    requires Handled(c, requests, item, before, after, outcome) && end == after.(events := end.events)
    ensures Handled(c, requests, item, before, end, outcome)
  {
  }

  lemma NothingHandled(c: Setup, requests: seq<Request>, item: TransferItem, before: Stage, after: Stage)
    requires after == before.(events := after.events) && after.requests <= |requests|
    ensures Handled(c, requests, item, before, after, Unreached)
  {
  }

  lemma CopyIsReported(c: Setup, was: seq<Notice>, copied: seq<Notice>, delivered: seq<Notice>, index: nat,
                       before: Stage, after: Stage, outcome: Outcome)
    requires was + [ItemStarted(index)] <= copied
    requires forall k :: |was| + 1 <= k < |copied| ==> copied[k].Progress?
    requires before.events == |was| && after.events == |delivered|
    requires outcome.Copied? || outcome.Aborted? || outcome.NotRenamed?
    requires if outcome.Aborted? && !outcome.failed then
               delivered == copied && |copied| > |was| + 1 && c.weather.stop(|copied| - 1)
             else delivered == copied + [if outcome.Copied? then ItemFinished(index) else ItemFailed(index)]
    ensures Reported(c, delivered, index, before, after, outcome)
  {
    var events := delivered[|was|..|delivered|];
    assert events[0] == copied[|was|] == ItemStarted(index);
    assert forall k :: 0 <= k < |copied| - |was| ==> events[k] == copied[|was| + k];
  }

  lemma StartIsReported(c: Setup, was: seq<Notice>, index: nat, before: Stage, after: Stage)
    requires before.events == |was| && after.events == |was| + 1
    ensures Reported(c, was + [ItemStarted(index)], index, before, after, Unreached)
  {
    assert (was + [ItemStarted(index)])[|was|..|was| + 1] == [ItemStarted(index)];
  }

  /** No request fails. */
  ghost predicate Faultless(weather: Weather) {
    forall t: nat :: !weather.fault(t)
  }

  /** The user never cancels. */
  ghost predicate NeverStops(weather: Weather) {
    forall e: nat :: !weather.stop(e)
  }

  datatype Summary = Summary(files: nat, bytes: nat, skipped: nat, failures: nat, cancelled: bool)

  /** What the outcomes add up to. */
  function Tally(items: seq<TransferItem>, outcomes: seq<Outcome>): Summary
    requires |items| == |outcomes|
  {
    if items == [] then Summary(0, 0, 0, 0, false)
    else
      var n := |items| - 1;
      Count(Tally(items[..n], outcomes[..n]), items[n], outcomes[n])
  }

  function ParentPath(path: string): (r: string)
    requires path != []
    ensures |r| < |path|
  {
    if path[|path| - 1] == '/' then path[..|path| - 1] else
      var up := path[..|path| - 1];
      if up == [] then [] else ParentPath(path[..|path| - 1])
  }

  lemma {:induction false} ParentIsAbove(path: string)
    requires path != []
    ensures var parent := ParentPath(path);
      && (parent != [] ==> parent in Ancestors(path))
      && (forall p :: p in Ancestors(parent) ==> p in Ancestors(path))
  {
    var up := path[..|path| - 1];
    if path[|path| - 1] == '/' {
      CutShorter(path, up);
    } else if up != [] {
      ParentIsAbove(up);
      CutShorter(path, up);
    }
  }

  lemma CutShorter(path: string, up: string)
    requires up <= path
    ensures forall p :: p in Ancestors(up) ==> p in Ancestors(path)
    ensures up != [] && |up| < |path| && path[|up|] == '/' ==> up in Ancestors(path)
  {
    forall p | p in Ancestors(up) ensures p in Ancestors(path) {
      var i :| 0 < i < |up| && up[i] == '/' && p == up[..i];
      assert path[..i] == up[..i] && path[i] == up[i];
    }
    if up != [] && |up| < |path| && path[|up|] == '/' {
      assert path[..|up|] == up;
    }
  }

  lemma PartIsNotAbove(dst: string)
    ensures Part(dst) !in SelfAndAbove(dst) && Part(dst) != dst
  {
    assert |Part(dst)| == |dst| + 5;
    forall p | p in SelfAndAbove(dst) ensures |p| <= |dst| {
    }
  }

  class Engine {
    const direction: Direction
    const source: map<string, seq<Byte>>
    const weather: Weather
    var dest: Files
    var requests: seq<Request>
    var delivered: seq<Notice>
    var doneBytes: nat

    constructor (direction: Direction, source: map<string, seq<Byte>>, weather: Weather, dest: Files)
      ensures this.direction == direction && this.source == source && this.weather == weather
      ensures this.dest == dest && requests == [] && delivered == [] && doneBytes == 0
      ensures ProgressGrows(delivered, doneBytes)
    {
      this.direction, this.source, this.weather, this.dest := direction, source, weather, dest;
      requests, delivered, doneBytes := [], [], 0;
    }

    function Given(): Setup {
      Setup(direction, source, weather)
    }

    function Now(): Stage
      reads this
    {
      Stage(dest, |requests|, |delivered|)
    }

    /** One request to a file system. */
    method Try(request: Request) returns (ok: bool)
      modifies this`requests
      ensures requests == old(requests) + [request] && ok == !weather.fault(|old(requests)|)
    {
      ok := !weather.fault(|requests|);
      requests := requests + [request];
    }

    method OnEvent(event: Notice) returns (stop: bool)
      modifies this`delivered
      ensures delivered == old(delivered) + [event] && stop == weather.stop(|old(delivered)|)
    {
      stop := weather.stop(|delivered|);
      delivered := delivered + [event];
    }

    /** Creates or truncates the temporary file. */
    method OpenWrite(part: string) returns (ok: bool)
      modifies this`requests, this`dest
      ensures requests == old(requests) + [Create(part)]
      ensures ok <==> !weather.fault(|old(requests)|) && (part in old(dest) ==> old(dest)[part].Content?)
      ensures ok ==> dest == old(dest)[part := Content([])]
      ensures SameExcept(old(dest), dest, {part})
      ensures part in dest && dest[part].Folder? ==> part in old(dest) && old(dest)[part].Folder?
    {
      ok := Try(Create(part));
      if part in dest && dest[part].Folder? {
        ok := false;
      } else if ok {
        dest := dest[part := Content([])];
      } else {
        LeaveBehind(part);
      }
    }

    /** A failed request may still have had an effect. */
    method LeaveBehind(part: string)
      modifies this`dest
      ensures match weather.left(|requests|)
        case None => dest == old(dest)
        case Some(bytes) => dest == old(dest)[part := Content(bytes)]
    {
      var left := weather.left(|requests|);
      if left.Some? {
        dest := dest[part := Content(left.value)];
      }
    }

    /** At most a chunk, at most what is left, and possibly less. */
    method Read(src: string, offset: nat) returns (ok: bool, bytes: seq<Byte>)
      requires src in source && offset <= |source[src]|
      modifies this`requests
      ensures requests == old(requests) + [ReadAt(src, offset)] && ok == !weather.fault(|old(requests)|)
      ensures offset + |bytes| <= |source[src]| && bytes == source[src][offset..offset + |bytes|] && |bytes| <= CHUNK
      ensures ok && bytes == [] && weather.short(|old(requests)|) > 0 ==> offset == |source[src]|
    {
      var most := weather.short(|requests|);
      ok := Try(ReadAt(src, offset));
      var left := |source[src]| - offset;
      var n := if most < left then most else left;
      n := if n < CHUNK then n else CHUNK;
      bytes := source[src][offset..offset + n];
    }

    method WriteChunk(part: string, offset: nat, bytes: seq<Byte>) returns (ok: bool)
      requires part in dest && dest[part].Content? && offset == |dest[part].bytes|
      modifies this`requests, this`dest
      ensures requests == old(requests) + [WriteAt(part, offset)] && ok == !weather.fault(|old(requests)|)
      ensures ok ==> dest == old(dest)[part := Content(old(dest)[part].bytes + bytes)]
      ensures SameExcept(old(dest), dest, {part}) && part in dest && dest[part].Content?
    {
      ok := Try(WriteAt(part, offset));
      if ok {
        dest := dest[part := Content(dest[part].bytes + bytes)];
      } else {
        LeaveBehind(part);
      }
    }

    method RemoveFile(path: string) returns (ok: bool)
      modifies this`requests, this`dest
      ensures requests == old(requests) + [Remove(path)]
      ensures ok <==> !weather.fault(|old(requests)|) && path in old(dest) && old(dest)[path].Content?
      ensures dest == if ok then old(dest) - {path} else old(dest)
    {
      ok := Try(Remove(path));
      ok := ok && path in dest && dest[path].Content?;
      if ok {
        dest := dest - {path};
      }
    }

    method RenameTo(part: string, dst: string) returns (ok: bool)
      requires part in dest && part != dst
      modifies this`requests, this`dest
      ensures requests == old(requests) + [Rename(part, dst)]
      ensures ok <==> !weather.fault(|old(requests)|) && CanRename(direction, old(dest), dst)
      ensures dest == if ok then (old(dest) - {part})[dst := old(dest)[part]] else old(dest)
    {
      ok := Try(Rename(part, dst));
      ok := ok && CanRename(direction, dest, dst);
      if ok {
        dest := (dest - {part})[dst := dest[part]];
      }
    }

    /** Progress goes on growing. */
    twostate predicate Progresses()
      reads this
    {
      && old(doneBytes) <= doneBytes
      && (ProgressGrows(old(delivered), old(doneBytes)) ==> ProgressGrows(delivered, doneBytes))
    }

    /** The requests and events so far stand, and every event since is progress. */
    twostate predicate Continues()
      reads this
    {
      && old(requests) <= requests && old(delivered) <= delivered
      && forall k :: |old(delivered)| <= k < |delivered| ==> delivered[k].Progress?
    }

    /** The chunk loop, the same in both directions.  The offset is both where the source is read
        and where the temporary file is written. */
    method Pump(src: string, part: string) returns (r: Step)
      requires src in source && part in dest && dest[part] == Content([])
      modifies this
      ensures Continues() && Progresses()
      ensures SameExcept(old(dest), dest, {part}) && part in dest && dest[part].Content?
      ensures r.Finished? ==>
        && doneBytes == old(doneBytes) + |dest[part].bytes|
        && |dest[part].bytes| <= |source[src]| && dest[part].bytes == source[src][..|dest[part].bytes|]
        && (Honest(weather) ==> dest[part].bytes == source[src])
      ensures if r.Stopped? then BrokeAt(weather.stop, |old(delivered)|, |delivered|)
              else Unbroken(weather.stop, |old(delivered)|, |delivered|)
      ensures r.Broken? ==> |requests| > |old(requests)| && weather.fault(|requests| - 1)
      ensures |delivered| - |old(delivered)| <= |source[src]|
      ensures |requests| <= |old(requests)| + 2 * (|delivered| - |old(delivered)|) + if r.Broken? then 2 else 1
      ensures r.Finished? ==> |requests| == |old(requests)| + 2 * (|delivered| - |old(delivered)|) + 1
      ensures r.Finished? && dest[part].bytes != [] ==> |delivered| > |old(delivered)|
    {
      hide ProgressGrows;
      var offset := 0;
      while true
        invariant Progresses() && Continues() && Unbroken(weather.stop, |old(delivered)|, |delivered|)
        invariant SameExcept(old(dest), dest, {part}) && part in dest && dest[part].Content?
        invariant offset <= |source[src]| && dest[part].bytes == source[src][..offset]
        invariant doneBytes == old(doneBytes) + offset
        invariant |requests| == |old(requests)| + 2 * (|delivered| - |old(delivered)|)
        invariant |delivered| - |old(delivered)| <= offset && (offset > 0 ==> |delivered| > |old(delivered)|)
        decreases |source[src]| - offset
      {
        var ok, n := MoveChunk(src, part, offset);
        if !ok {
          return Broken;
        }
        if n == 0 {
          break;
        }
        offset := offset + n;
        var stop := OnEvent(Progress(doneBytes));
        if stop {
          return Stopped;
        }
      }
      assert Honest(weather) ==> source[src][..offset] == source[src];
      return Finished;
    }

    /** Reads what comes next and writes it to the temporary file; nothing at the end of the source. */
    method MoveChunk(src: string, part: string, offset: nat) returns (ok: bool, n: nat)
      requires src in source && part in dest && dest[part].Content?
      requires offset <= |source[src]| && dest[part].bytes == source[src][..offset]
      modifies this`requests, this`dest, this`doneBytes
      ensures SameExcept(old(dest), dest, {part}) && part in dest && dest[part].Content?
      ensures old(requests) < requests && |requests| <= |old(requests)| + 2
      ensures !ok ==> weather.fault(|requests| - 1)
      ensures ok ==> offset + n <= |source[src]| && dest[part].bytes == source[src][..offset + n]
      ensures ok ==> doneBytes == old(doneBytes) + n && |requests| == |old(requests)| + if n == 0 then 1 else 2
      ensures ok && n == 0 && Honest(weather) ==> offset == |source[src]|
      ensures ProgressGrows(delivered, old(doneBytes)) && ok && n > 0 ==>
                ProgressGrows(delivered + [Progress(doneBytes)], doneBytes)
      ensures old(doneBytes) <= doneBytes
      ensures !ok ==> doneBytes == old(doneBytes)
    {
      var bytes;
      ok, bytes := Read(src, offset);
      n := |bytes|;
      if !ok || n == 0 {
        return;
      }
      ok := WriteChunk(part, offset, bytes);
      if !ok {
        return;
      }
      assert source[src][..offset] + bytes == source[src][..offset + n];
      if ProgressGrows(delivered, doneBytes) {
        OneNoticeMore(delivered, doneBytes, Progress(doneBytes + n), n);
      }
      doneBytes := doneBytes + n;
    }

    /** Opens the source, then the temporary file. */
    method OpenBoth(src: string, part: string) returns (ok: bool)
      modifies this`requests, this`dest
      ensures old(requests) < requests && |requests| <= |old(requests)| + 2 && OnlyPart(old(dest), dest, part)
      ensures ok ==> src in source && |requests| == |old(requests)| + 2 && part in dest && dest[part] == Content([])
      ensures !ok ==>
        || src !in source || (part in old(dest) && old(dest)[part].Folder?) || weather.fault(|requests| - 1)
    {
      ok := Try(OpenSource(src));
      if !ok || src !in source {
        return false;
      }
      ok := OpenWrite(part);
    }

    method Upload(src: string, part: string) returns (r: Step)
      modifies this
      ensures Continues() && Progresses() && Moved(src, part, r) && Counted(4, src, part, r)
    {
      var ok := OpenBoth(src, part);
      if !ok {
        return Broken;
      }
      r := Pump(src, part);
      if !r.Broken? {
        ok := Try(Close);
        if !ok && r.Finished? {
          r := Broken;
        }
      }
    }

    method Download(src: string, part: string) returns (r: Step)
      modifies this
      ensures Continues() && Progresses() && Moved(src, part, r) && Counted(5, src, part, r)
    {
      var ok := OpenBoth(src, part);
      if !ok {
        return Broken;
      }
      r := Pump(src, part);
      if r.Finished? {
        ok := Try(Flush);
        if !ok {
          return Broken;
        }
      }
      if !r.Broken? {
        ok := Try(Close);
        if !ok && r.Finished? {
          r := Broken;
        }
      }
    }

    method Fetch(src: string, part: string) returns (r: Step)
      modifies this
      ensures Continues() && Progresses() && Moved(src, part, r)
      ensures Counted(if direction.Upload? then 4 else 5, src, part, r)
    {
      if direction.Upload? {
        r := Upload(src, part);
      } else {
        r := Download(src, part);
      }
    }

    /** What both directions do before the rename: only the temporary file changes, and finishing
        means it holds the source. */
    twostate predicate Moved(src: string, part: string, r: Step)
      reads this
    {
      && OnlyPart(old(dest), dest, part)
      && (r.Finished? ==> Holds(Given(), src, dest, part) && doneBytes == old(doneBytes) + |dest[part].bytes|)
      && (if r.Stopped? then BrokeAt(weather.stop, |old(delivered)|, |delivered|)
          else Unbroken(weather.stop, |old(delivered)|, |delivered|))
      && (r.Broken? ==>
            || src !in source || (part in old(dest) && old(dest)[part].Folder?)
            || (|requests| > |old(requests)| && weather.fault(|requests| - 1)))
    }

    /** How many requests that takes: two for each chunk, and a few around them. */
    twostate predicate Counted(around: nat, src: string, part: string, r: Step)
      reads this
    {
      var chunks := |delivered| - |old(delivered)|;
      && (src in source ==> chunks <= |source[src]|)
      && |requests| <= |old(requests)| + 2 * chunks + around
      && (r.Finished? ==> |requests| == |old(requests)| + 2 * chunks + around)
      && (r.Finished? && part in dest && dest[part] != Content([]) ==> chunks > 0)
    }

    method Cleanup(part: string)
      modifies this`requests, this`dest
      ensures requests == old(requests) + [Remove(part)]
      ensures SameExcept(old(dest), dest, {part})
      ensures !weather.fault(|old(requests)|) && (part in old(dest) ==> old(dest)[part].Content?) ==> part !in dest
    {
      var _ := RemoveFile(part);
    }

    /** Puts a finished temporary file in its place, an upload making room first. */
    method PutInPlace(item: TransferItem, part: string) returns (outcome: Outcome)
      requires part == Part(item.dst) && part != item.dst && part in dest
      modifies this`requests, this`dest
      ensures SameExcept(old(dest), dest, {item.dst, part})
      ensures requests == old(requests) + (if direction.Upload? && item.exists_ then [Remove(item.dst)] else [])
                          + [Rename(part, item.dst)]
      ensures Placed(Given(), requests, item, old(Now()), Now(), outcome)
    {
      var oldRemoval := None;
      if direction.Upload? && item.exists_ {
        oldRemoval := Some(|requests|);
        var _ := RemoveFile(item.dst);
      }
      var rename := |requests|;
      var ok := RenameTo(part, item.dst);
      outcome := if ok then Copied else NotRenamed(oldRemoval, rename);
    }

    /** How many requests copying a file takes. */
    twostate predicate CopyCounted(item: TransferItem, outcome: Outcome)
      reads this
    {
      var chunks := |delivered| - |old(delivered)|;
      var around := if direction.Upload? then 4 else 5;
      var removals := if direction.Upload? && item.exists_ then 2 else 1;
      && (item.src in source ==> chunks <= |source[item.src]|)
      && (outcome.Aborted? ==>
            && outcome.removal == |requests| - 1
            && |requests| - 1 <= |old(requests)| + 2 * chunks + around)
      && (outcome.NotRenamed? ==> outcome.rename == |requests| - 1)
      && (outcome.Copied? ==> requests != [] && !weather.fault(|requests| - 1))
      && (!outcome.Aborted? ==>
            && |requests| == |old(requests)| + 2 * chunks + around + removals
            && (item.src in source && source[item.src] != [] && Honest(weather) ==> chunks > 0))
    }

    /** Copies one file.  Stopping is a stop at the last of its events, and the only one. */
    method CopyFile(item: TransferItem) returns (outcome: Outcome)
      requires !item.isDir && item.skip.None?
      modifies this
      ensures outcome.Copied? || outcome.Aborted? || outcome.NotRenamed?
      ensures Continues() && Progresses() && CopyCounted(item, outcome)
      ensures outcome.Copied? && Honest(weather) && item.src in source ==>
                doneBytes == old(doneBytes) + |source[item.src]|
      ensures Handled(Given(), requests, item, old(Now()), Now(), outcome)
      ensures if outcome.Aborted? && !outcome.failed then BrokeAt(weather.stop, |old(delivered)|, |delivered|)
              else Unbroken(weather.stop, |old(delivered)|, |delivered|)
    {
      hide Handled, OldIsRemoved, SameAt, ProgressGrows;
      var part := Part(item.dst);
      PartIsNotAbove(item.dst);
      ghost var before := Now();
      var r := Fetch(item.src, part);
      ghost var mid := Now();
      if r.Finished? {
        outcome := PutInPlace(item, part);
        PlacedIsHandled(Given(), requests, item, before, mid, Now(), outcome);
      } else {
        var removal := |requests|;
        Cleanup(part);
        outcome := Aborted(r.Broken?, removal);
        GivenUpIsHandled(Given(), requests, item, before, mid, Now(), r.Broken?);
      }
    }

    /** `create_dir_all`: makes the missing directories above a path, outermost first, then the
        path.  A failure leaves those already made. */
    method CreateDirAll(path: string) returns (ok: bool)
      modifies this`requests, this`dest
      ensures old(requests) <= requests
      ensures forall p :: SameOrNewFolder(old(dest), dest, p)
      ensures SameExcept(old(dest), dest, SelfAndAbove(path))
      ensures ok && path != [] ==> path in dest && dest[path].Folder?
      ensures !ok ==> SameAt(old(dest), dest, path)
      ensures Faultless(weather) && NothingInTheWay(old(dest), SelfAndAbove(path)) ==> ok
      decreases |path|
    {
      if path == [] {
        return true;
      }
      if path in dest {
        return dest[path].Folder?;
      }
      var parent := ParentPath(path);
      ParentIsAbove(path);
      ok := CreateDirAll(parent);
      ghost var mid := dest;
      assert SameAt(old(dest), mid, path);
      forall p | p !in SelfAndAbove(path) ensures SameAt(old(dest), mid, p) {
        assert p !in SelfAndAbove(parent);
      }
      if !ok {
        return;
      }
      ok := Try(MakeDir(path));
      if ok {
        dest := dest[path := Folder];
      }
      forall p ensures SameOrNewFolder(old(dest), dest, p) {
        assert SameOrNewFolder(old(dest), mid, p);
      }
      forall p | p !in SelfAndAbove(path) ensures SameAt(old(dest), dest, p) {
        assert SameAt(old(dest), mid, p);
      }
    }

    /** Creates a directory, tolerating one that is already there. */
    method EnsureDir(item: TransferItem) returns (ok: bool)
      modifies this`requests, this`dest
      ensures old(requests) <= requests
      ensures forall p :: SameOrNewFolder(old(dest), dest, p)
      ensures SameExcept(old(dest), dest, DirectoriesFor(direction, item))
      ensures ok && item.dst != [] ==> item.dst in dest && dest[item.dst].Folder?
      ensures !ok ==> SameAt(old(dest), dest, item.dst)
      ensures Faultless(weather) && NothingInTheWay(old(dest), DirectoriesFor(direction, item)) ==> ok
    {
      var dst := item.dst;
      if direction.Download? {
        ok := CreateDirAll(dst);
        return;
      }
      ok := Try(Stat(dst));
      if !ok {
        return;
      }
      if dst in dest {
        return dest[dst].Folder?;
      }
      ok := Try(MakeDir(dst));
      if ok {
        dest := dest[dst := Folder];
      }
    }

    /** One item of the run.  It goes on unless the item's last event was answered with a stop. */
    method OneItem(index: nat, item: TransferItem) returns (outcome: Outcome, go: bool)
      modifies this
      ensures old(requests) <= requests && old(delivered) <= delivered
      ensures Handled(Given(), requests, item, old(Now()), Now(), outcome)
      ensures Reported(Given(), delivered, index, old(Now()), Now(), outcome)
      ensures if go then Unbroken(weather.stop, |old(delivered)|, |delivered|)
              else BrokeAt(weather.stop, |old(delivered)|, |delivered|)
      ensures outcome.Unreached? ==> !go
      ensures Progresses()
    {
      hide ProgressGrows;
      if item.skip.Some? {
        NoProgress(delivered, doneBytes, ItemSkipped(index));
        var stop := OnEvent(ItemSkipped(index));
        return Skipped, !stop;
      }
      if item.isDir {
        var ok := EnsureDir(item);
        PartIsNotAbove(item.dst);
        if ok {
          return Made, true;
        }
        NoProgress(delivered, doneBytes, ItemFailed(index));
        var stop := OnEvent(ItemFailed(index));
        return NotMade, !stop;
      }
      outcome, go := OneFile(index, item);
    }

    method OneFile(index: nat, item: TransferItem) returns (outcome: Outcome, go: bool)
      requires !item.isDir && item.skip.None?
      modifies this
      ensures old(requests) <= requests && old(delivered) <= delivered
      ensures Handled(Given(), requests, item, old(Now()), Now(), outcome)
      ensures Reported(Given(), delivered, index, old(Now()), Now(), outcome)
      ensures if go then Unbroken(weather.stop, |old(delivered)|, |delivered|)
              else BrokeAt(weather.stop, |old(delivered)|, |delivered|)
      ensures outcome.Unreached? ==> !go
      ensures Progresses()
    {
      hide Handled, Reported, ProgressGrows;
      ghost var was, start := delivered, Now();
      NoProgress(delivered, doneBytes, ItemStarted(index));
      var stop := OnEvent(ItemStarted(index));
      if stop {
        NothingHandled(Given(), requests, item, start, Now());
        StartIsReported(Given(), was, index, start, Now());
        return Unreached, false;
      }
      ghost var started := Now();
      outcome := CopyFile(item);
      HandledIgnoresEvents(Given(), requests, item, started, Now(), start, outcome);
      ghost var copied := delivered;
      if outcome.Aborted? && !outcome.failed {
        CopyIsReported(Given(), was, copied, delivered, index, start, Now(), outcome);
        return outcome, false;
      }
      var ending := if outcome.Copied? then ItemFinished(index) else ItemFailed(index);
      ghost var stage := Now();
      NoProgress(delivered, doneBytes, ending);
      stop := OnEvent(ending);
      CopyIsReported(Given(), was, copied, delivered, index, start, Now(), outcome);
      HandledIgnoresTheLastEvent(Given(), requests, item, start, stage, Now(), outcome);
      go := !stop;
    }

    /** Moves the bytes of a plan. */
    method Run(items: seq<TransferItem>) returns (summary: Summary, ghost j: Journal)
      modifies this
      ensures j.c == Given() && j.items == items && j.requests == requests && j.delivered == delivered
      ensures Ran(j) && j.stages[0] == old(Now()) && j.stages[|items|] == Now()
      ensures summary.(cancelled := false) == Tally(items, j.outcomes)
      ensures if summary.cancelled then CancelledAtTheEnd(j) else NotCancelled(j)
      ensures Progresses()
    {
      hide Handled, Tally, Reported, ProgressGrows;
      NothingYet();
      summary := Summary(0, 0, 0, 0, false);
      j := Journal(Given(), [], [Now()], [], requests, delivered);
      var index := 0;
      while index < |items|
        invariant index <= |items| && j.items == items[..index]
        invariant j.c == Given() && j.requests == requests && j.delivered == delivered
        invariant Ran(j) && j.stages[0] == old(Now()) && j.stages[index] == Now()
        invariant summary == Tally(j.items, j.outcomes)
        invariant NotCancelled(j) && !summary.cancelled
        invariant Progresses()
      {
        var item := items[index];
        ghost var was := j;
        var outcome, go := OneItem(index, item);
        EventsGoUp(was, 0, index);
        j := Grown(was, item, Now(), outcome, requests, delivered);
        RanMore(was, item, Now(), outcome, requests, delivered);
        TallyMore(was.items, was.outcomes, item, outcome);
        assert items[..index + 1] == items[..index] + [item];
        summary := Count(summary, item, outcome);
        index := index + 1;
        if !go {
          j := TheRestIsUnreached(j, items, index - 1);
          summary := summary.(cancelled := true);
          return;
        }
      }
      assert items[..index] == items;
    }
  }

  function Count(t: Summary, item: TransferItem, outcome: Outcome): Summary {
    match outcome
    case Copied => t.(files := t.files + 1, bytes := t.bytes + item.size)
    case Skipped => t.(skipped := t.skipped + 1)
    case NotMade => t.(failures := t.failures + 1)
    case NotRenamed(_, _) => t.(failures := t.failures + 1)
    case Aborted(failed, _) => if failed then t.(failures := t.failures + 1) else t
    case _ => t
  }

  /** A run, written down: the stages between its items, what became of each, and both logs. */
  datatype Journal = Journal(
    c: Setup, items: seq<TransferItem>, stages: seq<Stage>, outcomes: seq<Outcome>,
    requests: seq<Request>, delivered: seq<Notice>)

  ghost predicate Ran(j: Journal) {
    && |j.outcomes| == |j.items| && |j.stages| == |j.items| + 1
    && j.stages[|j.items|].requests <= |j.requests| && j.stages[|j.items|].events == |j.delivered|
    && forall i :: 0 <= i < |j.items| ==> RanAt(j, i)
  }

  ghost predicate RanAt(j: Journal, i: nat)
    requires i < |j.items| == |j.outcomes| && |j.stages| == |j.items| + 1
  {
    && Handled(j.c, j.requests, j.items[i], j.stages[i], j.stages[i + 1], j.outcomes[i])
    && Reported(j.c, j.delivered, i, j.stages[i], j.stages[i + 1], j.outcomes[i])
  }

  function First(j: Journal): Files
    requires |j.stages| == |j.items| + 1
  {
    j.stages[0].files
  }

  function Final(j: Journal): Files
    requires |j.stages| == |j.items| + 1
  {
    j.stages[|j.items|].files
  }

  /** Every item was reached, and no event was answered with a stop. */
  ghost predicate NotCancelled(j: Journal)
    requires Ran(j)
  {
    && Unbroken(j.c.weather.stop, j.stages[0].events, |j.delivered|)
    && Unreached !in j.outcomes
  }

  /** The last event of the run was answered with a stop, and no other.  It belongs to an item: the
      items before it were reached, those after it were not, and nothing was asked or reported, and
      nothing changed, after it. */
  ghost predicate CancelledAtTheEnd(j: Journal)
    requires Ran(j)
  {
    && BrokeAt(j.c.weather.stop, j.stages[0].events, |j.delivered|)
    && exists last: nat :: last < |j.items| && LastReached(j, last)
  }

  ghost predicate LastReached(j: Journal, last: nat)
    requires Ran(j) && last < |j.items|
  {
    && j.stages[last].events < |j.delivered|
    && (forall i :: 0 <= i < last ==> !j.outcomes[i].Unreached?)
    && (forall i :: last < i < |j.items| ==> j.outcomes[i].Unreached?)
    && (forall i :: last < i <= |j.items| ==> j.stages[i] == j.stages[last + 1])
  }

  lemma TallyMore(items: seq<TransferItem>, outcomes: seq<Outcome>, item: TransferItem, outcome: Outcome)
    requires |items| == |outcomes|
    ensures Tally(items + [item], outcomes + [outcome]) == Count(Tally(items, outcomes), item, outcome)
  {
    assert (items + [item])[..|items|] == items && (outcomes + [outcome])[..|items|] == outcomes;
  }

  ghost function Grown(j: Journal, item: TransferItem, after: Stage, outcome: Outcome, requests: seq<Request>,
                       delivered: seq<Notice>): Journal
  {
    Journal(j.c, j.items + [item], j.stages + [after], j.outcomes + [outcome], requests, delivered)
  }

  lemma RanMore(j: Journal, item: TransferItem, after: Stage, outcome: Outcome, requests: seq<Request>,
                delivered: seq<Notice>)
    requires Ran(j) && j.requests <= requests && j.delivered <= delivered
    requires Handled(j.c, requests, item, j.stages[|j.items|], after, outcome)
    requires Reported(j.c, delivered, |j.items|, j.stages[|j.items|], after, outcome)
    requires after.requests <= |requests| && after.events == |delivered|
    ensures Ran(Grown(j, item, after, outcome, requests, delivered))
  {
    hide Handled, Reported;
    var j' := Grown(j, item, after, outcome, requests, delivered);
    forall i | 0 <= i < |j'.items| ensures RanAt(j', i) {
      if i < |j.items| {
        assert RanAt(j, i);
        LogsGrow(j, i, requests, delivered);
      }
    }
  }

  /** What was true of an item stays true as the logs grow. */
  lemma LogsGrow(j: Journal, i: nat, requests: seq<Request>, delivered: seq<Notice>)
    requires |j.outcomes| == |j.items| && |j.stages| == |j.items| + 1 && i < |j.items| && RanAt(j, i)
    requires j.requests <= requests && j.delivered <= delivered
    ensures Handled(j.c, requests, j.items[i], j.stages[i], j.stages[i + 1], j.outcomes[i])
    ensures Reported(j.c, delivered, i, j.stages[i], j.stages[i + 1], j.outcomes[i])
  {
    var from, until := j.stages[i].events, j.stages[i + 1].events;
    assert delivered[from..until] == j.delivered[from..until];
  }

  lemma NothingYet()
    ensures Tally([], []) == Summary(0, 0, 0, 0, false)
  {
  }

  /** After a cancellation nothing happens to what was not reached. */
  lemma {:induction false} TheRestIsUnreached(j: Journal, items: seq<TransferItem>, last: nat) returns (j': Journal)
    requires Ran(j) && last < |j.items| <= |items| && j.items == items[..|j.items|]
    requires BrokeAt(j.c.weather.stop, j.stages[0].events, |j.delivered|) && LastReached(j, last)
    ensures j'.items == items && Ran(j') && CancelledAtTheEnd(j')
    ensures j'.c == j.c && j'.requests == j.requests && j'.delivered == j.delivered
    ensures j'.stages[0] == j.stages[0] && j'.stages[|items|] == j.stages[|j.items|]
    ensures Tally(items, j'.outcomes) == Tally(j.items, j.outcomes)
    decreases |items| - |j.items|
  {
    var n := |j.items|;
    if n == |items| {
      assert items[..n] == items;
      return j;
    }
    var same := j.stages[n];
    UnreachedIsNothing(j, items[n]);
    RanMore(j, items[n], same, Unreached, j.requests, j.delivered);
    TallyMore(j.items, j.outcomes, items[n], Unreached);
    assert items[..n + 1] == items[..n] + [items[n]];
    var more := Grown(j, items[n], same, Unreached, j.requests, j.delivered);
    assert LastReached(more, last);
    j' := TheRestIsUnreached(more, items, last);
  }

  lemma UnreachedIsNothing(j: Journal, item: TransferItem)
    requires Ran(j)
    ensures var same := j.stages[|j.items|];
            && Handled(j.c, j.requests, item, same, same, Unreached)
            && Reported(j.c, j.delivered, |j.items|, same, same, Unreached)
  {
  }

  // ---------------------------------------------------------------- whole runs

  /** No two items share a destination, none is another's temporary file, and no file stands, or is
      written, where a directory of the plan needs a directory. */
  ghost predicate Distinct(items: seq<TransferItem>) {
    forall i, j :: 0 <= i < |items| && 0 <= j < |items| && i != j ==> Apart(items[i], items[j])
  }

  ghost predicate Apart(a: TransferItem, b: TransferItem) {
    && a.dst != b.dst && a.dst != Part(b.dst)
    && (!a.isDir && b.isDir ==> a.dst !in Ancestors(b.dst) && Part(a.dst) !in Ancestors(b.dst))
  }

  /** What the walk plans from well-named directories meets the condition. */
  lemma PlansAreDistinct(direction: Direction, base: string, existsAt: string -> bool, sources: seq<Selected>)
    requires WellNamedIn(AsEntries(sources)) && NoPartNamesIn(AsEntries(sources))
    ensures Distinct(PlanOf(direction, base, existsAt, sources))
  {
    hide PlanOf, FoundInAll, WellNamedIn, NoPartNamesIn, AsEntries, Ancestors;
    var items := PlanOf(direction, base, existsAt, sources);
    forall i, j | 0 <= i < |items| && 0 <= j < |items| && i != j ensures Apart(items[i], items[j]) {
      DestinationsAreDistinct(direction, base, existsAt, sources, if i < j then i else j, if i < j then j else i);
      NoDestinationIsAPart(direction, base, existsAt, sources, i, j);
      if !items[i].isDir {
        NoFileIsAboveADirectory(direction, base, existsAt, sources, i, j);
      }
    }
  }

  lemma {:induction false} OthersLeaveAlone(j: Journal, from: nat, until: nat, p: string)
    requires Ran(j) && from <= until <= |j.items|
    requires forall k :: from <= k < until ==> p !in Touches(j.c.direction, j.items[k])
    ensures SameAt(j.stages[from].files, j.stages[until].files, p)
    decreases until
  {
    if from < until {
      var last := until - 1;
      assert RanAt(j, last);
      assert p !in Touches(j.c.direction, j.items[last]);
      OthersLeaveAlone(j, from, last, p);
    }
  }

  predicate WritesFile(item: TransferItem, p: string) {
    item.skip.None? && !item.isDir && (p == item.dst || p == Part(item.dst))
  }

  /** Where no file is written, directories may appear but nothing else changes. */
  lemma {:induction false} FoldersStay(j: Journal, from: nat, until: nat, p: string)
    requires Ran(j) && from <= until <= |j.items|
    requires forall k :: from <= k < until ==> !WritesFile(j.items[k], p)
    ensures SameOrNewFolder(j.stages[from].files, j.stages[until].files, p)
    decreases until
  {
    if from < until {
      var last := until - 1;
      assert RanAt(j, last);
      assert !WritesFile(j.items[last], p);
      assert SameOrNewFolder(j.stages[last].files, j.stages[until].files, p);
      hide Handled;
      FoldersStay(j, from, last, p);
    }
  }

  /** A path that is neither a planned destination nor its temporary name keeps what it holds.  Where
      it held nothing a directory may appear, above a planned local one. */
  lemma UnplannedPathsAreUntouched(j: Journal, p: string)
    requires Ran(j)
    requires forall k :: 0 <= k < |j.items| ==> p != j.items[k].dst && p != Part(j.items[k].dst)
    ensures SameOrNewFolder(First(j), Final(j), p)
    ensures !SameAt(First(j), Final(j), p) ==>
              && j.c.direction.Download?
              && exists k ::
                   0 <= k < |j.items| && j.items[k].isDir && p in Ancestors(j.items[k].dst)
  {
    FoldersStay(j, 0, |j.items|, p);
    if forall k :: 0 <= k < |j.items| ==> p !in Touches(j.c.direction, j.items[k]) {
      OthersLeaveAlone(j, 0, |j.items|, p);
    }
  }

  /** A file's paths belong to its item alone: its own step decides what becomes of them. */
  lemma OwnStepDecides(j: Journal, i: nat, p: string)
    requires Ran(j) && Distinct(j.items) && i < |j.items|
    requires !j.items[i].isDir && (p == j.items[i].dst || p == Part(j.items[i].dst))
    ensures SameAt(First(j), j.stages[i].files, p) && SameAt(j.stages[i + 1].files, Final(j), p)
  {
    hide Ran, Ancestors;
    forall k | 0 <= k < |j.items| && k != i ensures p !in Touches(j.c.direction, j.items[k]) {
      assert Apart(j.items[i], j.items[k]) && Apart(j.items[k], j.items[i]);
      PartIsInjective(j.items[i].dst, j.items[k].dst);
    }
    OthersLeaveAlone(j, 0, i, p);
    OthersLeaveAlone(j, i + 1, |j.items|, p);
  }

  lemma PartIsInjective(a: string, b: string)
    ensures Part(a) == Part(b) ==> a == b
  {
    assert a == Part(a)[..|Part(a)| - 5] && b == Part(b)[..|Part(b)| - 5];
  }

  /** None of the requests to remove or rename a file, from one number to another, fails. */
  ghost predicate RemovalsAndRenamesWork(j: Journal, from: nat, until: nat) {
    forall t: nat :: from <= t < until && t < |j.requests| && (j.requests[t].Remove? || j.requests[t].Rename?) ==>
      !j.c.weather.fault(t)
  }

  /** For every fault, short read and cancellation a file's destination holds the whole source, if it
      was copied, or what it held before, unless an upload had removed that and could not rename. */
  lemma FilesAreOldOrWhole(j: Journal, i: nat)
    requires Ran(j) && Distinct(j.items) && Honest(j.c.weather) && i < |j.items| && !j.items[i].isDir
    ensures var item, outcome := j.items[i], j.outcomes[i];
      if outcome.Copied? then
        item.src in j.c.source && item.dst in Final(j) && Final(j)[item.dst] == Content(j.c.source[item.src])
      else if outcome.NotRenamed? && OldIsRemoved(j.c, item, First(j), outcome.oldRemoval) then
        item.dst !in Final(j)
      else SameAt(First(j), Final(j), item.dst)
  {
    assert RanAt(j, i);
    OwnStepDecides(j, i, j.items[i].dst);
  }

  /** And there is nothing under the temporary name, unless a removal or rename made for this very
      file failed: opens, reads, writes, flushes and closes may fail as they like. */
  lemma DestinationsAreWholeOrUntouched(j: Journal, i: nat)
    requires Ran(j) && Distinct(j.items) && Honest(j.c.weather) && i < |j.items| && !j.items[i].isDir
    requires Part(j.items[i].dst) !in First(j) && Replaceable(j.c.direction, j.items[i], First(j))
    requires RemovalsAndRenamesWork(j, j.stages[i].requests, j.stages[i + 1].requests)
    ensures Part(j.items[i].dst) !in Final(j)
    ensures SameAt(First(j), Final(j), j.items[i].dst) || IsCopied(j, i)
    ensures j.outcomes[i].Copied? ==> IsCopied(j, i)
  {
    var item := j.items[i];
    assert RanAt(j, i);
    FilesAreOldOrWhole(j, i);
    OwnStepDecides(j, i, item.dst);
    OwnStepDecides(j, i, Part(item.dst));
  }

  /** The destination holds the whole source. */
  ghost predicate IsCopied(j: Journal, i: nat)
    requires Ran(j) && i < |j.items|
  {
    var item := j.items[i];
    item.src in j.c.source && item.dst in Final(j) && Final(j)[item.dst] == Content(j.c.source[item.src])
  }

  /** A run in which no request to remove or rename fails, whatever else does and wherever it is
      cancelled, leaves every file's destination old or whole and no temporary file. */
  lemma RunsCleanUpAfterThemselves(j: Journal)
    requires Ran(j) && Distinct(j.items) && Honest(j.c.weather) && RemovalsAndRenamesWork(j, 0, |j.requests|)
    requires forall i :: 0 <= i < |j.items| && !j.items[i].isDir ==>
               Part(j.items[i].dst) !in First(j) && Replaceable(j.c.direction, j.items[i], First(j))
    ensures forall i :: 0 <= i < |j.items| && !j.items[i].isDir ==>
              && Part(j.items[i].dst) !in Final(j)
              && (SameAt(First(j), Final(j), j.items[i].dst) || IsCopied(j, i))
  {
    hide RanAt, Distinct;
    forall i | 0 <= i < |j.items| && !j.items[i].isDir
      ensures Part(j.items[i].dst) !in Final(j)
      ensures SameAt(First(j), Final(j), j.items[i].dst) || IsCopied(j, i)
    {
      DestinationsAreWholeOrUntouched(j, i);
    }
  }

  /** In particular a run in which no request fails at all. */
  lemma FaultlessRunsLeaveNothingBehind(j: Journal)
    requires Ran(j) && Distinct(j.items) && Honest(j.c.weather) && Faultless(j.c.weather)
    requires forall i :: 0 <= i < |j.items| && !j.items[i].isDir ==>
               Part(j.items[i].dst) !in First(j) && Replaceable(j.c.direction, j.items[i], First(j))
    ensures forall i :: 0 <= i < |j.items| && !j.items[i].isDir ==>
              && Part(j.items[i].dst) !in Final(j)
              && (SameAt(First(j), Final(j), j.items[i].dst) || IsCopied(j, i))
  {
    hide RanAt, Distinct;
    RunsCleanUpAfterThemselves(j);
  }

  /** When the final rename fails the whole source waits under the temporary name. */
  lemma AFailedRenameKeepsTheData(j: Journal, i: nat)
    requires Ran(j) && Distinct(j.items) && Honest(j.c.weather)
    requires i < |j.items| && j.outcomes[i].NotRenamed?
    ensures var part, final := Part(j.items[i].dst), Final(j);
      j.items[i].src in j.c.source && part in final && final[part] == Content(j.c.source[j.items[i].src])
  {
    var item := j.items[i];
    assert RanAt(j, i);
    OwnStepDecides(j, i, Part(item.dst));
  }

  /** Exactly when the file that was there is lost: an upload told to replace it had removed it, and
      then the final rename failed. */
  lemma TheOldFileIsLostExactlyWhen(j: Journal, i: nat)
    requires Ran(j) && Distinct(j.items)
    requires i < |j.items| && !j.items[i].isDir && j.items[i].dst in First(j)
    ensures j.items[i].dst !in Final(j) <==>
              j.outcomes[i].NotRenamed? && OldIsRemoved(j.c, j.items[i], First(j), j.outcomes[i].oldRemoval)
    ensures j.items[i].dst !in Final(j) ==> j.c.weather.fault(j.outcomes[i].rename)
  {
    var item := j.items[i];
    assert RanAt(j, i);
    OwnStepDecides(j, i, item.dst);
  }

  /** It happens: one byte is uploaded over an existing file, every request works but the rename,
      and neither the old file nor the new one is there under the name. */
  method AnOverwriteThatLosesTheFile() returns (before: Files, after: Files)
    ensures before == map["f" := Content([1])]
    ensures "f" !in after && Part("f") in after && after[Part("f")] == Content([2])
  {
    before := map["f" := Content([1])];
    var weather := Weather((t: nat) => t == 7, _ => None, _ => 1, _ => false);
    var engine := new Engine(Upload, map["s" := [2]], weather, before);
    var outcome := engine.CopyFile(TransferItem("s", "f", false, 1, true, None));
    assert weather.short(0) > 0;
    after := engine.dest;
  }

  /** A directory that was made is there at the end; one that was not may still be made for one
      inside it, and is otherwise as it was. */
  lemma DirectoriesAreMadeOrUntouched(j: Journal, i: nat)
    requires Ran(j) && Distinct(j.items)
    requires i < |j.items| && j.items[i].isDir
    ensures SameOrNewFolder(First(j), Final(j), j.items[i].dst)
    ensures j.outcomes[i].Made? && j.items[i].dst != [] ==>
              j.items[i].dst in Final(j) && Final(j)[j.items[i].dst].Folder?
  {
    var item := j.items[i];
    assert RanAt(j, i);
    hide Ran, Handled;
    forall k | 0 <= k < |j.items| ensures !WritesFile(j.items[k], item.dst) {
      assert k != i ==> Apart(j.items[i], j.items[k]);
    }
    FoldersStay(j, 0, |j.items|, item.dst);
    FoldersStay(j, i + 1, |j.items|, item.dst);
  }

  lemma {:induction false} EventsGoUp(j: Journal, from: nat, until: nat)
    requires Ran(j) && from <= until <= |j.items|
    ensures j.stages[from].events <= j.stages[until].events
    decreases until
  {
    if from < until {
      assert RanAt(j, until - 1);
      EventsGoUp(j, from, until - 1);
    }
  }

  /** With nothing in the way, no fault and no cancellation, every item of the plan succeeds. */
  lemma CalmRunsSucceed(j: Journal, i: nat)
    requires Ran(j) && Distinct(j.items) && Faultless(j.c.weather) && NotCancelled(j)
    requires i < |j.items| && Feasible(j.c, j.items[i], First(j))
    ensures Succeeded(j.outcomes[i])
  {
    var item := j.items[i];
    assert RanAt(j, i);
    assert j.outcomes[i] in j.outcomes;
    EventsGoUp(j, 0, i);
    EventsGoUp(j, i + 1, |j.items|);
    FeasibleStays(j, i);
    hide Feasible, Ran;
    var e := j.stages[i + 1].events - 1;
    assert 0 <= e && j.stages[0].events <= e ==> !j.c.weather.stop(e);
  }

  /** What the items before it do does not get in the way of an item. */
  lemma FeasibleStays(j: Journal, i: nat)
    requires Ran(j) && Distinct(j.items) && i < |j.items| && Feasible(j.c, j.items[i], First(j))
    ensures Feasible(j.c, j.items[i], j.stages[i].files)
  {
    var item := j.items[i];
    hide Ran;
    if item.isDir {
      forall p | p in DirectoriesFor(j.c.direction, item) ensures FolderOrNothing(j.stages[i].files, p) {
        forall k | 0 <= k < i ensures !WritesFile(j.items[k], p) {
          assert Apart(j.items[i], j.items[k]) && Apart(j.items[k], j.items[i]);
        }
        FoldersStay(j, 0, i, p);
      }
    } else {
      OwnStepDecides(j, i, item.dst);
      OwnStepDecides(j, i, Part(item.dst));
    }
  }

  /** When every item succeeds, the summary is the plan: all its files, all its bytes, no failure. */
  lemma {:induction false} CompleteRunsMoveThePlan(items: seq<TransferItem>, outcomes: seq<Outcome>)
    requires |items| == |outcomes|
    requires forall i :: 0 <= i < |items| ==> Fits(items[i], outcomes[i]) && Succeeded(outcomes[i])
    ensures var t := Tally(items, outcomes);
      t.files == PlannedFiles(items) && t.bytes == PlannedBytes(items) && t.failures == 0
  {
    if items != [] {
      var n := |items| - 1;
      assert Fits(items[n], outcomes[n]);
      CompleteRunsMoveThePlan(items[..n], outcomes[..n]);
    }
  }

  /** The positions of the outcomes of one kind. */
  function Places(outcomes: seq<Outcome>, kind: Outcome -> bool): set<nat> {
    set i: nat | i < |outcomes| && kind(outcomes[i])
  }

  lemma PlacesSnoc(outcomes: seq<Outcome>, n: nat, kind: Outcome -> bool)
    requires |outcomes| == n + 1
    ensures |Places(outcomes, kind)| == |Places(outcomes[..n], kind)| + if kind(outcomes[n]) then 1 else 0
  {
    var before := Places(outcomes[..n], kind);
    assert n !in before;
    assert Places(outcomes, kind) == before + if kind(outcomes[n]) then {n} else {};
  }

  /** What the numbers of a summary count, whatever became of the items. */
  lemma {:induction false} WhatTheSummaryCounts(items: seq<TransferItem>, outcomes: seq<Outcome>)
    requires |items| == |outcomes|
    ensures var t := Tally(items, outcomes);
            && t.files == |Places(outcomes, (o: Outcome) => o.Copied?)|
            && t.skipped == |Places(outcomes, (o: Outcome) => o.Skipped?)|
            && t.failures == |Places(outcomes, Fails)|
            && t.bytes == PlannedBytes(Copies(items, outcomes))
  {
    hide Places;
    if items == [] {
      NoPlaces((o: Outcome) => o.Copied?);
      NoPlaces((o: Outcome) => o.Skipped?);
      NoPlaces(Fails);
    } else {
      var n := |items| - 1;
      WhatTheSummaryCounts(items[..n], outcomes[..n]);
      PlacesSnoc(outcomes, n, (o: Outcome) => o.Copied?);
      PlacesSnoc(outcomes, n, (o: Outcome) => o.Skipped?);
      PlacesSnoc(outcomes, n, Fails);
      var before := Copies(items[..n], outcomes[..n]);
      assert outcomes[n].Copied? ==> Copies(items, outcomes)[..|before|] == before;
      assert !outcomes[n].Copied? ==> Copies(items, outcomes) == before;
    }
  }

  lemma NoPlaces(kind: Outcome -> bool)
    ensures |Places([], kind)| == 0
  {
    assert Places([], kind) == {};
  }

  /** An item that could not be copied, made or renamed; a cancelled one is no failure. */
  predicate Fails(outcome: Outcome) {
    outcome.NotMade? || outcome.NotRenamed? || (outcome.Aborted? && outcome.failed)
  }

  /** The items that were copied, as plain files of their size. */
  function Copies(items: seq<TransferItem>, outcomes: seq<Outcome>): seq<TransferItem>
    requires |items| == |outcomes|
  {
    if items == [] then []
    else
      var n := |items| - 1;
      Copies(items[..n], outcomes[..n]) + if outcomes[n].Copied? then [items[n].(isDir := false, skip := None)] else []
  }
}
