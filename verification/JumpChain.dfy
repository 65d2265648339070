/**
 Resolving a chain of jump hosts (src/ssh/session.rs), and what deleting a server does to the
 chains of the others (src/app.rs).
 */
module JumpChain {
  import opened Wrappers

  const MAX_JUMPS: nat := 8

  datatype Endpoint = Endpoint(host: string, port: nat, username: string, auth: string, fingerprint: Option<string>)

  datatype RemoteRoute = RemoteRoute(bindAddr: string, bindPort: nat, destHost: string, destPort: nat)

  datatype ForwardKind = Local | Dynamic | Remote(route: RemoteRoute)

  datatype Forward = Forward(enabled: bool, kind: ForwardKind)

  datatype Server = Server(id: nat, name: string, endpoint: Endpoint, jumpHost: Option<nat>, forwards: seq<Forward>)

  /** The server the message names. */
  datatype JumpError = Loops(name: string) | Missing(name: string) | TooMany(name: string)

  datatype Target = Target(endpoint: Endpoint, jumps: seq<Endpoint>, jumpIds: seq<nat>, remoteRoutes: seq<RemoteRoute>)

  /** The routes of the enabled remote forwards, in their order. */
  function RemoteRoutes(forwards: seq<Forward>): (routes: seq<RemoteRoute>)
    ensures forall r :: r in routes <==> exists f :: f in forwards && f.enabled && f.kind == Remote(r)
    ensures |routes| <= |forwards|
  {
    if forwards == [] then []
    else
      var n := |forwards| - 1;
      var last := forwards[n];
      assert forall f :: f in forwards <==> f in forwards[..n] || f == last;
      RemoteRoutes(forwards[..n]) + if last.enabled && last.kind.Remote? then [last.kind.route] else []
  }

  /** Routes come in the order of their forwards, one for each that is enabled. */
  lemma {:induction false} RoutesInOrder(a: seq<Forward>, b: seq<Forward>)
    ensures RemoteRoutes(a + b) == RemoteRoutes(a) + RemoteRoutes(b)
  {
    hide RemoteRoutes;
    if b == [] {
      assert a + b == a;
      NoRoutes();
    } else {
      var n := |b| - 1;
      assert a + b == a + b[..n] + [b[n]];
      RoutesInOrder(a, b[..n]);
      OneRouteMore(a + b[..n], b[n]);
      OneRouteMore(b[..n], b[n]);
      assert b == b[..n] + [b[n]];
    }
  }

  lemma NoRoutes()
    ensures RemoteRoutes([]) == []
  {
  }

  lemma OneRouteMore(forwards: seq<Forward>, last: Forward)
    ensures RemoteRoutes(forwards + [last])
         == RemoteRoutes(forwards) + if last.enabled && last.kind.Remote? then [last.kind.route] else []
  {
    assert (forwards + [last])[..|forwards|] == forwards;
  }

  function Find(servers: seq<Server>, id: nat): (r: Option<Server>)
    ensures r.Some? ==> r.value.id == id && r.value in servers
    ensures r.None? ==> forall s :: s in servers ==> s.id != id
  {
    if servers == [] then None
    else if servers[0].id == id then Some(servers[0])
    else Find(servers[1..], id)
  }

  // ---------------------------------------------------------------- what a chain is

  /** `hops` are the servers met by following `jumpHost` from `at`, one after the other. */
  ghost predicate Follows(servers: seq<Server>, at: Server, hops: seq<Server>)
    decreases |hops|
  {
    hops != [] ==>
      && at.jumpHost.Some?
      && Find(servers, at.jumpHost.value) == Some(hops[0])
      && Follows(servers, hops[0], hops[1..])
  }

  function LastOf(at: Server, hops: seq<Server>): Server {
    if hops == [] then at else hops[|hops| - 1]
  }

  function Ids(hops: seq<Server>): (ids: seq<nat>)
    ensures |ids| == |hops| && forall i :: 0 <= i < |hops| ==> ids[i] == hops[i].id
  {
    seq(|hops|, i requires 0 <= i < |hops| => hops[i].id)
  }

  function Endpoints(hops: seq<Server>): (r: seq<Endpoint>)
    ensures |r| == |hops| && forall i :: 0 <= i < |hops| ==> r[i] == hops[i].endpoint
  {
    seq(|hops|, i requires 0 <= i < |hops| => hops[i].endpoint)
  }

  ghost predicate NoRepeats(ids: seq<nat>) {
    forall i, j :: 0 <= i < j < |ids| ==> ids[i] != ids[j]
  }

  /** Following the references ends at a directly reachable server after at most eight hops, none
      of them met twice and none of them the start. */
  ghost predicate Reaches(servers: seq<Server>, entry: Server, hops: seq<Server>) {
    && Follows(servers, entry, hops)
    && LastOf(entry, hops).jumpHost.None?
    && |hops| <= 8
    && NoRepeats([entry.id] + Ids(hops))
  }

  lemma {:induction false} FollowsOn(servers: seq<Server>, at: Server, hops: seq<Server>, next: Server)
    requires Follows(servers, at, hops)
    requires LastOf(at, hops).jumpHost.Some? && Find(servers, LastOf(at, hops).jumpHost.value) == Some(next)
    ensures Follows(servers, at, hops + [next])
    decreases |hops|
  {
    if hops == [] {
      assert [next][1..] == [];
      assert hops + [next] == [next];
    } else {
      assert (hops + [next])[1..] == hops[1..] + [next];
      FollowsOn(servers, hops[0], hops[1..], next);
    }
  }

  /** There is only one way to follow. */
  lemma {:induction false} OnlyOneWay(servers: seq<Server>, at: Server, a: seq<Server>, b: seq<Server>)
    requires Follows(servers, at, a) && Follows(servers, at, b) && |a| <= |b|
    ensures a == b[..|a|]
    ensures |a| < |b| ==> LastOf(at, a).jumpHost.Some? && Find(servers, LastOf(at, a).jumpHost.value) == Some(b[|a|])
    decreases |a|
  {
    if a != [] {
      OnlyOneWay(servers, a[0], a[1..], b[1..]);
    }
  }

  /** A chain that ends at a direct server goes no further. */
  lemma DirectIsTheEnd(servers: seq<Server>, entry: Server, hops: seq<Server>, other: seq<Server>)
    requires Follows(servers, entry, hops) && LastOf(entry, hops).jumpHost.None? && Follows(servers, entry, other)
    ensures |other| <= |hops|
  {
    if |other| > |hops| {
      OnlyOneWay(servers, entry, hops, other);
      assert false;
    }
  }

  function Reversed<T>(s: seq<T>): (r: seq<T>)
    ensures |r| == |s| && forall i :: 0 <= i < |s| ==> r[i] == s[|s| - 1 - i]
  {
    seq(|s|, i requires 0 <= i < |s| => s[|s| - 1 - i])
  }

  // ---------------------------------------------------------------- the walk

  /** Why a chain stops short after `hops`, in the order the reasons are looked for. */
  ghost predicate StopsAt(servers: seq<Server>, entry: Server, hops: seq<Server>, e: JumpError) {
    var at := LastOf(entry, hops);
    && Follows(servers, entry, hops) && NoRepeats([entry.id] + Ids(hops)) && |hops| <= 8
    && at.jumpHost.Some?
    && var next := at.jumpHost.value;
       if next in [entry.id] + Ids(hops) then e == Loops(entry.name)
       else if Find(servers, next).None? then e == Missing(at.name)
       else |hops| == 8 && e == TooMany(entry.name)
  }

  lemma GoingOnIsTooMuch(servers: seq<Server>, entry: Server, hops: seq<Server>, e: JumpError, other: seq<Server>)
    requires StopsAt(servers, entry, hops, e) && Follows(servers, entry, other) && |other| > |hops|
    ensures |other| > MAX_JUMPS || !NoRepeats([entry.id] + Ids(other))
  {
    OnlyOneWay(servers, entry, hops, other);
    var seen, ids := [entry.id] + Ids(hops), [entry.id] + Ids(other);
    var next := other[|hops|].id;
    assert ids[|hops| + 1] == next;
    if next in seen {
      var k :| 0 <= k < |seen| && seen[k] == next;
      assert ids[k] == next;
    }
  }

  /** A chain that stops short reaches nothing. */
  lemma StoppingShort(servers: seq<Server>, entry: Server, hops: seq<Server>, e: JumpError, other: seq<Server>)
    requires StopsAt(servers, entry, hops, e)
    ensures !Reaches(servers, entry, other)
  {
    if Follows(servers, entry, other) {
      if |other| <= |hops| {
        OnlyOneWay(servers, entry, other, hops);
      } else {
        GoingOnIsTooMuch(servers, entry, hops, e, other);
      }
    }
  }

  /** Resolves the chain behind `entry`. */
  method FromEntry(entry: Server, servers: seq<Server>) returns (r: Result<Target, JumpError>, ghost hops: seq<Server>)
    ensures match r
      case Ok(target) =>
        && Reaches(servers, entry, hops)
        && target.endpoint == entry.endpoint
        && target.jumps == Reversed(Endpoints(hops)) && target.jumpIds == Reversed(Ids(hops))
        && target.remoteRoutes == RemoteRoutes(entry.forwards)
      case Err(e) => StopsAt(servers, entry, hops, e)
  {
    var jumps: seq<Endpoint> := [];
    var jumpIds: seq<nat> := [];
    var seen := [entry.id];
    var at := entry;
    hops := [];
    while at.jumpHost.Some?
      invariant Follows(servers, entry, hops) && at == LastOf(entry, hops)
      invariant seen == [entry.id] + Ids(hops) && NoRepeats(seen) && |hops| <= MAX_JUMPS
      invariant jumps == Endpoints(hops) && jumpIds == Ids(hops)
      decreases MAX_JUMPS - |hops|
    {
      var nextId := at.jumpHost.value;
      if nextId in seen {
        return Err(Loops(entry.name)), hops;
      }
      var next := Find(servers, nextId);
      if next.None? {
        return Err(Missing(at.name)), hops;
      }
      if |jumps| == MAX_JUMPS {
        return Err(TooMany(entry.name)), hops;
      }
      FollowsOn(servers, entry, hops, next.value);
      seen := seen + [nextId];
      jumps := jumps + [next.value.endpoint];
      jumpIds := jumpIds + [nextId];
      at := next.value;
      hops := hops + [next.value];
      assert Ids(hops) == jumpIds && Endpoints(hops) == jumps;
    }
    return Ok(Target(entry.endpoint, Reversed(jumps), Reversed(jumpIds), RemoteRoutes(entry.forwards))), hops;
  }

  /** The chain a resolution returns is the only one there is. */
  lemma ResolutionIsUnique(servers: seq<Server>, entry: Server, a: seq<Server>, b: seq<Server>)
    requires Reaches(servers, entry, a) && Reaches(servers, entry, b)
    ensures a == b
  {
    DirectIsTheEnd(servers, entry, a, b);
    DirectIsTheEnd(servers, entry, b, a);
    OnlyOneWay(servers, entry, a, b);
    assert b[..|a|] == b;
  }

  /** Every chain either reaches a direct server or stops short for exactly one reason. */
  lemma OneReasonOnly(servers: seq<Server>, entry: Server, a: seq<Server>, d: JumpError, b: seq<Server>, e: JumpError)
    requires StopsAt(servers, entry, a, d) && StopsAt(servers, entry, b, e)
    ensures a == b && d == e
  {
    if |a| <= |b| {
      NoFurther(servers, entry, a, d, b, e);
    } else {
      NoFurther(servers, entry, b, e, a, d);
    }
  }

  lemma NoFurther(servers: seq<Server>, entry: Server, a: seq<Server>, d: JumpError, b: seq<Server>, e: JumpError)
    requires StopsAt(servers, entry, a, d) && StopsAt(servers, entry, b, e) && |a| <= |b|
    ensures a == b && d == e
  {
    OnlyOneWay(servers, entry, a, b);
    if |a| < |b| {
      GoingOnIsTooMuch(servers, entry, a, d, b);
      assert false;
    }
    assert b[..|a|] == b;
  }

  // ---------------------------------------------------------------- deleting a server

  function Cleared(s: Server, target: nat): Server {
    if s.jumpHost == Some(target) then s.(jumpHost := None) else s
  }

  function Retained(servers: seq<Server>, target: nat): seq<Server> {
    if servers == [] then []
    else (if servers[0].id != target then [servers[0]] else []) + Retained(servers[1..], target)
  }

  function AllCleared(servers: seq<Server>, target: nat): (r: seq<Server>)
    ensures |r| == |servers|
  {
    seq(|servers|, i requires 0 <= i < |servers| => Cleared(servers[i], target))
  }

  lemma {:induction false} RetainedConcat(a: seq<Server>, b: seq<Server>, target: nat)
    ensures Retained(a + b, target) == Retained(a, target) + Retained(b, target)
  {
    if a == [] {
      assert a + b == b;
    } else {
      assert (a + b)[1..] == a[1..] + b;
      RetainedConcat(a[1..], b, target);
    }
  }

  /** The servers left are those with another id, each where it stood among them, and nothing of them
      is changed but a reference to the deleted one. */
  ghost predicate Deleted(servers: seq<Server>, target: nat, left: seq<Server>, places: seq<nat>) {
    && |places| == |left|
    && (forall i, j :: 0 <= i < j < |places| ==> places[i] < places[j])
    && (forall i :: 0 <= i < |servers| ==> (servers[i].id != target <==> i in places))
    && (forall k :: 0 <= k < |places| ==> places[k] < |servers|)
    && forall k :: 0 <= k < |left| ==>
         var was := servers[places[k]];
         left[k] == Server(was.id, was.name, was.endpoint, if was.jumpHost == Some(target) then None else was.jumpHost,
                           was.forwards)
  }

  /** Deleting leaves exactly the others, and no trace of the deleted server. */
  lemma WhatDeletingLeaves(servers: seq<Server>, target: nat) returns (places: seq<nat>)
    ensures var left := AllCleared(Retained(servers, target), target);
            && Deleted(servers, target, left, places)
            && (forall s :: s in left ==> s.id != target && s.jumpHost != Some(target))
            && Find(left, target).None?
  {
    places := RetainedPlaces(servers, target);
  }

  lemma {:induction false} RetainedPlaces(servers: seq<Server>, target: nat) returns (places: seq<nat>)
    ensures var kept := Retained(servers, target);
            && |places| == |kept|
            && (forall i, j :: 0 <= i < j < |places| ==> places[i] < places[j])
            && (forall i :: 0 <= i < |servers| ==> (servers[i].id != target <==> i in places))
            && (forall k :: 0 <= k < |places| ==> places[k] < |servers| && kept[k] == servers[places[k]])
  {
    if servers == [] {
      return [];
    }
    var n := |servers| - 1;
    var before := RetainedPlaces(servers[..n], target);
    assert servers == servers[..n] + [servers[n]];
    RetainedConcat(servers[..n], [servers[n]], target);
    assert [servers[n]][1..] == [];
    places := before + if servers[n].id != target then [n] else [];
  }

  method ConfirmDelete(servers: seq<Server>, target: nat) returns (left: seq<Server>)
    ensures left == AllCleared(Retained(servers, target), target)
    ensures exists places :: Deleted(servers, target, left, places)
    ensures forall s :: s in left ==> s.id != target && s.jumpHost != Some(target)
  {
    hide Deleted;
    ghost var places := WhatDeletingLeaves(servers, target);
    left := Others(servers, target);
    left := ClearReferences(left, target);
  }

  method Others(servers: seq<Server>, target: nat) returns (left: seq<Server>)
    ensures left == Retained(servers, target)
  {
    left := [];
    for i := 0 to |servers|
      invariant left == Retained(servers[..i], target)
    {
      RetainedConcat(servers[..i], [servers[i]], target);
      assert servers[..i + 1] == servers[..i] + [servers[i]];
      assert [servers[i]][1..] == [];
      if servers[i].id != target {
        left := left + [servers[i]];
      }
    }
    assert servers[..|servers|] == servers;
  }

  method ClearReferences(kept: seq<Server>, target: nat) returns (left: seq<Server>)
    ensures left == AllCleared(kept, target)
  {
    left := kept;
    for i := 0 to |left|
      invariant |left| == |kept|
      invariant forall k :: 0 <= k < |kept| ==> left[k] == if k < i then Cleared(kept[k], target) else kept[k]
    {
      if left[i].jumpHost == Some(target) {
        left := left[i := left[i].(jumpHost := None)];
      }
    }
  }

  lemma {:induction false} FindAfterDeleting(servers: seq<Server>, target: nat, id: nat)
    requires id != target
    ensures Find(AllCleared(Retained(servers, target), target), id)
         == if Find(servers, id).Some? then Some(Cleared(Find(servers, id).value, target)) else None
  {
    if servers != [] {
      FindAfterDeleting(servers[1..], target, id);
      var rest := AllCleared(Retained(servers[1..], target), target);
      if servers[0].id != target {
        assert AllCleared(Retained(servers, target), target) == [Cleared(servers[0], target)] + rest;
        assert ([Cleared(servers[0], target)] + rest)[1..] == rest;
      } else {
        assert AllCleared(Retained(servers, target), target) == rest;
      }
    }
  }

  /** A chain up to where the deleted server was. */
  function Cut(hops: seq<Server>, target: nat): (r: seq<Server>)
    ensures |r| <= |hops|
  {
    if hops == [] || hops[0].id == target then [] else [Cleared(hops[0], target)] + Cut(hops[1..], target)
  }

  lemma {:induction false} CutIsAPrefix(hops: seq<Server>, target: nat)
    ensures Ids(Cut(hops, target)) <= Ids(hops) && target !in Ids(Cut(hops, target))
    ensures target !in Ids(hops) ==> |Cut(hops, target)| == |hops|
  {
    if hops != [] && hops[0].id != target {
      CutIsAPrefix(hops[1..], target);
      assert Ids(Cut(hops, target)) == [hops[0].id] + Ids(Cut(hops[1..], target));
      assert Ids(hops) == [hops[0].id] + Ids(hops[1..]);
    } else if hops != [] {
      assert Ids(hops)[0] == target;
    }
  }

  lemma {:induction false} CutFollows(servers: seq<Server>, entry: Server, hops: seq<Server>, target: nat)
    requires Follows(servers, entry, hops) && LastOf(entry, hops).jumpHost.None? && entry.id != target
    ensures Follows(AllCleared(Retained(servers, target), target), Cleared(entry, target), Cut(hops, target))
    ensures LastOf(Cleared(entry, target), Cut(hops, target)).jumpHost.None?
    decreases |hops|
  {
    if hops != [] && hops[0].id != target {
      CutFollows(servers, hops[0], hops[1..], target);
      FindAfterDeleting(servers, target, hops[0].id);
      hide AllCleared, Retained;
      assert Cut(hops, target)[1..] == Cut(hops[1..], target);
    }
  }

  /** A server that could be resolved before a deletion can be resolved after it: its chain is the
      old one, cut where the deleted server was. */
  lemma DeletingKeepsTheOthersReachable(servers: seq<Server>, entry: Server, hops: seq<Server>, target: nat)
    requires Reaches(servers, entry, hops) && entry.id != target
    ensures Reaches(AllCleared(Retained(servers, target), target), Cleared(entry, target), Cut(hops, target))
    ensures target !in Ids(hops) ==> |Cut(hops, target)| == |hops|
  {
    hide AllCleared, Retained, Follows, Cut, LastOf;
    CutFollows(servers, entry, hops, target);
    CutIsAPrefix(hops, target);
    PrefixHasNoRepeats([entry.id] + Ids(hops), [entry.id] + Ids(Cut(hops, target)));
  }

  lemma PrefixHasNoRepeats(ids: seq<nat>, shorter: seq<nat>)
    requires NoRepeats(ids) && shorter <= ids
    ensures NoRepeats(shorter)
  {
  }
}
