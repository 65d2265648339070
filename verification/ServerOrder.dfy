/**
 The two orderings of the server list: the command line's comparator (src/cli/list.rs) and the
 menu's sort keys (src/tui/main_menu.rs).

 Lowercasing is a parameter; nothing depends on what it does.
 */
module ServerOrder {
  import opened Wrappers
  import opened StableSort

  datatype ServerSort = Name | Tag | LastConnected

  datatype ServerEntry = ServerEntry(
    id: nat, name: string, host: string, port: nat, username: string, tags: seq<string>, lastConnected: Option<nat>)

  datatype Ordering = Less | Equal | Greater

  function Flip(c: Ordering): Ordering {
    match c
    case Less => Greater
    case Equal => Equal
    case Greater => Less
  }

  function Then(c: Ordering, d: Ordering): Ordering {
    if c.Equal? then d else c
  }

  function CmpNat(a: nat, b: nat): Ordering {
    if a < b then Less else if a == b then Equal else Greater
  }

  /** `false` before `true`. */
  function CmpBool(a: bool, b: bool): Ordering {
    if a == b then Equal else if b then Less else Greater
  }

  function CmpString(a: string, b: string): Ordering {
    if a == [] && b == [] then Equal
    else if a == [] then Less
    else if b == [] then Greater
    else if a[0] < b[0] then Less
    else if b[0] < a[0] then Greater
    else CmpString(a[1..], b[1..])
  }

  /** `None` before anything. */
  function CmpOptional<T>(cmp: (T, T) -> Ordering, a: Option<T>, b: Option<T>): Ordering {
    if a.None? && b.None? then Equal
    else if a.None? then Less
    else if b.None? then Greater
    else cmp(a.value, b.value)
  }

  // ---------------------------------------------------------------- the command line

  function FirstTag(lower: string -> string, e: ServerEntry): Option<string> {
    if e.tags == [] then None else Some(lower(e.tags[0]))
  }

  function CliCompare(lower: string -> string, sort: ServerSort, a: ServerEntry, b: ServerEntry): Ordering {
    match sort
    case Name => CmpString(lower(a.name), lower(b.name))
    case Tag =>
      Then(
        Then(
          CmpBool(FirstTag(lower, a).None?, FirstTag(lower, b).None?),
          CmpOptional(CmpString, FirstTag(lower, a), FirstTag(lower, b))),
        CmpString(lower(a.name), lower(b.name)))
    case LastConnected =>
      Then(CmpOptional(CmpNat, b.lastConnected, a.lastConnected), CmpString(lower(a.name), lower(b.name)))
  }

  // ---------------------------------------------------------------- the menu

  datatype Key = NameKey(name: string) | TagKey(none: bool, tag: string, name: string)
      | RecentKey(none: bool, at: nat, name: string)

  function UnwrapOr<T>(o: Option<T>, d: T): T {
    if o.Some? then o.value else d
  }

  function KeyOf(lower: string -> string, sort: ServerSort, e: ServerEntry): Key {
    match sort
    case Name => NameKey(lower(e.name))
    case Tag => TagKey(FirstTag(lower, e).None?, UnwrapOr(FirstTag(lower, e), ""), lower(e.name))
    case LastConnected => RecentKey(e.lastConnected.None?, UnwrapOr(e.lastConnected, 0), lower(e.name))
  }

  function CmpKey(a: Key, b: Key): Ordering {
    match (a, b)
    case (NameKey(x), NameKey(y)) => CmpString(x, y)
    case (TagKey(n, t, x), TagKey(m, u, y)) => Then(CmpBool(n, m), Then(CmpString(t, u), CmpString(x, y)))
    case (RecentKey(n, t, x), RecentKey(m, u, y)) => Then(CmpBool(n, m), Then(CmpNat(u, t), CmpString(x, y)))
    case _ => Equal
  }

  function MenuCompare(lower: string -> string, sort: ServerSort, a: ServerEntry, b: ServerEntry): Ordering {
    CmpKey(KeyOf(lower, sort, a), KeyOf(lower, sort, b))
  }

  /** The two were written independently and agree on every pair. */
  lemma ComparatorsAgree(lower: string -> string, sort: ServerSort, a: ServerEntry, b: ServerEntry)
    ensures CliCompare(lower, sort, a, b) == MenuCompare(lower, sort, a, b)
  {
  }

  // ---------------------------------------------------------------- both are total preorders

  lemma {:induction false} StringsFlip(a: string, b: string)
    ensures CmpString(b, a) == Flip(CmpString(a, b))
  {
    if a != [] && b != [] {
      StringsFlip(a[1..], b[1..]);
    }
  }

  lemma {:induction false} StringsAreTransitive(a: string, b: string, c: string)
    requires !CmpString(a, b).Greater? && !CmpString(b, c).Greater?
    ensures CmpString(a, c) == Then(CmpString(a, b), CmpString(b, c))
  {
    if a != [] && b != [] && c != [] && a[0] == b[0] && b[0] == c[0] {
      StringsAreTransitive(a[1..], b[1..], c[1..]);
    }
  }

  lemma KeysFlip(a: Key, b: Key)
    ensures CmpKey(b, a) == Flip(CmpKey(a, b))
  {
    hide CmpString;
    StringsFlip(a.name, b.name);
    if a.TagKey? && b.TagKey? {
      StringsFlip(a.tag, b.tag);
    }
  }

  lemma KeysAreTransitive(a: Key, b: Key, c: Key)
    requires !CmpKey(a, b).Greater? && !CmpKey(b, c).Greater?
    requires (a.NameKey? && b.NameKey? && c.NameKey?) || (a.TagKey? && b.TagKey? && c.TagKey?)
            || (a.RecentKey? && b.RecentKey? && c.RecentKey?)
    ensures !CmpKey(a, c).Greater?
  {
    hide CmpString;
    if !CmpString(a.name, b.name).Greater? && !CmpString(b.name, c.name).Greater? {
      StringsAreTransitive(a.name, b.name, c.name);
    }
    if a.TagKey? && !CmpString(a.tag, b.tag).Greater? && !CmpString(b.tag, c.tag).Greater? {
      StringsAreTransitive(a.tag, b.tag, c.tag);
    }
  }

  function MenuLeq(lower: string -> string, sort: ServerSort): (ServerEntry, ServerEntry) -> bool {
    (a, b) => !MenuCompare(lower, sort, a, b).Greater?
  }

  function CliLeq(lower: string -> string, sort: ServerSort): (ServerEntry, ServerEntry) -> bool {
    (a, b) => !CliCompare(lower, sort, a, b).Greater?
  }

  lemma MenuOrderIsTotal(lower: string -> string, sort: ServerSort)
    ensures TotalPreorder(MenuLeq(lower, sort))
  {
    hide CmpKey;
    var leq := MenuLeq(lower, sort);
    forall x, y ensures leq(x, y) || leq(y, x) {
      KeysFlip(KeyOf(lower, sort, x), KeyOf(lower, sort, y));
    }
    forall x, y, z | leq(x, y) && leq(y, z) ensures leq(x, z) {
      KeysAreTransitive(KeyOf(lower, sort, x), KeyOf(lower, sort, y), KeyOf(lower, sort, z));
    }
  }

  // ---------------------------------------------------------------- what the order is

  /** In the order of the dictionary: a beginning of the other, or smaller where they first differ. */
  ghost predicate InDictionaryOrder(a: string, b: string) {
    a <= b || exists k :: 0 <= k < |a| && k < |b| && DifferAt(a, b, k) && a[k] < b[k]
  }

  predicate DifferAt(a: string, b: string, k: nat) {
    k < |a| && k < |b| && a[..k] == b[..k] && a[k] != b[k]
  }

  lemma {:induction false} StringsAreInOrder(a: string, b: string)
    ensures !CmpString(a, b).Greater? <==> InDictionaryOrder(a, b)
    ensures CmpString(a, b).Equal? <==> a == b
  {
    if a != [] && b != [] {
      StringsAreInOrder(a[1..], b[1..]);
      assert a == [a[0]] + a[1..] && b == [b[0]] + b[1..];
      if a[0] == b[0] {
        OrderOfTheRest(a, b);
      } else {
        assert DifferAt(a, b, 0);
        assert forall k: nat :: DifferAt(a, b, k) && k > 0 ==> a[..k][0] == b[..k][0];
      }
    }
  }

  lemma OrderOfTheRest(a: string, b: string)
    requires a != [] && b != [] && a[0] == b[0]
    ensures InDictionaryOrder(a, b) <==> InDictionaryOrder(a[1..], b[1..])
  {
    if a[1..] <= b[1..] {
      assert a == [a[0]] + a[1..] && b[..|a|] == [a[0]] + b[1..][..|a| - 1];
    }
    forall k: nat ensures DifferAt(a, b, k + 1) <==> DifferAt(a[1..], b[1..], k) {
      if k + 1 < |a| && k + 1 < |b| {
        assert a[..k + 1] == [a[0]] + a[1..][..k] && b[..k + 1] == [b[0]] + b[1..][..k];
        assert a[..k + 1][1..] == a[1..][..k] && b[..k + 1][1..] == b[1..][..k];
      }
    }
    if k: nat :| k < |a| && k < |b| && DifferAt(a, b, k) && a[k] < b[k] {
      assert DifferAt(a[1..], b[1..], k - 1);
    }
    if k: nat :| k < |a[1..]| && k < |b[1..]| && DifferAt(a[1..], b[1..], k) && a[1..][k] < b[1..][k] {
      assert DifferAt(a, b, k + 1);
    }
  }

  /** `a` may stand before `b`. */
  ghost predicate ComesFirst(lower: string -> string, sort: ServerSort, a: ServerEntry, b: ServerEntry) {
    var byName := InDictionaryOrder(lower(a.name), lower(b.name));
    match sort
    case Name => byName
    case Tag =>
      if a.tags == [] || b.tags == [] then (a.tags != [] || (b.tags == [] && byName))
      else
        var t, u := lower(a.tags[0]), lower(b.tags[0]);
        if t == u then byName else InDictionaryOrder(t, u)
    case LastConnected =>
      if a.lastConnected == b.lastConnected then byName
      else a.lastConnected.Some? && (b.lastConnected.None? || a.lastConnected.value > b.lastConnected.value)
  }

  lemma WhatTheOrderMeans(lower: string -> string, sort: ServerSort, a: ServerEntry, b: ServerEntry)
    ensures MenuLeq(lower, sort)(a, b) <==> ComesFirst(lower, sort, a, b)
    ensures CliLeq(lower, sort)(a, b) <==> ComesFirst(lower, sort, a, b)
  {
    hide CmpString, InDictionaryOrder;
    ComparatorsAgree(lower, sort, a, b);
    StringsAreInOrder(lower(a.name), lower(b.name));
    if a.tags != [] && b.tags != [] {
      StringsAreInOrder(lower(a.tags[0]), lower(b.tags[0]));
    }
    StringsAreInOrder("", "");
  }

  // ---------------------------------------------------------------- sorting indices is sorting entries

  /** The menu sorts positions.  Positions outside the list do not occur; they are put last. */
  function IndexLeq(servers: seq<ServerEntry>, leq: (ServerEntry, ServerEntry) -> bool): (nat, nat) -> bool {
    (i: nat, j: nat) => j >= |servers| || (i < |servers| && leq(servers[i], servers[j]))
  }

  lemma IndexOrderIsTotal(servers: seq<ServerEntry>, leq: (ServerEntry, ServerEntry) -> bool)
    requires TotalPreorder(leq)
    ensures TotalPreorder(IndexLeq(servers, leq))
  {
    var ileq := IndexLeq(servers, leq);
    forall x: nat, y: nat, z: nat | ileq(x, y) && ileq(y, z) ensures ileq(x, z) {
    }
  }

  function Indices(n: nat): (r: seq<nat>)
    ensures |r| == n && forall i :: 0 <= i < n ==> r[i] == i
  {
    seq(n, i requires 0 <= i < n => i)
  }

  function EntriesAt(servers: seq<ServerEntry>, indices: seq<nat>): (r: seq<ServerEntry>)
    requires forall k :: 0 <= k < |indices| ==> indices[k] < |servers|
    ensures |r| == |indices| && forall k :: 0 <= k < |indices| ==> r[k] == servers[indices[k]]
  {
    seq(|indices|, k requires 0 <= k < |indices| => servers[indices[k]])
  }

  lemma {:induction false} TiesOfIndices(servers: seq<ServerEntry>, indices: seq<nat>,
      leq: (ServerEntry, ServerEntry) -> bool, j: nat)
    requires j < |servers| && forall k :: 0 <= k < |indices| ==> indices[k] < |servers|
    ensures var ties := Ties<nat>(indices, j, IndexLeq(servers, leq));
      && (forall k :: 0 <= k < |ties| ==> ties[k] < |servers|)
      && Ties(EntriesAt(servers, indices), servers[j], leq) == EntriesAt(servers, ties)
  {
    if indices != [] {
      TiesOfIndices(servers, indices[1..], leq, j);
      assert EntriesAt(servers, indices)[1..] == EntriesAt(servers, indices[1..]);
    }
  }

  lemma SortedIndicesAreSortedEntries(servers: seq<ServerEntry>, leq: (ServerEntry, ServerEntry) -> bool, out: seq<nat>)
    requires TotalPreorder(leq) && StablySorts(Indices(|servers|), out, IndexLeq(servers, leq))
    ensures forall k :: 0 <= k < |out| ==> out[k] < |servers|
    ensures Sorted(EntriesAt(servers, out), leq)
    ensures forall x :: Ties(EntriesAt(servers, out), x, leq) == Ties(servers, x, leq)
  {
    var ileq := IndexLeq(servers, leq);
    var all := Indices(|servers|);
    forall k | 0 <= k < |out| ensures out[k] < |servers| {
      PermutationMember(all, out, out[k]);
      var m :| 0 <= m < |all| && all[m] == out[k];
    }
    assert EntriesAt(servers, all) == servers;
    forall i, j | 0 <= i < j < |out| ensures leq(servers[out[i]], servers[out[j]]) {
      assert ileq(out[i], out[j]);
    }
    forall x ensures Ties(EntriesAt(servers, out), x, leq) == Ties(servers, x, leq) {
      SameTies(servers, leq, out, x);
    }
  }

  lemma SameTies(servers: seq<ServerEntry>, leq: (ServerEntry, ServerEntry) -> bool, out: seq<nat>, x: ServerEntry)
    requires TotalPreorder(leq) && StablySorts(Indices(|servers|), out, IndexLeq(servers, leq))
    requires forall k :: 0 <= k < |out| ==> out[k] < |servers|
    ensures Ties(EntriesAt(servers, out), x, leq) == Ties(servers, x, leq)
  {
    var all := Indices(|servers|);
    hide Ties;
    assert EntriesAt(servers, all) == servers;
    if j :| 0 <= j < |servers| && leq(servers[j], x) && leq(x, servers[j]) {
      TiesOfTied(EntriesAt(servers, out), x, servers[j], leq);
      TiesOfTied(servers, x, servers[j], leq);
      TiesOfIndices(servers, out, leq, j);
      TiesOfIndices(servers, all, leq, j);
    } else {
      NothingTies(servers, x, leq);
      forall k | 0 <= k < |out| ensures !(leq(servers[out[k]], x) && leq(x, servers[out[k]])) {
        var j := out[k];
        assert !(0 <= j < |servers| && leq(servers[j], x) && leq(x, servers[j]));
      }
      NothingTies(EntriesAt(servers, out), x, leq);
    }
  }

  lemma {:induction false} NothingTies(s: seq<ServerEntry>, x: ServerEntry, leq: (ServerEntry, ServerEntry) -> bool)
    requires forall j :: 0 <= j < |s| ==> !(leq(s[j], x) && leq(x, s[j]))
    ensures Ties(s, x, leq) == []
  {
    if s != [] {
      NothingTies(s[1..], x, leq);
    }
  }

  lemma {:induction false} TiesOfTied(s: seq<ServerEntry>, x: ServerEntry, y: ServerEntry,
      leq: (ServerEntry, ServerEntry) -> bool)
    requires TotalPreorder(leq) && leq(x, y) && leq(y, x)
    ensures Ties(s, x, leq) == Ties(s, y, leq)
  {
    if s != [] {
      TiesOfTied(s[1..], x, y, leq);
    }
  }

  /** Whatever stable algorithms the two use, they list the servers in the same sequence. */
  lemma TheOrderingsAgree(lower: string -> string, sort: ServerSort, servers: seq<ServerEntry>,
      cli: seq<ServerEntry>, menu: seq<nat>)
    requires StablySorts(servers, cli, CliLeq(lower, sort))
    requires StablySorts(Indices(|servers|), menu, IndexLeq(servers, MenuLeq(lower, sort)))
    ensures forall k :: 0 <= k < |menu| ==> menu[k] < |servers|
    ensures cli == EntriesAt(servers, menu)
  {
    hide CliCompare, MenuCompare;
    var leq := MenuLeq(lower, sort);
    MenuOrderIsTotal(lower, sort);
    SortedIndicesAreSortedEntries(servers, leq, menu);
    forall a, b ensures CliLeq(lower, sort)(a, b) == leq(a, b) {
      ComparatorsAgree(lower, sort, a, b);
    }
    forall x ensures Ties(cli, x, leq) == Ties(EntriesAt(servers, menu), x, leq) {
      TiesAgree(cli, x, leq, CliLeq(lower, sort));
      TiesAgree(servers, x, leq, CliLeq(lower, sort));
    }
    Unique(cli, EntriesAt(servers, menu), leq);
  }
}
