/**
 The server list (src/tui/main_menu.rs): filter, order and selection.

 The selection is a row number, so everything that moves rows has to put it back on the server it
 meant.  Key handling is a class proved against a step function; the properties are about runs of
 steps.
 */
module MainMenu {
  import opened Wrappers
  import opened StableSort
  import opened ServerOrder
  import Text

  datatype Key = Char(c: char) | Up | Down | Enter | Esc | Backspace | F1 | Other

  datatype Action =
    | Nothing
    | Connect(id: nat) | ConnectAlternate(id: nat) | Edit(id: nat) | Delete(id: nat) | Scripts(id: nat)
    | Files(id: nat) | Forwards(id: nat)
    | Add | SshImport | Lock | Settings | CycleSort | Help | Quit

  datatype Menu = Menu(selected: nat, filter: string, typing: bool)

  /** What is fixed while keys are pressed. */
  datatype View = View(lower: string -> string, servers: seq<ServerEntry>)

  function Address(e: ServerEntry): string {
    e.username + "@" + e.host + ":" + Text.Decimal(e.port)
  }

  predicate Matches(lower: string -> string, e: ServerEntry, needle: string) {
    || Text.Contains(lower(e.name), lower(needle))
    || Text.Contains(lower(Address(e)), lower(needle))
    || exists k :: 0 <= k < |e.tags| && Text.Contains(lower(e.tags[k]), lower(needle))
  }

  predicate Shown(view: View, filter: string, i: nat)
    requires i < |view.servers|
  {
    filter == [] || Matches(view.lower, view.servers[i], filter)
  }

  function MatchingUpTo(view: View, filter: string, n: nat): seq<nat>
    requires n <= |view.servers|
  {
    if n == 0 then []
    else MatchingUpTo(view, filter, n - 1) + if Shown(view, filter, n - 1) then [n - 1] else []
  }

  /** The rows on screen, as positions in the list. */
  function Visible(view: View, sort: ServerSort, filter: string): seq<nat> {
    Sort<nat>(MatchingUpTo(view, filter, |view.servers|), IndexLeq(view.servers, MenuLeq(view.lower, sort)))
  }

  lemma {:induction false} MatchingAreTheShown(view: View, filter: string, n: nat)
    requires n <= |view.servers|
    ensures forall i: nat :: i in MatchingUpTo(view, filter, n) <==> i < n && Shown(view, filter, i)
    ensures forall i: nat :: multiset(MatchingUpTo(view, filter, n))[i] <= 1
  {
    hide Shown;
    if n > 0 {
      MatchingAreTheShown(view, filter, n - 1);
      var before := MatchingUpTo(view, filter, n - 1);
      if Shown(view, filter, n - 1) {
        assert multiset(before + [n - 1]) == multiset(before) + multiset{n - 1};
        assert n - 1 !in before;
      } else {
        assert MatchingUpTo(view, filter, n) == before;
      }
    }
  }

  /** The rows are the matching servers, each once, stably sorted by the menu's order. */
  lemma RowsAreTheMatches(view: View, sort: ServerSort, filter: string)
    ensures var rows := Visible(view, sort, filter);
      && (forall i: nat :: i in rows <==> i < |view.servers| && Shown(view, filter, i))
      && (forall i: nat :: multiset(rows)[i] <= 1)
      && StablySorts(MatchingUpTo(view, filter, |view.servers|), rows,
          IndexLeq(view.servers, MenuLeq(view.lower, sort)))
  {
    hide Sort, MatchingUpTo, Shown, MenuLeq, IndexLeq, Ties;
    var matching := MatchingUpTo(view, filter, |view.servers|);
    var leq := IndexLeq(view.servers, MenuLeq(view.lower, sort));
    MenuOrderIsTotal(view.lower, sort);
    IndexOrderIsTotal(view.servers, MenuLeq(view.lower, sort));
    SortStablySorts<nat>(matching, leq);
    MatchingAreTheShown(view, filter, |view.servers|);
    forall i: nat ensures i in Visible(view, sort, filter) <==> i in matching {
      PermutationMember<nat>(matching, Visible(view, sort, filter), i);
    }
  }

  function Rows(view: View, sort: ServerSort, filter: string): (rows: seq<nat>)
    ensures forall k :: 0 <= k < |rows| ==> rows[k] < |view.servers|
  {
    RowsAreTheMatches(view, sort, filter);
    var rows := Visible(view, sort, filter);
    assert forall k :: 0 <= k < |rows| ==> rows[k] in rows;
    rows
  }

  /** With no filter the menu lists the servers in the sequence the command line prints them. */
  lemma TheMenuListsLikeTheCommandLine(view: View, sort: ServerSort, cli: seq<ServerEntry>)
    requires StablySorts(view.servers, cli, CliLeq(view.lower, sort))
    ensures cli == EntriesAt(view.servers, Rows(view, sort, []))
  {
    hide Sort, Ties, CliLeq, MenuLeq, IndexLeq, MatchingUpTo, Shown;
    NoFilterShowsAll(view, |view.servers|);
    RowsAreTheMatches(view, sort, []);
    TheOrderingsAgree(view.lower, sort, view.servers, cli, Rows(view, sort, []));
  }

  lemma {:induction false} NoFilterShowsAll(view: View, n: nat)
    requires n <= |view.servers|
    ensures MatchingUpTo(view, [], n) == Indices(n)
  {
    if n > 0 {
      NoFilterShowsAll(view, n - 1);
      assert Indices(n) == Indices(n - 1) + [n - 1];
    }
  }

  function IdAt(view: View, sort: ServerSort, filter: string, row: nat): Option<nat> {
    var rows := Rows(view, sort, filter);
    if row < |rows| then Some(view.servers[rows[row]].id) else None
  }

  function SelectedId(view: View, sort: ServerSort, menu: Menu): Option<nat> {
    IdAt(view, sort, menu.filter, menu.selected)
  }

  /** The first row that shows the server. */
  function RowOf(view: View, sort: ServerSort, filter: string, id: nat): (r: Option<nat>)
    ensures r.Some? ==> r.value < |Rows(view, sort, filter)| && IdAt(view, sort, filter, r.value) == Some(id)
    ensures r.None? ==> forall k: nat :: IdAt(view, sort, filter, k) != Some(id)
  {
    RowFrom(view, sort, filter, id, 0)
  }

  function RowFrom(view: View, sort: ServerSort, filter: string, id: nat, from: nat): (r: Option<nat>)
    ensures r.Some? ==> from <= r.value < |Rows(view, sort, filter)| && IdAt(view, sort, filter, r.value) == Some(id)
    ensures r.None? ==> forall k: nat :: from <= k ==> IdAt(view, sort, filter, k) != Some(id)
    decreases |Rows(view, sort, filter)| - from
  {
    if from >= |Rows(view, sort, filter)| then None
    else if IdAt(view, sort, filter, from) == Some(id) then Some(from)
    else RowFrom(view, sort, filter, id, from + 1)
  }

  // ---------------------------------------------------------------- one step

  function Moved(menu: Menu, up: bool, rows: nat): Menu {
    menu.(selected :=
      if rows == 0 then 0
      else if up then (if menu.selected == 0 then 0 else menu.selected - 1)
      else if menu.selected + 1 < rows then menu.selected + 1
      else menu.selected)
  }

  function Reanchored(view: View, sort: ServerSort, menu: Menu, anchor: Option<nat>): Menu {
    var row := if anchor.Some? then RowOf(view, sort, menu.filter, anchor.value) else None;
    menu.(selected := if row.Some? then row.value else 0)
  }

  function Refiltered(view: View, sort: ServerSort, menu: Menu, filter: string): Menu {
    Reanchored(view, sort, menu.(filter := filter), SelectedId(view, sort, menu))
  }

  function Popped(filter: string): string {
    if filter == [] then [] else filter[..|filter| - 1]
  }

  /** The filter after a key, if the key edits or clears it. */
  function FilterAfter(menu: Menu, key: Key): Option<string> {
    match key
    case Char(c) => if menu.typing then Some(menu.filter + [c]) else None
    case Backspace => if menu.typing then Some(Popped(menu.filter)) else None
    case Esc => if menu.typing || menu.filter != [] then Some([]) else None
    case _ => None
  }

  predicate MovesUp(menu: Menu, key: Key) {
    key.Up? || (!menu.typing && key == Char('k'))
  }

  predicate MovesDown(menu: Menu, key: Key) {
    key.Down? || (!menu.typing && key == Char('j'))
  }

  function TypingAfter(menu: Menu, key: Key): bool {
    if menu.typing then !key.Enter? && !key.Esc? else key == Char('/')
  }

  function Pressed(view: View, sort: ServerSort, menu: Menu, key: Key): Menu {
    var moved :=
      if FilterAfter(menu, key).Some? then Refiltered(view, sort, menu, FilterAfter(menu, key).value)
      else if MovesUp(menu, key) || MovesDown(menu, key) then
        Moved(menu, MovesUp(menu, key), |Rows(view, sort, menu.filter)|)
      else menu;
    moved.(typing := TypingAfter(menu, key))
  }

  function Chosen(id: Option<nat>, action: nat -> Action): Action {
    if id.Some? then action(id.value) else Nothing
  }

  /** What the key asks the application to do. */
  function Asked(view: View, sort: ServerSort, menu: Menu, key: Key): Action {
    var id := SelectedId(view, sort, menu);
    if key.Enter? then Chosen(id, (i: nat) => Connect(i))
    else if menu.typing then Nothing
    else
      match key
      case Char('?') => Help
      case Char('a') => Add
      case Char('e') => Chosen(id, (i: nat) => Edit(i))
      case Char('d') => Chosen(id, (i: nat) => Delete(i))
      case Char('s') => Chosen(id, (i: nat) => Scripts(i))
      case Char('f') => Chosen(id, (i: nat) => Files(i))
      case Char('i') => SshImport
      case Char('p') => Chosen(id, (i: nat) => Forwards(i))
      case Char('t') => Chosen(id, (i: nat) => ConnectAlternate(i))
      case Char('o') => CycleSort
      case Char('l') => Lock
      case F1 => Settings
      case Char('q') => Quit
      case Esc => if menu.filter == [] then Quit else Nothing
      case _ => Nothing
  }

  /** Which key asks for which action: a letter only while no filter is typed, and an action on a
      server only while one is selected. */
  lemma WhichKeyAsksForWhat(view: View, sort: ServerSort, menu: Menu, key: Key, i: nat)
    ensures var asked, id, letters := Asked(view, sort, menu, key), SelectedId(view, sort, menu), !menu.typing;
            && (asked == Connect(i) <==> key == Enter && id == Some(i))
            && (asked == Edit(i) <==> letters && key == Char('e') && id == Some(i))
            && (asked == Delete(i) <==> letters && key == Char('d') && id == Some(i))
            && (asked == Scripts(i) <==> letters && key == Char('s') && id == Some(i))
            && (asked == Files(i) <==> letters && key == Char('f') && id == Some(i))
            && (asked == Forwards(i) <==> letters && key == Char('p') && id == Some(i))
            && (asked == ConnectAlternate(i) <==> letters && key == Char('t') && id == Some(i))
            && (asked == Add <==> letters && key == Char('a'))
            && (asked == SshImport <==> letters && key == Char('i'))
            && (asked == CycleSort <==> letters && key == Char('o'))
            && (asked == Lock <==> letters && key == Char('l'))
            && (asked == Help <==> letters && key == Char('?'))
            && (asked == Settings <==> letters && key == F1)
            && (asked == Quit <==> letters && (key == Char('q') || (key == Esc && menu.filter == [])))
  {
    hide SelectedId;
  }

  /** What a key does to filter, mode and selection.  A filter that changes puts the selection on the
      same server's first row, or on the first row. */
  lemma WhatAKeyDoes(view: View, sort: ServerSort, menu: Menu, key: Key)
    ensures var after, rows := Pressed(view, sort, menu, key), |Rows(view, sort, menu.filter)|;
            var edits := || (menu.typing && (key.Char? || key.Backspace?))
                         || (key.Esc? && (menu.typing || menu.filter != []));
            var up := key.Up? || (!menu.typing && key == Char('k'));
            var down := key.Down? || (!menu.typing && key == Char('j'));
            && (after.typing <==> if menu.typing then key != Enter && key != Esc else key == Char('/'))
            && (menu.typing && key.Char? ==> after.filter == menu.filter + [key.c])
            && (menu.typing && key.Backspace? ==>
                  after.filter == if menu.filter == [] then [] else menu.filter[..|menu.filter| - 1])
            && (key.Esc? ==> after.filter == [])
            && (!edits ==> after.filter == menu.filter)
            && (edits ==> after.selected == match SelectedId(view, sort, menu)
                  case None => 0
                  case Some(id) => (match RowOf(view, sort, after.filter, id) case Some(row) => row case None => 0))
            && (up && rows > 0 ==> after.selected == if menu.selected == 0 then 0 else menu.selected - 1)
            && (down && rows > 0 ==>
                  after.selected == if menu.selected + 1 < rows then menu.selected + 1 else menu.selected)
            && ((up || down) && rows == 0 ==> after.selected == 0)
            && (!edits && !up && !down ==> after.selected == menu.selected)
  {
    hide SelectedId, RowOf, Rows;
  }

  /** The filter looks for its letters in the name, in `user@host:port` and in each tag, case aside. */
  lemma WhatTheFilterFinds(view: View, filter: string, i: nat)
    requires i < |view.servers|
    ensures var e := view.servers[i];
            var fields := [e.name, e.username + "@" + e.host + ":" + Text.Decimal(e.port)] + e.tags;
            Shown(view, filter, i) <==>
              filter == [] || exists k :: 0 <= k < |fields| && Text.Occurs(view.lower(fields[k]), view.lower(filter))
  {
    hide Text.Find, Text.Decimal;
    var e := view.servers[i];
    var fields := [e.name, e.username + "@" + e.host + ":" + Text.Decimal(e.port)] + e.tags;
    assert fields[0] == e.name && fields[1] == Address(e);
    assert forall k :: 0 <= k < |e.tags| ==> fields[k + 2] == e.tags[k];
    assert forall k :: 2 <= k < |fields| ==> fields[k] == e.tags[k - 2];
    forall s: string, needle: string ensures Text.Contains(s, needle) <==> Text.Occurs(s, needle) {
    }
  }

  /** The rows come in the order of the sort, with case aside: by name; by first tag, the untagged
      last; or by the last connection, the latest first and those never connected last. */
  lemma RowsAreInOrder(view: View, sort: ServerSort, filter: string, i: nat, j: nat)
    requires i < j < |Rows(view, sort, filter)|
    ensures var rows := Rows(view, sort, filter);
            ComesFirst(view.lower, sort, view.servers[rows[i]], view.servers[rows[j]])
  {
    hide Visible, MenuLeq, ComesFirst, Ties, MatchingUpTo;
    RowsAreTheMatches(view, sort, filter);
    var rows := Rows(view, sort, filter);
    var leq := IndexLeq(view.servers, MenuLeq(view.lower, sort));
    assert leq(rows[i], rows[j]);
    WhatTheOrderMeans(view.lower, sort, view.servers[rows[i]], view.servers[rows[j]]);
  }

  class MainMenuState {
    var selected: nat
    var filter: string
    var typing: bool

    function State(): Menu
      reads this
    {
      Menu(selected, filter, typing)
    }

    constructor ()
      ensures State() == Menu(0, [], false)
    {
      selected, filter, typing := 0, [], false;
    }

    function Selected(view: View, sort: ServerSort): Option<nat>
      reads this
    {
      SelectedId(view, sort, State())
    }

    method MoveSelection(up: bool, visible: nat)
      modifies this`selected
      ensures State() == Moved(old(State()), up, visible)
      ensures if visible == 0 then selected == 0 else old(selected) < visible ==> selected < visible
      ensures old(selected) < visible ==> old(selected) - 1 <= selected <= old(selected) + 1
    {
      if visible == 0 {
        selected := 0;
      } else if up {
        selected := if selected == 0 then 0 else selected - 1;
      } else if selected + 1 < visible {
        selected := selected + 1;
      }
    }

    /** Puts the selection back on `anchor`, or on the first row when it is gone. */
    method Reanchor(view: View, sort: ServerSort, anchor: Option<nat>)
      modifies this`selected
      ensures State() == Reanchored(view, sort, old(State()), anchor)
    {
      hide RowOf, RowFrom, IdAt;
      selected := 0;
      if anchor.Some? {
        var rows := Rows(view, sort, filter);
        var row := RowOf(view, sort, filter, anchor.value);
        selected := if row.Some? then row.value else 0;
      }
    }

    method ClearFilter(view: View, sort: ServerSort)
      modifies this`selected, this`filter
      ensures State() == Refiltered(view, sort, old(State()), [])
    {
      hide SelectedId, RowOf;
      var anchor := Selected(view, sort);
      filter := [];
      Reanchor(view, sort, anchor);
    }

    method Resort(view: View, was: ServerSort, next: ServerSort)
      modifies this`selected
      ensures State() == Reanchored(view, next, old(State()), SelectedId(view, was, old(State())))
    {
      hide SelectedId, RowOf;
      var anchor := Selected(view, was);
      Reanchor(view, next, anchor);
    }

    method HandleFilterKey(view: View, sort: ServerSort, key: Key) returns (action: Action)
      requires typing
      modifies this
      ensures State() == Pressed(view, sort, old(State()), key)
      ensures action == Asked(view, sort, old(State()), key)
    {
      hide SelectedId, RowOf, Reanchored, Rows;
      action := Nothing;
      match key {
        case Char(c) =>
          var anchor := Selected(view, sort);
          filter := filter + [c];
          Reanchor(view, sort, anchor);
        case Backspace =>
          var anchor := Selected(view, sort);
          filter := Popped(filter);
          Reanchor(view, sort, anchor);
        case Up => MoveSelection(true, |Rows(view, sort, filter)|);
        case Down => MoveSelection(false, |Rows(view, sort, filter)|);
        case Enter =>
          var id := Selected(view, sort);
          typing := false;
          action := Chosen(id, (i: nat) => Connect(i));
        case Esc =>
          typing := false;
          ghost var was := State();
          ClearFilter(view, sort);
          SelectionIgnoresTyping(view, sort, old(State()), was);
        case _ =>
      }
    }

    method HandleKey(view: View, sort: ServerSort, key: Key) returns (action: Action)
      modifies this
      ensures State() == Pressed(view, sort, old(State()), key)
      ensures action == Asked(view, sort, old(State()), key)
    {
      hide SelectedId, RowOf, Reanchored, Rows;
      if typing {
        action := HandleFilterKey(view, sort, key);
        return;
      }
      var id := Selected(view, sort);
      action := Nothing;
      if key.Up? || key == Char('k') {
        MoveSelection(true, |Rows(view, sort, filter)|);
      } else if key.Down? || key == Char('j') {
        MoveSelection(false, |Rows(view, sort, filter)|);
      } else if key.Enter? {
        action := Chosen(id, (i: nat) => Connect(i));
      } else if key == Char('/') {
        typing := true;
      } else if key == Char('?') {
        action := Help;
      } else if key == Char('a') {
        action := Add;
      } else if key == Char('e') {
        action := Chosen(id, (i: nat) => Edit(i));
      } else if key == Char('d') {
        action := Chosen(id, (i: nat) => Delete(i));
      } else if key == Char('s') {
        action := Chosen(id, (i: nat) => Scripts(i));
      } else if key == Char('f') {
        action := Chosen(id, (i: nat) => Files(i));
      } else if key == Char('i') {
        action := SshImport;
      } else if key == Char('p') {
        action := Chosen(id, (i: nat) => Forwards(i));
      } else if key == Char('t') {
        action := Chosen(id, (i: nat) => ConnectAlternate(i));
      } else if key == Char('o') {
        action := CycleSort;
      } else if key == Char('l') {
        action := Lock;
      } else if key.F1? {
        action := Settings;
      } else if key.Esc? && filter != [] {
        ClearFilter(view, sort);
      } else if key == Char('q') || key.Esc? {
        action := Quit;
      }
    }

    /** After the list itself changed. */
    method ClampSelection(view: View, sort: ServerSort)
      modifies this`selected
      ensures Valid(view, sort, State()) && filter == old(filter) && typing == old(typing)
      ensures Valid(view, sort, old(State())) ==> selected == old(selected)
    {
      var visible := |Rows(view, sort, filter)|;
      if visible == 0 {
        selected := 0;
      } else if selected >= visible {
        selected := visible - 1;
      }
    }
  }

  lemma SelectionIgnoresTyping(view: View, sort: ServerSort, a: Menu, b: Menu)
    requires b == a.(typing := b.typing)
    ensures SelectedId(view, sort, a) == SelectedId(view, sort, b)
    ensures Refiltered(view, sort, b, []) == Refiltered(view, sort, a, []).(typing := b.typing)
  {
  }

  // ---------------------------------------------------------------- runs

  /** The selection is a row on screen whenever there is one. */
  predicate Valid(view: View, sort: ServerSort, menu: Menu) {
    var rows := |Rows(view, sort, menu.filter)|;
    if rows == 0 then menu.selected == 0 else menu.selected < rows
  }

  datatype Input = Press(key: Key) | Reorder(sort: ServerSort)

  function StepMenu(view: View, sort: ServerSort, menu: Menu, input: Input): (Menu, ServerSort) {
    match input
    case Press(key) => (Pressed(view, sort, menu, key), sort)
    case Reorder(next) => (Reanchored(view, next, menu, SelectedId(view, sort, menu)), next)
  }

  function RunMenu(view: View, sort: ServerSort, menu: Menu, inputs: seq<Input>): (Menu, ServerSort)
    decreases |inputs|
  {
    if inputs == [] then (menu, sort)
    else
      var next := StepMenu(view, sort, menu, inputs[0]);
      RunMenu(view, next.1, next.0, inputs[1..])
  }

  lemma ReanchoringSelects(view: View, sort: ServerSort, menu: Menu, anchor: Option<nat>)
    ensures Valid(view, sort, Reanchored(view, sort, menu, anchor))
    ensures anchor.Some? && RowOf(view, sort, menu.filter, anchor.value).Some?
            ==> SelectedId(view, sort, Reanchored(view, sort, menu, anchor)) == anchor
  {
    hide RowFrom, Rows;
  }

  lemma StepsKeepASelection(view: View, sort: ServerSort, menu: Menu, input: Input)
    requires Valid(view, sort, menu)
    ensures Valid(view, StepMenu(view, sort, menu, input).1, StepMenu(view, sort, menu, input).0)
  {
    hide Reanchored, SelectedId, RowOf, Rows;
    match input
    case Press(key) =>
      if FilterAfter(menu, key).Some? {
        ReanchoringSelects(view, sort, menu.(filter := FilterAfter(menu, key).value), SelectedId(view, sort, menu));
        ReanchoredKeepsTheRest(view, sort, menu.(filter := FilterAfter(menu, key).value), SelectedId(view, sort, menu));
      }
    case Reorder(next) =>
      ReanchoringSelects(view, next, menu, SelectedId(view, sort, menu));
  }

  lemma ReanchoredKeepsTheRest(view: View, sort: ServerSort, menu: Menu, anchor: Option<nat>)
    ensures Reanchored(view, sort, menu, anchor).filter == menu.filter
    ensures Reanchored(view, sort, menu, anchor).typing == menu.typing
  {
  }

  /** After any keys and any changes of order, something is selected whenever anything is shown. */
  lemma {:induction false} RunsKeepASelection(view: View, sort: ServerSort, menu: Menu, inputs: seq<Input>)
    requires Valid(view, sort, menu)
    ensures Valid(view, RunMenu(view, sort, menu, inputs).1, RunMenu(view, sort, menu, inputs).0)
    decreases |inputs|
  {
    if inputs != [] {
      hide Valid, StepMenu;
      var next := StepMenu(view, sort, menu, inputs[0]);
      StepsKeepASelection(view, sort, menu, inputs[0]);
      RunsKeepASelection(view, next.1, next.0, inputs[1..]);
    }
  }

  predicate Moves(menu: Menu, input: Input) {
    input.Press? && (MovesUp(menu, input.key) || MovesDown(menu, input.key))
  }

  /** The server is on screen. */
  predicate OnScreen(view: View, sort: ServerSort, menu: Menu, id: nat) {
    RowOf(view, sort, menu.filter, id).Some?
  }

  /** Nothing but the arrow keys takes the selection off a server that stays on screen. */
  lemma StepsFollowTheServer(view: View, sort: ServerSort, menu: Menu, input: Input, id: nat)
    requires SelectedId(view, sort, menu) == Some(id) && !Moves(menu, input)
    requires var next := StepMenu(view, sort, menu, input); OnScreen(view, next.1, next.0, id)
    ensures var next := StepMenu(view, sort, menu, input); SelectedId(view, next.1, next.0) == Some(id)
  {
    hide Reanchored, RowOf, Rows;
    match input
    case Press(key) =>
      if FilterAfter(menu, key).Some? {
        ReanchoringSelects(view, sort, menu.(filter := FilterAfter(menu, key).value), SelectedId(view, sort, menu));
        ReanchoredKeepsTheRest(view, sort, menu.(filter := FilterAfter(menu, key).value), SelectedId(view, sort, menu));
      }
    case Reorder(next) =>
      ReanchoringSelects(view, next, menu, SelectedId(view, sort, menu));
      ReanchoredKeepsTheRest(view, next, menu, SelectedId(view, sort, menu));
  }

  ghost predicate StaysInView(view: View, sort: ServerSort, menu: Menu, inputs: seq<Input>, id: nat)
    decreases |inputs|
  {
    inputs != [] ==>
      var next := StepMenu(view, sort, menu, inputs[0]);
      && !Moves(menu, inputs[0])
      && OnScreen(view, next.1, next.0, id)
      && StaysInView(view, next.1, next.0, inputs[1..], id)
  }

  /** Over a whole run of filter edits, clears and re-sorts the same server stays selected, as long
      as it never leaves the screen. */
  lemma {:induction false} RunsFollowTheServer(view: View, sort: ServerSort, menu: Menu, inputs: seq<Input>, id: nat)
    requires SelectedId(view, sort, menu) == Some(id) && StaysInView(view, sort, menu, inputs, id)
    ensures var end := RunMenu(view, sort, menu, inputs); SelectedId(view, end.1, end.0) == Some(id)
    decreases |inputs|
  {
    if inputs != [] {
      hide SelectedId, StepMenu, OnScreen, Moves;
      var next := StepMenu(view, sort, menu, inputs[0]);
      StepsFollowTheServer(view, sort, menu, inputs[0], id);
      RunsFollowTheServer(view, next.1, next.0, inputs[1..], id);
    }
  }

  lemma TheSelectedRowIsShown(view: View, sort: ServerSort, menu: Menu)
    requires Valid(view, sort, menu)
    ensures var rows := Rows(view, sort, menu.filter);
      if rows == [] then SelectedId(view, sort, menu) == None
      else
        && menu.selected < |rows|
        && SelectedId(view, sort, menu) == Some(view.servers[rows[menu.selected]].id)
        && Shown(view, menu.filter, rows[menu.selected])
  {
    hide Shown, Sort, MatchingUpTo;
    RowsAreTheMatches(view, sort, menu.filter);
    var rows := Rows(view, sort, menu.filter);
    if rows != [] {
      assert rows[menu.selected] in rows;
    }
  }

  /** Whatever a key acts on is the selected server, which is on screen and matches the filter. */
  lemma ActionsAreAboutTheSelection(view: View, sort: ServerSort, menu: Menu, key: Key)
    requires Valid(view, sort, menu)
    ensures var rows := Rows(view, sort, menu.filter);
      if rows == [] then !ActsOnAServer(Asked(view, sort, menu, key))
      else
        && Shown(view, menu.filter, rows[menu.selected])
        && (ActsOnAServer(Asked(view, sort, menu, key)) ==>
            Asked(view, sort, menu, key).id == view.servers[rows[menu.selected]].id)
        && (key.Enter? ==> Asked(view, sort, menu, key).Connect?)
  {
    hide Shown, Rows, SelectedId;
    TheSelectedRowIsShown(view, sort, menu);
  }

  predicate ActsOnAServer(action: Action) {
    || action.Connect? || action.ConnectAlternate? || action.Edit? || action.Delete? || action.Scripts? || action.Files?
    || action.Forwards?
  }
}
