/**
 Several running instances over one vault file (src/config/lock.rs, src/config/store.rs).

 Any number of processes interleave, one small step at a time: taking the advisory lock, reading
 the vault, editing in memory, the three steps of a save, auto-locking, exiting and dying.  The
 configuration is represented by the history of edits that led to it.  Saving does not look at
 the lock; that only a holder ever saves has to come out of the order of the opening steps.
 */
module Instances {
  import opened Wrappers

  type Pid = nat
  type Change = nat
  type History = seq<Change>

  /** A file's contents: a complete configuration, or a fragment of one. */
  datatype Contents = Whole(history: History) | Torn

  /** The order in which an opener takes the lock and reads the file. */
  datatype OpenOrder = ClaimFirst | ReadFirst

  datatype Opening = NotOpening | Claimed | HasRead(seen: Contents)

  datatype SaveStep = NotSaving | TemporaryCreated | TemporaryWritten

  /** One process.  `undo` is what a failed save rolls memory back to, where the caller does that. */
  datatype Process = Process(
    held: bool,
    opening: Opening,
    memory: Option<History>,
    undo: Option<History>,
    saving: SaveStep)

  datatype State = State(
    vault: Contents,
    temporary: Option<Contents>,
    owner: Option<Pid>,
    processes: map<Pid, Process>)

  datatype Action =
    | Launch(pid: Pid)
    | OpenClaim(pid: Pid)
    | OpenRead(pid: Pid)
    | OpenFails(pid: Pid)
    | Edit(pid: Pid, change: Change, rollsBack: bool)
    | SaveCreates(pid: Pid)
    | SaveWrites(pid: Pid)
    | SaveRenames(pid: Pid)
    | SaveFails(pid: Pid, removed: bool)
    | AutoLock(pid: Pid)
    | Exit(pid: Pid)

  // ---------------------------------------------------------------- the lock

  datatype LockError = VaultInUse | IoFailed

  /** The kernel's side of the lock: which process's descriptor carries it. */
  class Kernel {
    var owner: Option<Pid>

    constructor ()
      ensures owner == None
    {
      owner := None;
    }

    /** `flock(LOCK_EX | LOCK_NB)` on a descriptor just opened: refused while any descriptor carries
        the lock, another one of the same process included. */
    method TakeExclusive(pid: Pid, works: bool) returns (r: Result<(), LockError>)
      modifies this
      ensures r == if !works then Err(IoFailed) else if old(owner).None? then Ok(()) else Err(VaultInUse)
      ensures owner == if r.Ok? then Some(pid) else old(owner)
    {
      if !works {
        return Err(IoFailed);
      }
      if owner.Some? {
        return Err(VaultInUse);
      }
      owner := Some(pid);
      return Ok(());
    }

    /** Closing the descriptor, which is what exiting and dying do: the exit step of `s`. */
    method Close(pid: Pid, ghost s: State)
      requires owner == s.owner && pid in s.processes
      modifies this
      ensures owner == Step(ClaimFirst, s, Exit(pid)).owner
    {
      if owner == Some(pid) {
        owner := None;
      }
    }
  }

  class VaultLock {
    const pid: Pid
    var held: bool

    constructor (pid: Pid)
      ensures this.pid == pid && !held
    {
      this.pid := pid;
      held := false;
    }

    /** Where `s` describes this process about to open the vault, and its lock. */
    ghost predicate Describes(kernel: Kernel, s: State)
      reads this, kernel
    {
      && s.owner == kernel.owner && pid in s.processes
      && var p := s.processes[pid];
         p.held == held && p.opening == NotOpening && p.memory.None? && p.saving == NotSaving
    }

    /** Idempotent: once held, nothing is asked of the kernel again.  Success is the claiming step of
        the process; a refusal leaves everything as it was, and but for an I/O error it comes exactly
        when that step is not enabled. */
    method Acquire(kernel: Kernel, opens: bool, works: bool, ghost s: State) returns (r: Result<(), LockError>)
      requires Describes(kernel, s)
      modifies this, kernel
      ensures held == r.Ok?
      ensures old(held) ==> r == Ok(())
      ensures opens && works ==> (r.Ok? <==> Grants(s, pid)) && (r.Err? ==> r == Err(VaultInUse))
      ensures r.Ok? ==>
        var claimed := Step(ClaimFirst, s, OpenClaim(pid));
        claimed.processes[pid].opening == Claimed && claimed.processes[pid].held
          && (!old(held) ==> kernel.owner == claimed.owner)
      ensures r.Err? || old(held) ==> kernel.owner == old(kernel.owner)
    {
      if held {
        return Ok(());
      }
      if !opens {
        return Err(IoFailed);
      }
      r := kernel.TakeExclusive(pid, works);
      held := r.Ok?;
    }
  }

  // ---------------------------------------------------------------- one step

  predicate Grants(s: State, pid: Pid)
    requires pid in s.processes
  {
    s.processes[pid].held || s.owner.None?
  }

  function Updated(s: State, pid: Pid, p: Process): State {
    s.(processes := s.processes[pid := p])
  }

  /** One step of one process; an action that is not enabled changes nothing. */
  function Step(order: OpenOrder, s: State, a: Action): State {
    var pid := a.pid;
    if a.Launch? then
      if pid in s.processes then s else Updated(s, pid, Process(false, NotOpening, None, None, NotSaving))
    else if pid !in s.processes then s
    else
      var p := s.processes[pid];
      match a
      case OpenClaim(_) =>
        if p.memory.Some? || p.saving != NotSaving then s
        else if order == ClaimFirst then
          if p.opening != NotOpening || !Grants(s, pid) then s
          else Updated(s, pid, p.(held := true, opening := Claimed)).(owner := Some(pid))
        else if !p.opening.HasRead? then s
        else if !Grants(s, pid) then Updated(s, pid, p.(opening := NotOpening))
        else if p.opening.seen.Torn? then Updated(s, pid, p.(held := true, opening := NotOpening)).(owner := Some(pid))
        else Updated(s, pid, p.(held := true, opening := NotOpening, memory := Some(p.opening.seen.history),
          undo := None)).(owner := Some(pid))
      case OpenRead(_) =>
        if p.memory.Some? || p.saving != NotSaving then s
        else if order == ClaimFirst then
          if p.opening != Claimed then s
          else if s.vault.Torn? then Updated(s, pid, p.(opening := NotOpening))
          else Updated(s, pid, p.(opening := NotOpening, memory := Some(s.vault.history), undo := None))
        else if p.opening != NotOpening then s
        else Updated(s, pid, p.(opening := HasRead(s.vault)))
      case OpenFails(_) => Updated(s, pid, p.(opening := NotOpening))
      case Edit(_, change, rollsBack) =>
        if p.memory.None? || p.saving != NotSaving then s
        else Updated(s, pid, p.(memory := Some(p.memory.value + [change]), undo := if rollsBack then p.memory
          else None))
      case SaveCreates(_) =>
        if p.memory.None? || p.saving != NotSaving then s
        else Updated(s, pid, p.(saving := TemporaryCreated)).(temporary := Some(Torn))
      case SaveWrites(_) =>
        if p.memory.None? || p.saving != TemporaryCreated then s
        else Updated(s, pid, p.(saving := TemporaryWritten)).(temporary := Some(Whole(p.memory.value)))
      case SaveRenames(_) =>
        if p.saving != TemporaryWritten || s.temporary.None? then s
        else Updated(s, pid, p.(saving := NotSaving, undo := None)).(vault := s.temporary.value, temporary := None)
      case SaveFails(_, removed) =>
        if p.saving == NotSaving then s
        else Updated(s, pid, p.(saving := NotSaving, undo := None, memory := if p.undo.Some? then p.undo else p.memory))
             .(temporary := if removed then None else s.temporary)
      case AutoLock(_) =>
        if p.saving != NotSaving then s else Updated(s, pid, p.(memory := None, undo := None))
      case Exit(_) =>
        s.(processes := s.processes - {pid}, owner := if s.owner == Some(pid) then None else s.owner)
  }

  function Run(order: OpenOrder, s: State, actions: seq<Action>): State
    decreases |actions|
  {
    if actions == [] then s else Run(order, Step(order, s, actions[0]), actions[1..])
  }

  /** An existing vault and no process. */
  function Initially(history: History, leftover: Option<Contents>): State {
    State(Whole(history), leftover, None, map[])
  }

  // ---------------------------------------------------------------- the invariant

  /** What holds of one process: it has a configuration in memory, or is about to read one, only
      while it holds the lock, and what it has extends what is on disk. */
  predicate ProcessInOrder(s: State, pid: Pid)
    requires pid in s.processes && s.vault.Whole?
  {
    var p := s.processes[pid];
    && (p.held <==> s.owner == Some(pid))
    && (p.memory.Some? || p.opening == Claimed ==> p.held)
    && !p.opening.HasRead?
    && (p.saving != NotSaving ==> p.memory.Some?)
    && (p.memory.Some? ==> s.vault.history <= p.memory.value)
    && (p.undo.Some? ==> p.memory.Some? && s.vault.history <= p.undo.value)
    && (p.saving == TemporaryWritten ==> s.temporary == Some(Whole(p.memory.value)))
  }

  /** The process has a decrypted configuration in memory. */
  predicate HasOpen(s: State, pid: Pid) {
    pid in s.processes && s.processes[pid].memory.Some?
  }

  ghost predicate InOrder(s: State) {
    && s.vault.Whole?
    && (s.owner.Some? ==> s.owner.value in s.processes)
    && (forall pid :: pid in s.processes ==> ProcessInOrder(s, pid))
  }

  /** Each step keeps the invariant, and never takes anything away from the history on disk. */
  lemma StepKeepsOrder(s: State, a: Action)
    requires InOrder(s)
    ensures InOrder(Step(ClaimFirst, s, a))
    ensures s.vault.history <= Step(ClaimFirst, s, a).vault.history
  {
    var s' := Step(ClaimFirst, s, a);
    if a.pid in s.processes {
      var p := s.processes[a.pid];
      assert ProcessInOrder(s, a.pid);
      forall other | other in s'.processes ensures s'.vault.Whole? && ProcessInOrder(s', other) {
        if other in s.processes { assert ProcessInOrder(s, other); }
      }
    } else {
      forall other | other in s'.processes ensures ProcessInOrder(s', other) {
        if other in s.processes { assert ProcessInOrder(s, other); }
      }
    }
  }

  // ---------------------------------------------------------------- main results

  /** In every interleaving of any number of instances, from an existing vault: the vault file is
      always a whole configuration, at most one instance has it open, and the history on disk only
      ever grows, so no saved edit is lost to another instance. */
  lemma {:induction false} NoUpdateIsLost(s: State, actions: seq<Action>)
    requires InOrder(s)
    ensures var s' := Run(ClaimFirst, s, actions);
            && InOrder(s')
            && s.vault.history <= s'.vault.history
            && (forall p, q :: HasOpen(s', p) && HasOpen(s', q) ==> p == q)
    decreases |actions|
  {
    if actions == [] {
      OneHolder(s);
    } else {
      StepKeepsOrder(s, actions[0]);
      NoUpdateIsLost(Step(ClaimFirst, s, actions[0]), actions[1..]);
    }
  }

  lemma OneHolder(s: State)
    requires InOrder(s)
    ensures forall p, q :: HasOpen(s, p) && HasOpen(s, q) ==> p == q
  {
    forall p, q | HasOpen(s, p) && HasOpen(s, q) ensures p == q {
      assert ProcessInOrder(s, p) && ProcessInOrder(s, q);
    }
  }

  lemma FromAnExistingVault(history: History, leftover: Option<Contents>, actions: seq<Action>)
    ensures InOrder(Initially(history, leftover))
    ensures var vault := Run(ClaimFirst, Initially(history, leftover), actions).vault;
            vault.Whole? && history <= vault.history
  {
    NoUpdateIsLost(Initially(history, leftover), actions);
  }

  /** What is saved is exactly what that instance had in memory, and it stays: whatever is done
      afterwards, by anyone, the file extends it. */
  lemma ASavedEditStays(s: State, pid: Pid, later: seq<Action>)
    requires InOrder(s) && pid in s.processes && s.processes[pid].saving == TemporaryWritten
    ensures var saved := Step(ClaimFirst, s, SaveRenames(pid));
            && s.processes[pid].memory.Some?
            && saved.vault == Whole(s.processes[pid].memory.value)
            && Run(ClaimFirst, saved, later).vault.Whole?
            && s.processes[pid].memory.value <= Run(ClaimFirst, saved, later).vault.history
  {
    assert ProcessInOrder(s, pid);
    StepKeepsOrder(s, SaveRenames(pid));
    NoUpdateIsLost(Step(ClaimFirst, s, SaveRenames(pid)), later);
  }

  /** The order is what does it.  If an opener read first and claimed afterwards, one instance could
      read, wait out another's whole session, and then overwrite it: the first change is saved and
      then gone. */
  lemma ReadingFirstLosesAnUpdate(history: History, first: Change, second: Change)
    ensures var opening := Run(ReadFirst, Initially(history, None), [Launch(0), OpenRead(0), Launch(1)]);
            var saved := Run(ReadFirst, opening, OneSession(1, first));
            var overwritten := Run(ReadFirst, saved, OneSession(0, second)[1..]);
            saved.vault == Whole(history + [first]) && overwritten.vault == Whole(history + [second])
  {
    var start := [Launch(0), OpenRead(0), Launch(1)];
    var s0 := Initially(history, None);
    var stale := Process(false, HasRead(Whole(history)), None, None, NotSaving);
    var s3 := s0.(processes := map[0 := stale, 1 := Process(false, NotOpening, None, None, NotSaving)]);
    Unroll(ReadFirst, s0, start);
    assert start[3..] == [];
    assert Step(ReadFirst, Step(ReadFirst, Step(ReadFirst, s0, Launch(0)), OpenRead(0)), Launch(1)) == s3;
    hide Step;
    SessionSaves(s3, 1, first, history);
    SessionSavesWhatItSaw(Run(ReadFirst, s3, OneSession(1, first)), 0, second, history);
  }

  function OneSession(pid: Pid, change: Change): seq<Action> {
    [OpenRead(pid), OpenClaim(pid), Edit(pid, change, false), SaveCreates(pid), SaveWrites(pid), SaveRenames(pid),
      Exit(pid)]
  }

  /** The first three steps of a run taken one at a time, and the rest. */
  lemma Unroll(order: OpenOrder, s: State, actions: seq<Action>)
    requires |actions| >= 3
    ensures Run(order, s, actions)
            == Run(order, Step(order, Step(order, Step(order, s, actions[0]), actions[1]), actions[2]), actions[3..])
  {
    var rest := actions[1..];
    assert rest[0] == actions[1] && rest[1..] == actions[2..];
    assert actions[2..][0] == actions[2] && actions[2..][1..] == actions[3..];
    assert Run(order, s, actions) == Run(order, Step(order, s, actions[0]), rest);
    assert Run(order, Step(order, s, actions[0]), rest)
        == Run(order, Step(order, Step(order, s, actions[0]), rest[0]), rest[1..]);
  }

  /** With nobody in the way, a session that read first saves what it read plus its change. */
  lemma SessionSaves(s: State, pid: Pid, change: Change, history: History)
    requires s.vault == Whole(history) && s.owner.None?
    requires pid in s.processes && s.processes[pid] == Process(false, NotOpening, None, None, NotSaving)
    ensures var s' := Run(ReadFirst, s, OneSession(pid, change));
            && s'.vault == Whole(history + [change]) && s'.owner.None?
            && s'.processes == s.processes - {pid}
  {
    var s' := Step(ReadFirst, s, OpenRead(pid));
    assert s'.processes[pid] == Process(false, HasRead(Whole(history)), None, None, NotSaving);
    SessionSavesWhatItSaw(s', pid, change, history);
    assert OneSession(pid, change)[0] == OpenRead(pid);
    assert s'.processes - {pid} == s.processes - {pid};
  }

  /** It saves what it read, whatever is in the file by then. */
  lemma SessionSavesWhatItSaw(s: State, pid: Pid, change: Change, seen: History)
    requires s.owner.None? && pid in s.processes
    requires s.processes[pid] == Process(false, HasRead(Whole(seen)), None, None, NotSaving)
    ensures var s' := Run(ReadFirst, s, OneSession(pid, change)[1..]);
            && s'.vault == Whole(seen + [change]) && s'.owner.None?
            && s'.processes == s.processes - {pid}
  {
    var actions := OneSession(pid, change)[1..];
    var s3 := s.(owner := Some(pid), temporary := Some(Torn),
                 processes := s.processes[pid := Process(true, NotOpening, Some(seen + [change]), None,
                   TemporaryCreated)]);
    Unroll(ReadFirst, s, actions);
    assert Step(ReadFirst, Step(ReadFirst, Step(ReadFirst, s, OpenClaim(pid)), Edit(pid, change, false)),
        SaveCreates(pid)) == s3;
    var rest := actions[3..];
    assert rest == [SaveWrites(pid), SaveRenames(pid), Exit(pid)];
    Unroll(ReadFirst, s3, rest);
    assert rest[3..] == [];
    assert s3.processes[pid := Process(true, NotOpening, Some(seen + [change]), None, NotSaving)] - {pid}
        == s.processes - {pid};
  }
}
