/**
 `write_file_atomic` (src/config/store.rs) over a file system that can lose power.

 The directory is kept as the list of its states since it was last forced to disk: the last one
 is what a running process sees, and a crash may land on any of them.  A file whose contents were
 written but not forced to disk may read back as anything at all after a crash.
 */
module AtomicWrite {
  import opened Wrappers
  import opened Format

  type Path = string

  type Directory = map<Path, nat>

  datatype Inode = Inode(content: seq<Byte>, durable: bool)

  datatype Fs = Fs(inodes: map<nat, Inode>, dirs: seq<Directory>)

  ghost predicate WellFormed(fs: Fs) {
    && fs.dirs != []
    && (forall d, p :: d in fs.dirs && p in d ==> d[p] in fs.inodes)
  }

  function Live(fs: Fs): Directory
    requires fs.dirs != []
  {
    fs.dirs[|fs.dirs| - 1]
  }

  /** What a running process reads at `path`. */
  function Read(fs: Fs, path: Path): Option<seq<Byte>>
    requires WellFormed(fs)
  {
    if path in Live(fs) then
      assert Live(fs) in fs.dirs;
      Some(fs.inodes[Live(fs)[path]].content)
    else None
  }

  /** `v` is what the next process may read at `path` if the machine loses power now. */
  ghost predicate Survives(fs: Fs, path: Path, v: Option<seq<Byte>>)
    requires WellFormed(fs)
  {
    exists d :: d in fs.dirs && SurvivesIn(fs, d, path, v)
  }

  ghost predicate SurvivesIn(fs: Fs, d: Directory, path: Path, v: Option<seq<Byte>>)
    requires path in d ==> d[path] in fs.inodes
  {
    if path in d then v.Some? && (fs.inodes[d[path]].durable ==> v.value == fs.inodes[d[path]].content)
    else v.None?
  }

  /** A crash now leaves one of the values in `allowed` at `path`; with whole files in `allowed`,
      never a fragment. */
  ghost predicate CrashLeaves(fs: Fs, path: Path, allowed: set<Option<seq<Byte>>>)
    requires WellFormed(fs)
  {
    forall v :: Survives(fs, path, v) ==> v in allowed
  }

  /** No directory state a crash could land on links `path` to inode `i`. */
  ghost predicate Unlinked(fs: Fs, path: Path, i: nat) {
    forall d :: d in fs.dirs && path in d ==> d[path] != i
  }

  function TmpSibling(path: Path): Path {
    path + ".tmp"
  }

  /** The vault and its temporary sibling are never two names of one file. */
  ghost predicate Separate(fs: Fs, path: Path) {
    forall d :: d in fs.dirs && path in d && TmpSibling(path) in d ==> d[path] != d[TmpSibling(path)]
  }

  /** What the writer finds: whatever a leftover temporary file is, it is not the vault itself. */
  ghost predicate Ready(fs: Fs, path: Path) {
    && WellFormed(fs)
    && Separate(fs, path)
    && (TmpSibling(path) in Live(fs) ==> Unlinked(fs, path, Live(fs)[TmpSibling(path)]))
  }

  // ---------------------------------------------------------------- one system call each

  function FreshInode(fs: Fs): (i: nat)
    ensures i !in fs.inodes
  {
    Above(fs.inodes.Keys)
  }

  function Above(keys: set<nat>): (i: nat)
    ensures forall k :: k in keys ==> k < i
  {
    if keys == {} then 0
    else
      var m := MaxOf(keys); m + 1
  }

  function MaxOf(keys: set<nat>): (m: nat)
    requires keys != {}
    ensures m in keys && forall k :: k in keys ==> k <= m
  {
    MaxExists(keys);
    var m :| m in keys && forall k :: k in keys ==> k <= m;
    m
  }

  lemma MaxExists(keys: set<nat>)
    requires keys != {}
    ensures exists m :: m in keys && forall k :: k in keys ==> k <= m
  {
    var x :| x in keys;
    var rest := keys - {x};
    if rest != {} {
      MaxExists(rest);
      var m :| m in rest && forall k :: k in rest ==> k <= m;
      assert forall k :: k in keys ==> k == x || k in rest;
      if m < x { assert x in keys; } else { assert m in keys; }
    } else {
      assert keys == {x};
    }
  }

  /** Creates `path`, or truncates the file already there. */
  function Created(fs: Fs, path: Path): Fs
    requires WellFormed(fs)
  {
    if path in Live(fs) then
      fs.(inodes := fs.inodes[Live(fs)[path] := Inode([], false)])
    else
      var i := FreshInode(fs);
      Fs(fs.inodes[i := Inode([], false)], fs.dirs + [Live(fs)[path := i]])
  }

  function Written(fs: Fs, i: nat, content: seq<Byte>): Fs {
    fs.(inodes := fs.inodes[i := Inode(content, false)])
  }

  function Synced(fs: Fs, i: nat): Fs
    requires i in fs.inodes
  {
    fs.(inodes := fs.inodes[i := fs.inodes[i].(durable := true)])
  }

  function Renamed(fs: Fs, from: Path, to: Path): Fs
    requires WellFormed(fs) && from in Live(fs)
  {
    fs.(dirs := fs.dirs + [(Live(fs) - {from})[to := Live(fs)[from]]])
  }

  function Removed(fs: Fs, path: Path): Fs
    requires WellFormed(fs)
  {
    fs.(dirs := fs.dirs + [Live(fs) - {path}])
  }

  function DirSynced(fs: Fs): Fs
    requires WellFormed(fs)
  {
    fs.(dirs := [Live(fs)])
  }

  // ---------------------------------------------------------------- why each call is safe

  /** Nothing done to a file the vault's name never pointed at can be seen there. */
  lemma RewritingAnUnlinkedInode(fs: Fs, path: Path, i: nat, inode: Inode, allowed: set<Option<seq<Byte>>>)
    requires WellFormed(fs) && Unlinked(fs, path, i) && CrashLeaves(fs, path, allowed)
    ensures var after := fs.(inodes := fs.inodes[i := inode]);
            WellFormed(after) && Unlinked(after, path, i) && CrashLeaves(after, path, allowed)
            && Read(after, path) == Read(fs, path)
  {
    var after := fs.(inodes := fs.inodes[i := inode]);
    forall v | Survives(after, path, v) ensures v in allowed {
      var d :| d in after.dirs && SurvivesIn(after, d, path, v);
      assert SurvivesIn(fs, d, path, v);
    }
    assert Live(fs) in fs.dirs;
  }

  /** A new directory state that keeps the vault's name where it was adds nothing to see. */
  lemma RelinkingAnotherName(fs: Fs, path: Path, d: Directory, allowed: set<Option<seq<Byte>>>)
    requires WellFormed(fs) && CrashLeaves(fs, path, allowed)
    requires forall p :: p in d ==> d[p] in fs.inodes
    requires if path in d then path in Live(fs) && d[path] == Live(fs)[path] else path !in Live(fs)
    ensures var after := fs.(dirs := fs.dirs + [d]);
            WellFormed(after) && CrashLeaves(after, path, allowed) && Read(after, path) == Read(fs, path)
  {
    var after := fs.(dirs := fs.dirs + [d]);
    assert Live(fs) in fs.dirs;
    forall v | Survives(after, path, v) ensures v in allowed {
      var e :| e in after.dirs && SurvivesIn(after, e, path, v);
      if e == d {
        assert SurvivesIn(fs, Live(fs), path, v);
      } else {
        assert SurvivesIn(fs, e, path, v);
      }
    }
  }

  lemma CreatingTheTemporary(fs: Fs, path: Path, allowed: set<Option<seq<Byte>>>)
    requires Ready(fs, path) && CrashLeaves(fs, path, allowed)
    ensures var tmp := TmpSibling(path);
            var after := Created(fs, tmp);
            && WellFormed(after) && CrashLeaves(after, path, allowed) && Read(after, path) == Read(fs, path)
            && tmp in Live(after) && Unlinked(after, path, Live(after)[tmp]) && Separate(after, path)
  {
    var tmp := TmpSibling(path);
    assert tmp != path by { assert |tmp| == |path| + 4; }
    assert Live(fs) in fs.dirs;
    if tmp in Live(fs) {
      RewritingAnUnlinkedInode(fs, path, Live(fs)[tmp], Inode([], false), allowed);
    } else {
      var i := FreshInode(fs);
      RewritingAnUnlinkedInode(fs, path, i, Inode([], false), allowed);
      var grown := fs.(inodes := fs.inodes[i := Inode([], false)]);
      RelinkingAnotherName(grown, path, Live(fs)[tmp := i], allowed);
    }
  }

  /** The rename publishes a file that is already on disk in full, so it adds exactly the new
      contents to what a crash may leave. */
  lemma RenamingOntoTheVault(fs: Fs, path: Path, content: seq<Byte>, allowed: set<Option<seq<Byte>>>)
    requires WellFormed(fs) && TmpSibling(path) in Live(fs) && CrashLeaves(fs, path, allowed)
    requires Live(fs)[TmpSibling(path)] in fs.inodes && fs.inodes[Live(fs)[TmpSibling(path)]] == Inode(content, true)
    ensures var after := Renamed(fs, TmpSibling(path), path);
            && WellFormed(after) && CrashLeaves(after, path, allowed + {Some(content)})
            && Read(after, path) == Some(content)
  {
    var tmp := TmpSibling(path);
    var d := (Live(fs) - {tmp})[path := Live(fs)[tmp]];
    var after := fs.(dirs := fs.dirs + [d]);
    assert Live(fs) in fs.dirs;
    assert after == Renamed(fs, tmp, path);
    forall v | Survives(after, path, v) ensures v in allowed + {Some(content)} {
      var e :| e in after.dirs && SurvivesIn(after, e, path, v);
      if e == d {
        assert v == Some(content);
      } else {
        assert SurvivesIn(fs, e, path, v);
      }
    }
  }

  /** Why the contents are forced to disk before the rename: without that, a crash after it could
      leave anything whatever under the vault's name. */
  lemma RenamingBeforeTheSyncTears(fs: Fs, path: Path, content: seq<Byte>, torn: seq<Byte>)
    requires WellFormed(fs) && TmpSibling(path) in Live(fs)
    requires Live(fs)[TmpSibling(path)] in fs.inodes && fs.inodes[Live(fs)[TmpSibling(path)]] == Inode(content, false)
    ensures var after := Renamed(fs, TmpSibling(path), path);
            WellFormed(after) && Survives(after, path, Some(torn))
  {
    var after := Renamed(fs, TmpSibling(path), path);
    assert Live(fs) in fs.dirs;
    var d := Live(after);
    assert d in after.dirs && SurvivesIn(after, d, path, Some(torn));
  }

  // ---------------------------------------------------------------- the code

  /** A disk, with the list of every state it has been in. */
  class Disk {
    var fs: Fs
    var states: seq<Fs>

    constructor (fs: Fs)
      ensures this.fs == fs && states == [fs]
    {
      this.fs := fs;
      states := [fs];
    }

    method Become(next: Fs)
      modifies this
      ensures fs == next && states == old(states) + [next]
    {
      fs := next;
      states := states + [next];
    }
  }

  /** How the system calls of one write come out.  `written` is `None` when every byte went out,
      else how many did before the error. */
  datatype Outcomes = Outcomes(
    directoryReady: bool,
    created: bool,
    permissionsSet: bool,
    written: Option<nat>,
    synced: bool,
    renamed: bool,
    temporaryRemoved: bool,
    directorySynced: bool)
  {
    predicate AllWell() {
      directoryReady && created && permissionsSet && written.None? && synced && renamed
    }
  }

  /** Every state the disk went through since `start` can be crashed in safely. */
  ghost predicate SafeSince(states: seq<Fs>, start: nat, path: Path, allowed: set<Option<seq<Byte>>>) {
    forall k :: start <= k < |states| ==>
      WellFormed(states[k]) && Separate(states[k], path) && CrashLeaves(states[k], path, allowed)
  }

  /** No other name moved. */
  ghost predicate SameElsewhere(before: Fs, after: Fs, path: Path)
    requires WellFormed(before) && WellFormed(after)
  {
    Live(before) - {path, TmpSibling(path)} == Live(after) - {path, TmpSibling(path)}
  }

  /** The temporary file is being written and the vault's name has not been touched. */
  ghost predicate Writing(before: Fs, now: Fs, path: Path, allowed: set<Option<seq<Byte>>>)
    requires WellFormed(before)
  {
    && WellFormed(now) && Separate(now, path) && CrashLeaves(now, path, allowed)
    && TmpSibling(path) in Live(now) && Live(now)[TmpSibling(path)] in now.inodes
    && Unlinked(now, path, Live(now)[TmpSibling(path)])
    && Read(now, path) == Read(before, path) && SameElsewhere(before, now, path)
  }

  method RemoveTemporary(disk: Disk, path: Path, removed: bool, ghost before: Fs, ghost allowed: set<Option<seq<Byte>>>)
    requires WellFormed(before) && Writing(before, disk.fs, path, allowed)
    modifies disk
    ensures Ready(disk.fs, path) && CrashLeaves(disk.fs, path, allowed)
    ensures Read(disk.fs, path) == Read(before, path) && SameElsewhere(before, disk.fs, path)
    ensures TmpSibling(path) in Live(disk.fs) <==> !removed
    ensures disk.states == old(disk.states) + if removed then [disk.fs] else []
  {
    if removed {
      assert TmpSibling(path) != path by { assert |TmpSibling(path)| == |path| + 4; }
      assert Live(disk.fs) in disk.fs.dirs;
      RelinkingAnotherName(disk.fs, path, Live(disk.fs) - {TmpSibling(path)}, allowed);
      disk.Become(Removed(disk.fs, TmpSibling(path)));
    }
  }

  /** Opens the temporary file: created, or truncated if one was left over. */
  method CreateTemporary(disk: Disk, path: Path, ghost allowed: set<Option<seq<Byte>>>)
    requires Ready(disk.fs, path) && CrashLeaves(disk.fs, path, allowed)
    modifies disk
    ensures Writing(old(disk.fs), disk.fs, path, allowed)
    ensures disk.states == old(disk.states) + [disk.fs]
  {
    CreatingTheTemporary(disk.fs, path, allowed);
    disk.Become(Created(disk.fs, TmpSibling(path)));
    assert Live(disk.fs) in disk.fs.dirs;
  }

  method FillTemporary(disk: Disk, path: Path, content: seq<Byte>, durable: bool, ghost before: Fs,
      ghost allowed: set<Option<seq<Byte>>>)
    requires WellFormed(before) && Writing(before, disk.fs, path, allowed)
    requires durable ==> disk.fs.inodes[Live(disk.fs)[TmpSibling(path)]].content == content
    modifies disk
    ensures Writing(before, disk.fs, path, allowed)
    ensures disk.fs.inodes[Live(disk.fs)[TmpSibling(path)]] == Inode(content, durable)
    ensures disk.states == old(disk.states) + [disk.fs]
  {
    var file := Live(disk.fs)[TmpSibling(path)];
    RewritingAnUnlinkedInode(disk.fs, path, file, Inode(content, durable), allowed);
    disk.Become(if durable then Synced(disk.fs, file) else Written(disk.fs, file, content));
  }

  method Publish(disk: Disk, path: Path, bytes: seq<Byte>, ghost before: Fs, ghost allowed: set<Option<seq<Byte>>>)
    requires WellFormed(before) && Writing(before, disk.fs, path, allowed)
    requires disk.fs.inodes[Live(disk.fs)[TmpSibling(path)]] == Inode(bytes, true)
    modifies disk
    ensures Ready(disk.fs, path) && CrashLeaves(disk.fs, path, allowed + {Some(bytes)})
    ensures Read(disk.fs, path) == Some(bytes) && SameElsewhere(before, disk.fs, path)
    ensures TmpSibling(path) !in Live(disk.fs) && path in Live(disk.fs)
    ensures disk.fs.inodes[Live(disk.fs)[path]] == Inode(bytes, true)
    ensures disk.states == old(disk.states) + [disk.fs]
  {
    assert TmpSibling(path) != path by { assert |TmpSibling(path)| == |path| + 4; }
    RenamingOntoTheVault(disk.fs, path, bytes, allowed);
    assert Live(disk.fs) in disk.fs.dirs;
    disk.Become(Renamed(disk.fs, TmpSibling(path), path));
  }

  /** The scope in which the temporary file is open: created, filled and forced to disk, or given
      up. */
  method PrepareTemporary(disk: Disk, path: Path, bytes: seq<Byte>, o: Outcomes, ghost before: set<Option<seq<Byte>>>)
    returns (ok: bool)
    requires Ready(disk.fs, path) && CrashLeaves(disk.fs, path, before)
    modifies disk
    ensures ok == (o.created && o.permissionsSet && o.written.None? && o.synced)
    ensures ok ==> Writing(old(disk.fs), disk.fs, path, before)
                   && disk.fs.inodes[Live(disk.fs)[TmpSibling(path)]] == Inode(bytes, true)
    ensures !ok ==> Ready(disk.fs, path) && CrashLeaves(disk.fs, path, before)
                    && Read(disk.fs, path) == Read(old(disk.fs), path) && SameElsewhere(old(disk.fs), disk.fs, path)
    ensures old(disk.states) <= disk.states && SafeSince(disk.states, |old(disk.states)|, path, before)
  {
    hide CrashLeaves, Read, Separate;
    ghost var was := disk.fs;
    if !o.created {
      return false;
    }
    CreateTemporary(disk, path, before);
    if !o.permissionsSet {
      return false;
    }
    var sent := if o.written.Some? && o.written.value < |bytes| then bytes[..o.written.value] else bytes;
    FillTemporary(disk, path, sent, false, was, before);
    if o.written.Some? || !o.synced {
      RemoveTemporary(disk, path, o.temporaryRemoved, was, before);
      return false;
    }
    FillTemporary(disk, path, bytes, true, was, before);
    return true;
  }

  /** In every state it passes through, a crash leaves something a crash could already have left
      before, or the complete new bytes.  It returns success exactly when every call that matters
      worked; then the new bytes are in place, otherwise the old ones still are, whatever a
      leftover temporary file held.  Once the directory has been forced to disk as well, only the
      new bytes can be found. */
  method WriteFileAtomic(disk: Disk, path: Path, bytes: seq<Byte>, o: Outcomes, ghost before: set<Option<seq<Byte>>>)
    returns (ok: bool)
    requires Ready(disk.fs, path) && CrashLeaves(disk.fs, path, before)
    modifies disk
    ensures Ready(disk.fs, path)
    ensures ok == o.AllWell()
    ensures Read(disk.fs, path) == if ok then Some(bytes) else Read(old(disk.fs), path)
    ensures old(disk.states) <= disk.states
    ensures SafeSince(disk.states, |old(disk.states)|, path, before + if ok then {Some(bytes)} else {})
    ensures CrashLeaves(disk.fs, path, before + if ok then {Some(bytes)} else {})
    ensures ok && o.directorySynced ==> CrashLeaves(disk.fs, path, {Some(bytes)})
    ensures ok ==> TmpSibling(path) !in Live(disk.fs)
    ensures SameElsewhere(old(disk.fs), disk.fs, path)
  {
    ghost var was, start := disk.fs, |disk.states|;
    if !o.directoryReady {
      return false;
    }
    ok := PrepareTemporary(disk, path, bytes, o, before);
    if !ok {
      return;
    }
    if !o.renamed {
      RemoveTemporary(disk, path, o.temporaryRemoved, was, before);
      return false;
    }
    MoreAllowed(disk.states, start, path, before, Some(bytes));
    Publish(disk, path, bytes, was, before);
    if o.directorySynced {
      disk.Become(DirSynced(disk.fs));
    }
    return true;
  }

  lemma MoreAllowed(states: seq<Fs>, start: nat, path: Path, allowed: set<Option<seq<Byte>>>, v: Option<seq<Byte>>)
    requires SafeSince(states, start, path, allowed)
    ensures SafeSince(states, start, path, allowed + {v})
  {
  }

  // ---------------------------------------------------------------- losing power

  /** Power is lost in `fs` and the machine starts again in `next`: some directory state since the
      last sync, and of every file what was forced to disk, or anything at all. */
  ghost predicate PowerLost(fs: Fs, next: Fs) {
    && |next.dirs| == 1 && next.dirs[0] in fs.dirs
    && next.inodes.Keys == fs.inodes.Keys
    && forall i :: i in fs.inodes ==>
         next.inodes[i].durable && (fs.inodes[i].durable ==> next.inodes[i] == fs.inodes[i])
  }

  /** The writer can start again on whatever is left, and finds something a crash could leave. */
  lemma PowerLossIsSurvived(fs: Fs, next: Fs, path: Path, allowed: set<Option<seq<Byte>>>)
    requires WellFormed(fs) && Separate(fs, path) && CrashLeaves(fs, path, allowed) && PowerLost(fs, next)
    ensures Ready(next, path) && Read(next, path) in allowed
    ensures CrashLeaves(next, path, {Read(next, path)})
  {
    var d := next.dirs[0];
    forall e, p | e in next.dirs && p in e ensures e[p] in next.inodes {
      assert e in fs.dirs;
    }
    assert forall e :: e in next.dirs ==> e == d;
    assert SurvivesIn(fs, d, path, Read(next, path));
    assert Survives(fs, path, Read(next, path));
  }

  /** One write of a lifetime.  `lost` is how many of its steps are taken before the power goes. */
  datatype Turn = Turn(bytes: seq<Byte>, outcomes: Outcomes, lost: Option<nat>)

  /** What the vault may hold after these writes: once a write was completed and synced only its
      bytes, otherwise also what it may have held before. */
  function MayHold(start: set<Option<seq<Byte>>>, turns: seq<Turn>): set<Option<seq<Byte>>> {
    if turns == [] then start
    else
      var last, before := turns[|turns| - 1], MayHold(start, turns[..|turns| - 1]);
      if !last.outcomes.AllWell() then before
      else if last.lost.None? && last.outcomes.directorySynced then {Some(last.bytes)}
      else before + {Some(last.bytes)}
  }

  /** Over a lifetime of writes, failures and power losses at any step the vault is always one of the
      whole files written, and never older than the last one known to be on disk. */
  method Lifetime(disk: Disk, path: Path, turns: seq<Turn>, crash: Fs -> Fs, start: set<Option<seq<Byte>>>)
    requires Ready(disk.fs, path) && CrashLeaves(disk.fs, path, start) && Read(disk.fs, path) in start
    requires forall fs :: WellFormed(fs) ==> PowerLost(fs, crash(fs))
    modifies disk
    ensures Ready(disk.fs, path) && CrashLeaves(disk.fs, path, MayHold(start, turns))
    ensures Read(disk.fs, path) in MayHold(start, turns)
  {
    var i := 0;
    while i < |turns|
      invariant i <= |turns|
      invariant Ready(disk.fs, path) && CrashLeaves(disk.fs, path, MayHold(start, turns[..i]))
      invariant Read(disk.fs, path) in MayHold(start, turns[..i])
    {
      assert turns[..i + 1][..i] == turns[..i];
      OneTurn(disk, path, turns[i], crash, MayHold(start, turns[..i]));
      i := i + 1;
    }
    assert turns[..i] == turns;
  }

  method OneTurn(disk: Disk, path: Path, turn: Turn, crash: Fs -> Fs, before: set<Option<seq<Byte>>>)
    requires Ready(disk.fs, path) && CrashLeaves(disk.fs, path, before) && Read(disk.fs, path) in before
    requires forall fs :: WellFormed(fs) ==> PowerLost(fs, crash(fs))
    modifies disk
    ensures var after := if !turn.outcomes.AllWell() then before
                         else if turn.lost.None? && turn.outcomes.directorySynced then {Some(turn.bytes)}
                         else before + {Some(turn.bytes)};
            Ready(disk.fs, path) && CrashLeaves(disk.fs, path, after) && Read(disk.fs, path) in after
  {
    hide Read;
    var was, start := disk.fs, |disk.states|;
    var ok := WriteFileAtomic(disk, path, turn.bytes, turn.outcomes, before);
    var allowed := before + if ok then {Some(turn.bytes)} else {};
    if turn.lost.Some? {
      var at := if turn.lost.value == 0 || |disk.states| == start then was
                else if turn.lost.value <= |disk.states| - start then disk.states[start + turn.lost.value - 1]
                else disk.states[|disk.states| - 1];
      assert WellFormed(at) && Separate(at, path) && CrashLeaves(at, path, allowed);
      PowerLossIsSurvived(at, crash(at), path, allowed);
      disk.Become(crash(at));
    }
  }
}
