/**
 * Atomic file writes over a file system with a volatile and a durable side.
 *
 * A file's bytes are durable once it has been flushed; a directory's entries once the directory
 * has been.  After a crash the directory is any version it has had since its last flush, and a
 * file that was never flushed holds anything at all.
 */
module AtomicIo {
  import opened Prelude

  datatype Inode = Inode(text: string, mode: int, synced: bool)

  /** `past` are the directory's versions since its last flush, before the present one. */
  datatype Fs = Fs(inodes: map<nat, Inode>, dir: map<string, nat>, past: seq<map<string, nat>>)

  predicate Wellformed(fs: Fs) {
    && (forall n :: n in fs.dir ==> fs.dir[n] in fs.inodes)
    && (forall i, n :: 0 <= i < |fs.past| && n in fs.past[i] ==> fs.past[i][n] in fs.inodes)
  }

  function Read(fs: Fs, name: string): Option<string>
    requires Wellformed(fs)
  {
    if name in fs.dir then Some(fs.inodes[fs.dir[name]].text) else None
  }

  /** After a crash in a directory version, `name` may hold `o`. */
  predicate VersionMayHold(inodes: map<nat, Inode>, v: map<string, nat>, name: string, o: Option<string>) {
    if name in v && v[name] in inodes then
      o.Some? && (inodes[v[name]].synced ==> o.value == inodes[v[name]].text)
    else o == None
  }

  /** A crash now may leave `name` holding `o`. */
  predicate MayHold(fs: Fs, name: string, o: Option<string>) {
    || VersionMayHold(fs.inodes, fs.dir, name, o)
    || exists i :: 0 <= i < |fs.past| && VersionMayHold(fs.inodes, fs.past[i], name, o)
  }

  /** With everything flushed a crash changes nothing. */
  lemma FlushedHoldsWhatIsRead(fs: Fs, name: string, o: Option<string>)
    requires Wellformed(fs) && fs.past == [] && (name in fs.dir ==> fs.inodes[fs.dir[name]].synced)
    ensures MayHold(fs, name, o) <==> o == Read(fs, name)
  {
  }

  // ---- the system calls -----------------------------------------------------

  function WithDir(fs: Fs, dir: map<string, nat>): Fs { fs.(dir := dir, past := fs.past + [fs.dir]) }

  /** A new empty file under a new name. */
  function Create(fs: Fs, tmp: string, ino: nat, mode: int): Fs {
    WithDir(fs.(inodes := fs.inodes[ino := Inode("", mode, false)]), fs.dir[tmp := ino])
  }

  function SetInode(fs: Fs, ino: nat, node: Inode): Fs { fs.(inodes := fs.inodes[ino := node]) }

  function Replace(fs: Fs, tmp: string, target: string): Fs
    requires tmp in fs.dir
  {
    WithDir(fs, (fs.dir - {tmp})[target := fs.dir[tmp]])
  }

  function Unlink(fs: Fs, tmp: string): Fs { WithDir(fs, fs.dir - {tmp}) }

  function FlushDir(fs: Fs): Fs { fs.(past := []) }

  // ---- what a write in progress keeps ---------------------------------------

  /** `fs` is `start` with at most the temporary file added: nothing `start` had has changed, and
      every version of the directory gives the target what some version of `start` gave it. */
  ghost predicate Beside(start: Fs, fs: Fs, tmp: string, ino: nat) {
    && Wellformed(fs)
    && ino !in start.inodes && tmp !in start.dir
    && fs.inodes - {ino} == start.inodes
    && fs.dir - {tmp} == start.dir && (tmp in fs.dir ==> fs.dir[tmp] == ino)
    && |fs.past| >= |start.past| && fs.past[..|start.past|] == start.past
    && (forall i :: |start.past| <= i < |fs.past| ==> fs.past[i] - {tmp} == start.dir)
  }

  lemma BesideVersion(start: Fs, fs: Fs, tmp: string, ino: nat, v: map<string, nat>, u: map<string, nat>,
                      name: string, o: Option<string>)
    requires Wellformed(start) && ino !in start.inodes && fs.inodes - {ino} == start.inodes && name != tmp
    requires v - {tmp} == u && (name in u ==> u[name] in start.inodes)
    ensures VersionMayHold(fs.inodes, v, name, o) <==> VersionMayHold(start.inodes, u, name, o)
  {
    assert name in v <==> name in v - {tmp};
    if name in u {
      assert u[name] in fs.inodes - {ino};
      assert (fs.inodes - {ino})[u[name]] == fs.inodes[u[name]];
    }
  }

  lemma BesidePast(start: Fs, fs: Fs, tmp: string, ino: nat, name: string, o: Option<string>, i: nat)
    requires Wellformed(start) && Beside(start, fs, tmp, ino) && name != tmp && i < |start.past|
    ensures fs.past[i] == start.past[i]
    ensures VersionMayHold(fs.inodes, fs.past[i], name, o) <==> VersionMayHold(start.inodes, start.past[i], name, o)
  {
    assert fs.past[..|start.past|][i] == fs.past[i];
    var v := start.past[i];
    if name in v {
      assert v[name] in start.inodes;
      assert v[name] in fs.inodes - {ino};
      assert (fs.inodes - {ino})[v[name]] == fs.inodes[v[name]];
    }
  }

  /** A crash before the replace finds under any other name what it would have found at the start. */
  lemma BesideMayHold(start: Fs, fs: Fs, tmp: string, ino: nat, name: string, o: Option<string>)
    requires Wellformed(start) && Beside(start, fs, tmp, ino) && name != tmp
    ensures MayHold(fs, name, o) <==> MayHold(start, name, o)
  {
    BesideVersion(start, fs, tmp, ino, fs.dir, start.dir, name, o);
    if i :| 0 <= i < |fs.past| && VersionMayHold(fs.inodes, fs.past[i], name, o) {
      if i < |start.past| {
        BesidePast(start, fs, tmp, ino, name, o, i);
      } else {
        BesideVersion(start, fs, tmp, ino, fs.past[i], start.dir, name, o);
      }
    }
    if i :| 0 <= i < |start.past| && VersionMayHold(start.inodes, start.past[i], name, o) {
      BesidePast(start, fs, tmp, ino, name, o, i);
    }
  }

  lemma BesideRead(start: Fs, fs: Fs, tmp: string, ino: nat, name: string)
    requires Wellformed(start) && Beside(start, fs, tmp, ino) && name != tmp
    ensures Read(fs, name) == Read(start, name)
  {
    assert name in fs.dir <==> name in fs.dir - {tmp};
    if name in start.dir {
      assert (fs.dir - {tmp})[name] == fs.dir[name];
      var k := start.dir[name];
      assert k in fs.inodes - {ino};
      assert (fs.inodes - {ino})[k] == fs.inodes[k];
    }
  }

  lemma CreateBeside(start: Fs, tmp: string, ino: nat, mode: int)
    requires Wellformed(start) && ino !in start.inodes && tmp !in start.dir
    ensures Beside(start, Create(start, tmp, ino, mode), tmp, ino)
  {
    var fs := Create(start, tmp, ino, mode);
    assert fs.inodes - {ino} == start.inodes;
    assert fs.dir - {tmp} == start.dir;
    assert start.dir - {tmp} == start.dir;
  }

  lemma SetInodeBeside(start: Fs, fs: Fs, tmp: string, ino: nat, node: Inode)
    requires Beside(start, fs, tmp, ino) && ino in fs.inodes
    ensures Beside(start, SetInode(fs, ino, node), tmp, ino)
  {
    assert SetInode(fs, ino, node).inodes - {ino} == fs.inodes - {ino};
  }

  lemma UnlinkBeside(start: Fs, fs: Fs, tmp: string, ino: nat)
    requires Beside(start, fs, tmp, ino)
    ensures Beside(start, Unlink(fs, tmp), tmp, ino)
  {
    var t := Unlink(fs, tmp);
    assert t.dir - {tmp} == fs.dir - {tmp};
    assert t.past[..|start.past|] == fs.past[..|start.past|];
  }

  /** Once the flushed file has replaced the target, a crash finds the old or the whole new text. */
  lemma ReplaceMayHold(start: Fs, fs: Fs, tmp: string, ino: nat, target: string, o: Option<string>)
    requires Wellformed(start) && Beside(start, fs, tmp, ino) && target != tmp
    requires tmp in fs.dir && ino in fs.inodes && fs.inodes[ino].synced
    ensures var t := Replace(fs, tmp, target);
      MayHold(t, target, o) <==> MayHold(start, target, o) || o == Some(fs.inodes[ino].text)
  {
    var t := Replace(fs, tmp, target);
    BesideMayHold(start, fs, tmp, ino, target, o);
    assert t.past == fs.past + [fs.dir];
    assert VersionMayHold(t.inodes, t.dir, target, o) <==> o == Some(fs.inodes[ino].text);
    if i :| 0 <= i < |t.past| && VersionMayHold(t.inodes, t.past[i], target, o) {
      assert i < |fs.past| ==> t.past[i] == fs.past[i];
    }
    if i :| 0 <= i < |fs.past| && VersionMayHold(fs.inodes, fs.past[i], target, o) {
      assert t.past[i] == fs.past[i];
    }
    assert t.past[|fs.past|] == fs.dir;
  }

  lemma ReplaceElsewhere(start: Fs, fs: Fs, tmp: string, ino: nat, target: string, name: string)
    requires Wellformed(start) && Beside(start, fs, tmp, ino) && target != tmp && tmp in fs.dir
    ensures Wellformed(Replace(fs, tmp, target)) && Read(Replace(fs, tmp, target), target) == Some(fs.inodes[ino].text)
    ensures name != tmp && name != target ==> Read(Replace(fs, tmp, target), name) == Read(start, name)
    ensures tmp !in Replace(fs, tmp, target).dir
  {
    var t := Replace(fs, tmp, target);
    assert t.past == fs.past + [fs.dir];
    if name != tmp && name != target {
      BesideRead(start, fs, tmp, ino, name);
    }
  }

  /** Flushing the directory leaves one version. */
  lemma FlushMayHold(fs: Fs, target: string, text: string, o: Option<string>)
    requires Wellformed(fs) && target in fs.dir && fs.inodes[fs.dir[target]] == Inode(text, fs.inodes[fs.dir[target]].mode, true)
    ensures MayHold(FlushDir(fs), target, o) <==> o == Some(text)
  {
  }

  // ---- the write --------------------------------------------------------------

  /** Which system calls succeed; a failing write may have put down `partial` characters. */
  datatype Calls = Calls(mkstemp: bool, chmod: bool, write: bool, partial: nat, fsync: bool, replace: bool,
                         unlink: bool, dirOpen: bool, dirSync: bool)

  predicate Replaces(c: Calls) { c.mkstemp && c.chmod && c.write && c.fsync && c.replace }
  predicate Settles(c: Calls) { Replaces(c) && c.dirOpen && c.dirSync }

  const DEFAULT_MODE := 420

  /** The mode asked for, else the target's own, else 0o644. */
  function Permissions(fs: Fs, target: string, mode: Option<int>): int
    requires Wellformed(fs)
  {
    if mode.Some? then mode.value
    else if target in fs.dir then fs.inodes[fs.dir[target]].mode
    else DEFAULT_MODE
  }

  /** A crash in `t` finds in `target` what a crash in `start` could have found, or all of `text`. */
  ghost predicate OldOrNew(start: Fs, t: Fs, target: string, text: string) {
    forall o :: MayHold(t, target, o) ==> MayHold(start, target, o) || o == Some(text)
  }

  ghost predicate SameAfterCrash(start: Fs, t: Fs, target: string) {
    forall o :: MayHold(t, target, o) <==> MayHold(start, target, o)
  }

  lemma BesideIsSafe(start: Fs, fs: Fs, tmp: string, ino: nat, target: string, text: string)
    requires Wellformed(start) && Beside(start, fs, tmp, ino) && target != tmp
    ensures OldOrNew(start, fs, target, text) && SameAfterCrash(start, fs, target) && Read(fs, target) == Read(start, target)
  {
    forall o ensures MayHold(fs, target, o) <==> MayHold(start, target, o) {
      BesideMayHold(start, fs, tmp, ino, target, o);
    }
    BesideRead(start, fs, tmp, ino, target);
  }

  class Disk {
    var fs: Fs
    /** Every state the file system has been in. */
    ghost var trace: seq<Fs>

    constructor (start: Fs)
      ensures fs == start && trace == [start]
    {
      fs, trace := start, [start];
    }

    ghost predicate SafeSince(mark: nat, start: Fs, target: string, text: string)
      reads this
    {
      mark <= |trace| && forall i :: mark <= i < |trace| ==> OldOrNew(start, trace[i], target, text)
    }

    method Call(next: Fs)
      modifies this
      ensures fs == next && trace == old(trace) + [next]
    {
      fs, trace := next, trace + [next];
    }

    /** A call that only concerns the temporary file. */
    method CallBeside(next: Fs, ghost start: Fs, ghost mark: nat, ghost tmp: string, ghost ino: nat,
                      ghost target: string, ghost text: string)
      requires Wellformed(start) && Beside(start, next, tmp, ino) && target != tmp
      requires SafeSince(mark, start, target, text)
      modifies this
      ensures fs == next && trace == old(trace) + [next] && SafeSince(mark, start, target, text)
    {
      BesideIsSafe(start, next, tmp, ino, target, text);
      hide Beside, OldOrNew, Wellformed;
      Call(next);
    }

    /** `chmod`, `write`, `flush`, `fsync`: ends at the first that fails. */
    method Fill(tmp: string, ino: nat, text: string, perm: int, c: Calls, ghost start: Fs, ghost mark: nat,
                ghost target: string) returns (ok: bool)
      requires Wellformed(start) && Beside(start, fs, tmp, ino) && ino in fs.inodes && tmp in fs.dir && target != tmp
      requires SafeSince(mark, start, target, text)
      modifies this
      ensures Beside(start, fs, tmp, ino) && fs.dir == old(fs).dir && fs.past == old(fs).past && ino in fs.inodes
      ensures SafeSince(mark, start, target, text) && old(trace) <= trace
      ensures ok <==> c.chmod && c.write && c.fsync
      ensures ok ==> fs.inodes[ino] == Inode(text, perm, true)
    {
      hide Beside, OldOrNew, Wellformed, SafeSince;
      if !c.chmod {
        return false;
      }
      SetInodeBeside(start, fs, tmp, ino, fs.inodes[ino].(mode := perm));
      CallBeside(SetInode(fs, ino, fs.inodes[ino].(mode := perm)), start, mark, tmp, ino, target, text);
      var written := if c.write then text else text[..if c.partial <= |text| then c.partial else |text|];
      SetInodeBeside(start, fs, tmp, ino, Inode(written, perm, false));
      CallBeside(SetInode(fs, ino, Inode(written, perm, false)), start, mark, tmp, ino, target, text);
      if !c.write {
        return false;
      }
      SetInodeBeside(start, fs, tmp, ino, Inode(text, perm, c.fsync));
      CallBeside(SetInode(fs, ino, Inode(text, perm, c.fsync)), start, mark, tmp, ino, target, text);
      return c.fsync;
    }

    /** Old or new, whole, at every moment; an exception exactly when the replace did not happen. */
    method AtomicWriteText(target: string, text: string, mode: Option<int>, tmp: string, ino: nat, c: Calls)
      returns (raised: bool)
      requires Wellformed(fs) && tmp !in fs.dir && ino !in fs.inodes && tmp != target
      modifies this
      ensures Wellformed(fs) && old(trace) <= trace && SafeSince(|old(trace)|, old(fs), target, text)
      ensures raised <==> !(c.mkstemp && c.chmod && c.write && c.fsync && c.replace)
      ensures raised ==> Read(fs, target) == Read(old(fs), target) && SameAfterCrash(old(fs), fs, target)
      ensures !raised ==> Read(fs, target) == Some(text) && OldOrNew(old(fs), fs, target, text)
      ensures !raised ==> target in fs.dir
      ensures !raised && mode.Some? ==> fs.inodes[fs.dir[target]].mode == mode.value
      ensures !raised && mode.None? && target in old(fs).dir ==>
        fs.inodes[fs.dir[target]].mode == old(fs).inodes[old(fs).dir[target]].mode
      ensures !raised && mode.None? && target !in old(fs).dir ==> fs.inodes[fs.dir[target]].mode == 0x1a4
      ensures !raised && c.dirOpen && c.dirSync ==> forall o :: MayHold(fs, target, o) <==> o == Some(text)
      ensures !raised || c.unlink || !c.mkstemp ==> tmp !in fs.dir
      ensures forall name :: name != target && name != tmp ==> Read(fs, name) == Read(old(fs), name)
    {
      ghost var start, mark := fs, |trace|;
      var perm := Permissions(fs, target, mode);
      if !c.mkstemp {
        return true;
      }
      CreateBeside(start, tmp, ino, 384);
      CallBeside(Create(fs, tmp, ino, 384), start, mark, tmp, ino, target, text);
      var ok := Fill(tmp, ino, text, perm, c, start, mark, target);
      if ok && c.replace {
        Commit(tmp, ino, text, perm, c, start, mark, target);
        return false;
      }
      if c.unlink {
        UnlinkBeside(start, fs, tmp, ino);
        CallBeside(Unlink(fs, tmp), start, mark, tmp, ino, target, text);
      }
      BesideIsSafe(start, fs, tmp, ino, target, text);
      OthersRead(start, fs, tmp, ino);
      return true;
    }

    /** `os.replace`, then the best-effort flush of the directory, which never raises. */
    method Commit(tmp: string, ino: nat, text: string, perm: int, c: Calls, ghost start: Fs, ghost mark: nat,
                  target: string)
      requires Wellformed(start) && Beside(start, fs, tmp, ino) && ino in fs.inodes && tmp in fs.dir && target != tmp
      requires fs.inodes[ino] == Inode(text, perm, true)
      requires SafeSince(mark, start, target, text)
      modifies this
      ensures Wellformed(fs) && old(trace) <= trace && SafeSince(mark, start, target, text)
      ensures OldOrNew(start, fs, target, text)
      ensures Read(fs, target) == Some(text) && target in fs.dir && fs.inodes[fs.dir[target]].mode == perm
      ensures tmp !in fs.dir && forall name :: name != target && name != tmp ==> Read(fs, name) == Read(start, name)
      ensures c.dirOpen && c.dirSync ==> forall o :: MayHold(fs, target, o) <==> o == Some(text)
    {
      CommitFacts(start, fs, tmp, ino, target, text, perm);
      hide Beside, OldOrNew, Wellformed, MayHold, Read;
      Call(Replace(fs, tmp, target));
      if c.dirOpen && c.dirSync {
        Call(FlushDir(fs));
      }
    }
  }

  lemma OthersRead(start: Fs, fs: Fs, tmp: string, ino: nat)
    requires Wellformed(start) && Beside(start, fs, tmp, ino)
    ensures forall name :: name != tmp ==> Read(fs, name) == Read(start, name)
  {
    forall name | name != tmp ensures Read(fs, name) == Read(start, name) {
      BesideRead(start, fs, tmp, ino, name);
    }
  }

  lemma CommitFacts(start: Fs, fs: Fs, tmp: string, ino: nat, target: string, text: string, perm: int)
    requires Wellformed(start) && Beside(start, fs, tmp, ino) && ino in fs.inodes && tmp in fs.dir && target != tmp
    requires fs.inodes[ino] == Inode(text, perm, true)
    ensures var t := Replace(fs, tmp, target); var u := FlushDir(t);
      && Wellformed(t) && Wellformed(u)
      && OldOrNew(start, t, target, text) && OldOrNew(start, u, target, text)
      && (forall o :: MayHold(u, target, o) <==> o == Some(text))
      && Read(t, target) == Some(text) && Read(u, target) == Some(text)
      && t.dir == u.dir && t.inodes == u.inodes && target in t.dir && t.dir[target] in t.inodes && t.inodes[t.dir[target]].mode == perm
      && tmp !in t.dir
      && forall name :: name != target && name != tmp ==> Read(t, name) == Read(start, name) && Read(u, name) == Read(start, name)
  {
    var t := Replace(fs, tmp, target);
    var u := FlushDir(t);
    forall o ensures MayHold(t, target, o) ==> MayHold(start, target, o) || o == Some(text) {
      ReplaceMayHold(start, fs, tmp, ino, target, o);
    }
    ReplaceElsewhere(start, fs, tmp, ino, target, target);
    forall o ensures MayHold(u, target, o) <==> o == Some(text) {
      FlushMayHold(t, target, text, o);
    }
    forall name | name != target && name != tmp ensures Read(t, name) == Read(start, name) && Read(u, name) == Read(t, name) {
      ReplaceElsewhere(start, fs, tmp, ino, target, name);
    }
  }
}
