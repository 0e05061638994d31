/**
 * The inbound folder as interleaved steps: any number of uploads being published, any number of
 * sweeps, and whatever else touches the directories in between.
 *
 * Each step is one system call or one lock operation.  `Inject`, `Delete` and `Tamper` are the
 * rest of the machine: they may put any entry under any name, at any moment.
 */
module InboxFolder {
  import opened Prelude
  import opened InboxNames

  const CAP_BYTES := 8 * 1024 * 1024
  const MAX_BYTES := 200 * 1024 * 1024
  const MAX_FILES := 50
  const RETENTION_S := 604800.0

  type Bytes = seq<int>

  datatype Entry =
    | File(links: nat, data: Bytes)
    | Other(dir: bool, extent: nat)

  function Size(e: Entry): nat { if e.File? then |e.data| else e.extent }
  predicate IsDir(e: Entry) { e.Other? && e.dir }

  /** A regular file with one link. */
  predicate Plain(e: Entry) { e.File? && e.links == 1 }

  datatype Outcome = Stored | TooLarge | Mismatch | Full | StorageFailed | Uncertain

  datatype Phase =
    | Entering
    | Writing(written: nat)
    | Flushed
    | Locked
    | Scanning
    | Cleared
    | Checked
    | Renamed
    | Refused(why: Outcome)
    | Visible
    | Retracting
    | Leaving(result: Outcome)
    | Done(outcome: Outcome)

  /** One call of `publish`: whether the content policy accepts its bytes, the name the rename gave it,
      and whether the folder was flushed after that. */
  datatype Upload = Upload(data: Bytes, ext: string, accepted: bool, phase: Phase, name: Option<string>, flushed: bool)

  /** One sweep: its clock reading, the listing it has still to visit, and the entry it is about to remove. */
  datatype Sweep = Sweep(now: real, left: set<string>, doomed: Option<(string, Entry)>)

  datatype State = State(
    clock: real,
    ready: map<string, Entry>,
    staging: map<nat, Entry>,
    lock: Option<nat>,
    uploads: map<nat, Upload>,
    sweeps: map<nat, Sweep>,
    // the lock holder's quota scan
    left: set<string>, count: nat, total: nat, seen: map<string, nat>,
    // what happened so far
    minted: map<string, nat>, stamp: map<string, nat>,
    touched: set<string>, stirred: set<string>, spoilt: set<nat>, stuck: set<nat>,
    retracted: set<string>, swept: map<string, real>)

  datatype Step =
    | Stage(p: nat, stage: StageAct)
    | Critical(p: nat, critical: CriticalAct)
    | Finish(p: nat, finish: FinishAct)
    | Sweeping(w: nat, sweep: SweepAct)
    | World(world: WorldAct)

  /** `publish` up to the lock: the part is created, written and flushed. */
  datatype StageAct =
    | Begin(data: Bytes, ext: string, accepted: bool)
    | OpenPart(created: bool)
    | WriteSome(n: nat)
    | WriteFails(unlinked: bool)
    | FlushPart

  /** The critical section. */
  datatype CriticalAct =
    | TakeLock
    | ListReady
    | StatEntry(name: string)
    | Decide
    | CheckPart(readable: bool)
    | Rename(token: string, renamed: bool)
    | Release

  datatype FinishAct =
    | FlushReady(flushed: bool)
    | Retract(unlinked: bool)
    | Cleanup(unlinked: bool)

  datatype SweepAct =
    | List(now: real)
    | Look(name: string)
    | Remove(removed: bool)

  datatype WorldAct =
    | Tick(dt: real)
    | Inject(name: string, entry: Entry)
    | Delete(name: string)
    | Tamper(p: nat, part: Option<Entry>)

  predicate In(us: map<nat, Upload>, p: nat, phase: Phase) { p in us && us[p].phase == phase }

  function To(us: map<nat, Upload>, p: nat, phase: Phase): map<nat, Upload>
    requires p in us
  {
    us[p := us[p].(phase := phase)]
  }

  // ---- the steps ----------------------------------------------------------

  /** Size and content are checked before anything is written. */
  function DoBegin(s: State, p: nat, data: Bytes, ext: string, accepted: bool): State {
    if p in s.uploads then s
    else s.(uploads := s.uploads[p := Upload(data, ext, accepted,
        if |data| > CAP_BYTES then Done(TooLarge)
        else if !Allowed(ext) || !accepted then Done(Mismatch)
        else Entering, None, false)])
  }

  /** `O_CREAT | O_EXCL`: a part that is already there fails the open. */
  function DoOpenPart(s: State, p: nat, ok: bool): State {
    if !In(s.uploads, p, Entering) then s
    else if ok && p !in s.staging then
      s.(staging := s.staging[p := File(1, [])], uploads := To(s.uploads, p, Writing(0)))
    else s.(uploads := To(s.uploads, p, Leaving(StorageFailed)))
  }

  /** A write may take fewer bytes than it was given.  The descriptor writes to the file it opened,
      whatever now has its name. */
  function DoWriteSome(s: State, p: nat, n: nat): State {
    if p in s.uploads && s.uploads[p].phase.Writing? && s.uploads[p].phase.written + n <= |s.uploads[p].data| then
      var w := s.uploads[p].phase.written + n;
      s.(uploads := To(s.uploads, p, Writing(w)),
         staging := if p in s.staging && p !in s.spoilt
           then s.staging[p := File(1, s.uploads[p].data[..w])] else s.staging)
    else s
  }

  function DoWriteFails(s: State, p: nat, unlinked: bool): State {
    if p in s.uploads && s.uploads[p].phase.Writing? then
      s.(uploads := To(s.uploads, p, Leaving(StorageFailed)),
         staging := if unlinked then s.staging - {p} else s.staging)
    else s
  }

  function DoFlushPart(s: State, p: nat): State {
    if p in s.uploads && s.uploads[p].phase == Writing(|s.uploads[p].data|) then
      s.(uploads := To(s.uploads, p, Flushed))
    else s
  }

  function DoTakeLock(s: State, p: nat): State {
    if In(s.uploads, p, Flushed) && s.lock == None then
      s.(uploads := To(s.uploads, p, Locked), lock := Some(p))
    else s
  }

  function DoListReady(s: State, p: nat): State {
    if In(s.uploads, p, Locked) then
      s.(uploads := To(s.uploads, p, Scanning), left := s.ready.Keys, count := 0, total := 0, seen := map[],
         stirred := {})
    else s
  }

  /** An entry that vanished since the listing is skipped. */
  function DoStatEntry(s: State, p: nat, name: string): State {
    if In(s.uploads, p, Scanning) && name in s.left then
      var there := name in s.ready;
      s.(left := s.left - {name},
         count := s.count + (if there then 1 else 0),
         total := s.total + (if there then Size(s.ready[name]) else 0),
         seen := if there then s.seen[name := Size(s.ready[name])] else s.seen)
    else s
  }

  function DoDecide(s: State, p: nat): State {
    if In(s.uploads, p, Scanning) && s.left == {} then
      s.(uploads := To(s.uploads, p,
           if s.count < MAX_FILES && s.total + |s.uploads[p].data| <= MAX_BYTES then Cleared else Refused(Full)))
    else s
  }

  /** The final `fstat` of the staged file. */
  function DoCheckPart(s: State, p: nat, ok: bool): State {
    if In(s.uploads, p, Cleared) then
      s.(uploads := To(s.uploads, p,
           if ok && p in s.staging && Plain(s.staging[p]) && Size(s.staging[p]) == |s.uploads[p].data|
           then Checked else Refused(StorageFailed)))
    else s
  }

  /** The stamp is the clock in whole milliseconds; the random token makes the name a new one. */
  function MintName(s: State, p: nat, token: string): string
    requires p in s.uploads && s.clock >= 0.0
  {
    NewName((s.clock * 1000.0).Floor, token, s.uploads[p].ext)
  }

  predicate FreshName(s: State, name: string) {
    name !in s.ready && name !in s.minted && name !in s.touched
  }

  predicate CanRename(s: State, p: nat, token: string) {
    In(s.uploads, p, Checked) && s.clock >= 0.0 && Token(token) && FreshName(s, MintName(s, p, token))
  }

  function DoRename(s: State, p: nat, token: string, ok: bool): State {
    if !CanRename(s, p, token) then s
    else if ok && p in s.staging then
      var name := MintName(s, p, token);
      s.(uploads := s.uploads[p := s.uploads[p].(phase := Renamed, name := Some(name))],
         ready := s.ready[name := s.staging[p]], staging := s.staging - {p},
         minted := s.minted[name := p], stamp := s.stamp[name := (s.clock * 1000.0).Floor])
    else s.(uploads := To(s.uploads, p, Refused(StorageFailed)))
  }

  function DoRelease(s: State, p: nat): State {
    if p in s.uploads && (s.uploads[p].phase.Renamed? || s.uploads[p].phase.Refused?) then
      s.(uploads := To(s.uploads, p,
           if s.uploads[p].phase.Renamed? then Visible else Leaving(s.uploads[p].phase.why)),
         lock := None)
    else s
  }

  function DoFlushReady(s: State, p: nat, ok: bool): State {
    if In(s.uploads, p, Visible) then
      s.(uploads := s.uploads[p := s.uploads[p].(phase := if ok then Done(Stored) else Retracting, flushed := ok)])
    else s
  }

  function DoRetract(s: State, p: nat, ok: bool): State {
    if In(s.uploads, p, Retracting) && s.uploads[p].name.Some? then
      var name := s.uploads[p].name.value;
      s.(uploads := To(s.uploads, p, Done(Uncertain)),
         ready := if ok then s.ready - {name} else s.ready,
         retracted := if ok then s.retracted + {name} else s.retracted)
    else s
  }

  function DoCleanup(s: State, p: nat, ok: bool): State {
    if p in s.uploads && s.uploads[p].phase.Leaving? then
      s.(uploads := To(s.uploads, p, Done(s.uploads[p].phase.result)),
         staging := if ok then s.staging - {p} else s.staging,
         stuck := if ok then s.stuck else s.stuck + {p})
    else s
  }

  function DoSweepList(s: State, w: nat, now: real): State {
    if w !in s.sweeps && now <= s.clock then
      s.(sweeps := s.sweeps[w := Sweep(now, s.ready.Keys, None)])
    else s
  }

  predicate Expired(name: string, now: real) {
    Parse(name).Some? && now - Parse(name).value.ms as real / 1000.0 >= RETENTION_S
  }

  /** What a sweep removes: anything but a young plain file under one of Casa's names. */
  predicate Condemned(name: string, st: Entry, now: real) {
    !Plain(st) || !CasaName(name) || Expired(name, now)
  }

  function DoSweepLook(s: State, w: nat, name: string): State {
    if w in s.sweeps && s.sweeps[w].doomed == None && name in s.sweeps[w].left then
      s.(sweeps := s.sweeps[w := s.sweeps[w].(left := s.sweeps[w].left - {name},
           doomed := if name in s.ready && Condemned(name, s.ready[name], s.sweeps[w].now)
             then Some((name, s.ready[name])) else None)])
    else s
  }

  /** A directory is removed as a tree, anything else unlinked, by what the entry was when looked at. */
  function DoSweepRemove(s: State, w: nat, ok: bool): State {
    if w in s.sweeps && s.sweeps[w].doomed.Some? then
      var (name, st) := s.sweeps[w].doomed.value;
      var gone := ok && name in s.ready && IsDir(s.ready[name]) == IsDir(st);
      s.(sweeps := s.sweeps[w := s.sweeps[w].(doomed := None)],
         ready := if gone then s.ready - {name} else s.ready,
         swept := if gone then s.swept[name := s.sweeps[w].now] else s.swept)
    else s
  }

  function DoInject(s: State, name: string, entry: Entry): State {
    s.(ready := s.ready[name := entry], touched := s.touched + {name}, stirred := s.stirred + {name})
  }

  function DoDelete(s: State, name: string): State {
    s.(ready := s.ready - {name}, touched := s.touched + {name})
  }

  function DoTamper(s: State, p: nat, part: Option<Entry>): State {
    s.(staging := if part.Some? then s.staging[p := part.value] else s.staging - {p}, spoilt := s.spoilt + {p})
  }

  function ApplyStage(s: State, p: nat, a: StageAct): State {
    match a
    case Begin(data, ext, accepted) => DoBegin(s, p, data, ext, accepted)
    case OpenPart(ok) => DoOpenPart(s, p, ok)
    case WriteSome(n) => DoWriteSome(s, p, n)
    case WriteFails(unlinked) => DoWriteFails(s, p, unlinked)
    case FlushPart => DoFlushPart(s, p)
  }

  function ApplyCritical(s: State, p: nat, a: CriticalAct): State {
    match a
    case TakeLock => DoTakeLock(s, p)
    case ListReady => DoListReady(s, p)
    case StatEntry(name) => DoStatEntry(s, p, name)
    case Decide => DoDecide(s, p)
    case CheckPart(ok) => DoCheckPart(s, p, ok)
    case Rename(token, ok) => DoRename(s, p, token, ok)
    case Release => DoRelease(s, p)
  }

  function ApplyFinish(s: State, p: nat, a: FinishAct): State {
    match a
    case FlushReady(ok) => DoFlushReady(s, p, ok)
    case Retract(ok) => DoRetract(s, p, ok)
    case Cleanup(ok) => DoCleanup(s, p, ok)
  }

  function ApplySweep(s: State, w: nat, a: SweepAct): State {
    match a
    case List(now) => DoSweepList(s, w, now)
    case Look(name) => DoSweepLook(s, w, name)
    case Remove(ok) => DoSweepRemove(s, w, ok)
  }

  function ApplyWorld(s: State, a: WorldAct): State {
    match a
    case Tick(dt) => if dt >= 0.0 then s.(clock := s.clock + dt) else s
    case Inject(name, entry) => DoInject(s, name, entry)
    case Delete(name) => DoDelete(s, name)
    case Tamper(p, part) => DoTamper(s, p, part)
  }

  function Apply(s: State, a: Step): State {
    match a
    case Stage(p, act) => ApplyStage(s, p, act)
    case Critical(p, act) => ApplyCritical(s, p, act)
    case Finish(p, act) => ApplyFinish(s, p, act)
    case Sweeping(w, act) => ApplySweep(s, w, act)
    case World(act) => ApplyWorld(s, act)
  }

  function Run(s: State, steps: seq<Step>): State
    decreases |steps|
  {
    if steps == [] then s else Apply(Run(s, steps[..|steps| - 1]), steps[|steps| - 1])
  }

  /** A process that starts over a folder with anything in it. */
  predicate Init(s: State) {
    && s.clock >= 0.0 && s.lock == None && s.uploads == map[] && s.sweeps == map[] && s.staging == map[]
    && s.minted == map[] && s.stamp == map[] && s.touched == s.ready.Keys && s.stirred == {}
    && s.spoilt == {} && s.stuck == {} && s.retracted == {} && s.swept == map[]
  }
}
