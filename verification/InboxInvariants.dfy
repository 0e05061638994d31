/** What every step of the folder keeps. */
module InboxInvariants {
  import opened Prelude
  import opened InboxNames
  import opened InboxFolder

  // ---- sizes ----------------------------------------------------------------

  ghost function Total(m: map<string, nat>): nat {
    if m == map[] then 0 else var k :| k in m; m[k] + Total(m - {k})
  }

  lemma {:induction false} TotalRemove(m: map<string, nat>, k: string)
    requires k in m
    ensures Total(m) == m[k] + Total(m - {k})
    decreases |m|
  {
    var j :| j in m && Total(m) == m[j] + Total(m - {j});
    if j != k {
      TotalRemove(m - {j}, k);
      assert m - {j} - {k} == m - {k} - {j};
      TotalRemove(m - {k}, j);
    }
  }

  lemma TotalAdd(m: map<string, nat>, k: string, v: nat)
    requires k !in m
    ensures Total(m[k := v]) == Total(m) + v
  {
    TotalRemove(m[k := v], k);
    assert m[k := v] - {k} == m;
  }

  lemma {:induction false} TotalWithin(a: map<string, nat>, b: map<string, nat>)
    requires a.Keys <= b.Keys && forall k :: k in a ==> a[k] == b[k]
    ensures Total(a) <= Total(b) && |a| <= |b|
    decreases |a|
  {
    if a != map[] {
      var k :| k in a;
      TotalRemove(a, k);
      TotalRemove(b, k);
      assert |a| == |a - {k}| + 1 && |b| == |b - {k}| + 1 by {
        OneLess(a, k);
        OneLess(b, k);
      }
      hide Total;
      TotalWithin(a - {k}, b - {k});
    }
  }

  lemma OneLess(m: map<string, nat>, k: string)
    requires k in m
    ensures |m| == |m - {k}| + 1
  {
    assert m.Keys == (m - {k}).Keys + {k};
  }

  // ---- the invariants -------------------------------------------------------

  predicate Holding(ph: Phase) {
    ph.Locked? || ph.Scanning? || ph.Cleared? || ph.Checked? || ph.Renamed? || ph.Refused?
  }

  predicate Named(ph: Phase) {
    ph.Renamed? || ph.Visible? || ph.Retracting? || ph == Done(Stored) || ph == Done(Uncertain)
  }

  predicate Ends(o: Outcome) { o == Full || o == StorageFailed }

  predicate UploadOk(u: Upload) {
    && (u.name.Some? <==> Named(u.phase))
    && (u.phase == Done(TooLarge) <==> |u.data| > CAP_BYTES)
    && (u.phase == Done(Mismatch) <==> |u.data| <= CAP_BYTES && !(Allowed(u.ext) && u.accepted))
    && (u.flushed <==> u.phase == Done(Stored))
    && (u.phase.Refused? ==> Ends(u.phase.why))
    && (u.phase.Leaving? ==> Ends(u.phase.result))
    && (u.phase.Writing? ==> u.phase.written <= |u.data|)
  }

  /** What staging holds for an upload, `part` being the entry under its name. */
  predicate PartOk(u: Upload, part: Option<Entry>, stuck: bool) {
    && (u.phase.Entering? ==> part == None)
    && (u.phase.Writing? && u.phase.written <= |u.data| ==> part == Some(File(1, u.data[..u.phase.written])))
    && (u.phase.Flushed? || u.phase.Locked? || Counting(u.phase) ==> part == Some(File(1, u.data)))
    && (Named(u.phase) || u.phase == Done(TooLarge) || u.phase == Done(Mismatch) ==> part == None)
    && (u.phase.Done? ==> part == None || stuck)
  }

  function Part(staging: map<nat, Entry>, p: nat): Option<Entry> {
    if p in staging then Some(staging[p]) else None
  }

  /** Everything that is to be said of one upload by itself; only the holder of the lock is inside
      the critical section. */
  predicate Own(us: map<nat, Upload>, p: nat, lock: Option<nat>, staging: map<nat, Entry>,
                spoilt: set<nat>, stuck: set<nat>) {
    if p !in us then lock != Some(p) && (p in staging ==> p in spoilt)
    else
      && UploadOk(us[p])
      && (Holding(us[p].phase) <==> lock == Some(p))
      && (p in spoilt || PartOk(us[p], Part(staging, p), p in stuck))
  }

  ghost predicate InvOwn(us: map<nat, Upload>, lock: Option<nat>, staging: map<nat, Entry>,
                         spoilt: set<nat>, stuck: set<nat>) {
    forall p: nat :: Own(us, p, lock, staging, spoilt, stuck)
  }

  /** Names and uploads are one to one. */
  predicate InvMinted(us: map<nat, Upload>, minted: map<string, nat>) {
    && (forall n :: n in minted ==> minted[n] in us && us[minted[n]].name == Some(n))
    && (forall p :: p in us && us[p].name.Some? ==> us[p].name.value in minted && minted[us[p].name.value] == p)
  }

  ghost predicate MintedAs(n: string, ms: nat, ext: string) {
    Allowed(ext) && exists token :: Token(token) && n == NewName(ms, token, ext)
  }

  ghost predicate InvStamp(us: map<nat, Upload>, minted: map<string, nat>, stamp: map<string, nat>, clock: real) {
    && clock >= 0.0
    && (forall n :: n in minted ==> n in stamp && stamp[n] as real <= clock * 1000.0)
    && (forall n :: n in minted && minted[n] in us && n in stamp ==> MintedAs(n, stamp[n], us[minted[n]].ext))
  }

  predicate InvKnown(ready: map<string, Entry>, minted: map<string, nat>, touched: set<string>) {
    forall n :: n in ready ==> n in minted || n in touched
  }

  /** Before the clock outgrows the 13 digits of a stamp (in the year 2286). */
  predicate Era(clock: real) { clock < 10_000_000_000.0 }

  predicate TooOld(stamp: map<string, nat>, n: string, now: real) {
    n in stamp && now - stamp[n] as real / 1000.0 >= RETENTION_S
  }

  /** A sweep is about to remove a file of Casa's only for its age. */
  predicate SweepOk(v: Sweep, clock: real, minted: map<string, nat>, stamp: map<string, nat>,
                    touched: set<string>, spoilt: set<nat>) {
    && v.now <= clock
    && (v.doomed.Some? ==>
          var n := v.doomed.value.0;
          && (n in minted || n in touched)
          && (n in touched || minted[n] in spoilt || !Era(clock) || TooOld(stamp, n, v.now)))
  }

  predicate InvSweeps(sweeps: map<nat, Sweep>, clock: real, minted: map<string, nat>, stamp: map<string, nat>,
                      touched: set<string>, spoilt: set<nat>) {
    forall w :: w in sweeps ==> SweepOk(sweeps[w], clock, minted, stamp, touched, spoilt)
  }

  /** What is gone stays gone, unless someone else puts an entry there. */
  ghost predicate InvGone(ready: map<string, Entry>, minted: map<string, nat>, touched: set<string>,
                          retracted: set<string>, swept: map<string, real>) {
    forall n :: n in retracted || n in swept ==> n in touched || (n in minted && n !in ready)
  }

  /** The fate of a published file: in its place, withdrawn by its own upload, or swept for its age. */
  predicate Fate(n: string, u: Upload, ready: map<string, Entry>, clock: real, stamp: map<string, nat>,
                 retracted: set<string>, swept: map<string, real>) {
    || (n in ready && ready[n] == File(1, u.data))
    || (n in retracted && u.phase == Done(Uncertain))
    || (n in swept && swept[n] <= clock && (!Era(clock) || TooOld(stamp, n, swept[n])))
  }

  ghost predicate InvFate(us: map<nat, Upload>, ready: map<string, Entry>, clock: real,
                          minted: map<string, nat>, stamp: map<string, nat>, touched: set<string>, spoilt: set<nat>,
                          retracted: set<string>, swept: map<string, real>) {
    forall n :: n in minted && minted[n] in us ==>
      n in touched || minted[n] in spoilt || Fate(n, us[minted[n]], ready, clock, stamp, retracted, swept)
  }

  ghost predicate ScanOk(ready: map<string, Entry>, left: set<string>, count: nat, total: nat,
                         seen: map<string, nat>, stirred: set<string>) {
    && left !! seen.Keys
    && |seen| == count && Total(seen) == total
    && forall n :: n in ready ==> n in stirred || n in left || (n in seen && seen[n] == Size(ready[n]))
  }

  predicate Counting(ph: Phase) { ph.Scanning? || ph.Cleared? || ph.Checked? }

  /** The lock holder's scan has counted, at its present size, every entry it has left behind that
      nobody put there since. */
  ghost predicate InvScan(us: map<nat, Upload>, lock: Option<nat>, ready: map<string, Entry>, left: set<string>,
                          count: nat, total: nat, seen: map<string, nat>, stirred: set<string>) {
    lock.Some? && lock.value in us && Counting(us[lock.value].phase) ==>
      && ScanOk(ready, left, count, total, seen, stirred)
      && (!us[lock.value].phase.Scanning? ==>
            left == {} && count < MAX_FILES && total + |us[lock.value].data| <= MAX_BYTES)
  }

  ghost predicate Inv(s: State) {
    && InvOwn(s.uploads, s.lock, s.staging, s.spoilt, s.stuck)
    && InvMinted(s.uploads, s.minted)
    && InvStamp(s.uploads, s.minted, s.stamp, s.clock)
    && InvKnown(s.ready, s.minted, s.touched)
    && InvSweeps(s.sweeps, s.clock, s.minted, s.stamp, s.touched, s.spoilt)
    && InvGone(s.ready, s.minted, s.touched, s.retracted, s.swept)
    && InvFate(s.uploads, s.ready, s.clock, s.minted, s.stamp, s.touched, s.spoilt, s.retracted, s.swept)
    && InvScan(s.uploads, s.lock, s.ready, s.left, s.count, s.total, s.seen, s.stirred)
  }

  // ---- an upload's steps concern itself ---------------------------------------

  predicate OwnAt(s: State, p: nat) { Own(s.uploads, p, s.lock, s.staging, s.spoilt, s.stuck) }

  lemma WriteOwn(s: State, p: nat, n: nat)
    requires OwnAt(s, p)
    ensures OwnAt(DoWriteSome(s, p, n), p)
  {
    hide Allowed;
  }

  lemma OpenOwn(s: State, p: nat, ok: bool)
    requires OwnAt(s, p)
    ensures OwnAt(DoOpenPart(s, p, ok), p)
  {
    hide Allowed;
  }

  lemma WriteFailsOwn(s: State, p: nat, unlinked: bool)
    requires OwnAt(s, p)
    ensures OwnAt(DoWriteFails(s, p, unlinked), p)
  {
    hide Allowed;
  }

  lemma FlushOwn(s: State, p: nat)
    requires OwnAt(s, p)
    ensures OwnAt(DoFlushPart(s, p), p)
  {
    hide Allowed;
    assert p in s.uploads ==> s.uploads[p].data[..|s.uploads[p].data|] == s.uploads[p].data;
  }

  lemma StageOwn(s: State, p: nat, a: StageAct)
    requires OwnAt(s, p)
    ensures OwnAt(ApplyStage(s, p, a), p)
  {
    hide DoBegin, DoOpenPart, DoWriteSome, DoWriteFails, DoFlushPart, Own;
    match a {
      case Begin(data, ext, accepted) => BeginOwn(s, p, data, ext, accepted);
      case OpenPart(ok) => OpenOwn(s, p, ok);
      case WriteSome(n) => WriteOwn(s, p, n);
      case WriteFails(unlinked) => WriteFailsOwn(s, p, unlinked);
      case FlushPart => FlushOwn(s, p);
    }
  }

  lemma BeginOwn(s: State, p: nat, data: Bytes, ext: string, accepted: bool)
    requires OwnAt(s, p)
    ensures OwnAt(DoBegin(s, p, data, ext, accepted), p)
  {
    hide Allowed;
  }

  lemma RenameOwn(s: State, p: nat, token: string, ok: bool)
    requires OwnAt(s, p)
    ensures OwnAt(DoRename(s, p, token, ok), p)
  {
    hide MintName, FreshName, Allowed;
  }

  lemma ReleaseOwn(s: State, p: nat)
    requires OwnAt(s, p)
    ensures OwnAt(DoRelease(s, p), p)
  {
    hide Allowed;
  }

  lemma CriticalOwn(s: State, p: nat, a: CriticalAct)
    requires OwnAt(s, p)
    ensures OwnAt(ApplyCritical(s, p, a), p)
  {
    hide DoRename, DoRelease, Allowed;
    if a.Rename? {
      RenameOwn(s, p, a.token, a.renamed);
    } else if a.Release? {
      ReleaseOwn(s, p);
    }
  }

  lemma FinishOwn(s: State, p: nat, a: FinishAct)
    requires OwnAt(s, p)
    ensures OwnAt(ApplyFinish(s, p, a), p)
  {
    hide Allowed;
  }

  function Lookup(us: map<nat, Upload>, p: nat): Option<Upload> { if p in us then Some(us[p]) else None }

  /** What every step but the renaming and the retracting leaves alone. */
  predicate SameFolder(s: State, t: State) {
    && t.ready == s.ready && t.clock == s.clock && t.sweeps == s.sweeps
    && t.minted == s.minted && t.stamp == s.stamp && t.touched == s.touched && t.spoilt == s.spoilt
    && t.retracted == s.retracted && t.swept == s.swept
  }

  predicate SameScan(s: State, t: State) {
    t.left == s.left && t.count == s.count && t.total == s.total && t.seen == s.seen && t.stirred == s.stirred
  }

  /** Nothing of upload `q` differs. */
  predicate Aside(s: State, t: State, q: nat) {
    && Lookup(t.uploads, q) == Lookup(s.uploads, q)
    && Part(t.staging, q) == Part(s.staging, q)
    && (q in t.stuck <==> q in s.stuck)
    && (t.lock == Some(q) <==> s.lock == Some(q))
  }

  predicate StagedAside(s: State, t: State, p: nat, q: nat) {
    SameFolder(s, t) && SameScan(s, t) && t.lock == s.lock && (q != p ==> Aside(s, t, q))
  }

  lemma BeginAside(s: State, p: nat, data: Bytes, ext: string, accepted: bool, q: nat)
    ensures StagedAside(s, DoBegin(s, p, data, ext, accepted), p, q)
  {
    hide Allowed;
  }

  lemma OpenAside(s: State, p: nat, ok: bool, q: nat)
    ensures StagedAside(s, DoOpenPart(s, p, ok), p, q)
  {
  }

  lemma WriteAside(s: State, p: nat, n: nat, q: nat)
    ensures StagedAside(s, DoWriteSome(s, p, n), p, q)
  {
  }

  lemma WriteFailsAside(s: State, p: nat, unlinked: bool, q: nat)
    ensures StagedAside(s, DoWriteFails(s, p, unlinked), p, q)
  {
  }

  lemma FlushAside(s: State, p: nat, q: nat)
    ensures StagedAside(s, DoFlushPart(s, p), p, q)
  {
  }

  lemma StageAside(s: State, p: nat, a: StageAct, q: nat)
    ensures SameFolder(s, ApplyStage(s, p, a)) && SameScan(s, ApplyStage(s, p, a))
    ensures ApplyStage(s, p, a).lock == s.lock
    ensures q != p ==> Aside(s, ApplyStage(s, p, a), q)
  {
    hide DoBegin, DoOpenPart, DoWriteSome, DoWriteFails, DoFlushPart;
    match a {
      case Begin(data, ext, accepted) => BeginAside(s, p, data, ext, accepted, q);
      case OpenPart(ok) => OpenAside(s, p, ok, q);
      case WriteSome(n) => WriteAside(s, p, n, q);
      case WriteFails(unlinked) => WriteFailsAside(s, p, unlinked, q);
      case FlushPart => FlushAside(s, p, q);
    }
  }

  lemma FinishAside(s: State, p: nat, a: FinishAct, q: nat)
    ensures a.Retract? || SameFolder(s, ApplyFinish(s, p, a))
    ensures SameScan(s, ApplyFinish(s, p, a)) && ApplyFinish(s, p, a).lock == s.lock
    ensures q != p ==> Aside(s, ApplyFinish(s, p, a), q)
  {
  }

  lemma CriticalAside(s: State, p: nat, a: CriticalAct, q: nat)
    requires OwnAt(s, p)
    ensures a.Rename? || SameFolder(s, ApplyCritical(s, p, a))
    ensures q != p ==> Aside(s, ApplyCritical(s, p, a), q)
  {
    hide DoRename, PartOk, UploadOk, Allowed;
    if a.Rename? {
      RenameAside(s, p, a.token, a.renamed, q);
    }
  }

  lemma RenameAside(s: State, p: nat, token: string, ok: bool, q: nat)
    ensures q != p ==> Aside(s, DoRename(s, p, token, ok), q)
  {
    hide MintName, FreshName;
  }

  lemma AsideKeepsOwn(s: State, t: State, q: nat)
    requires OwnAt(s, q) && Aside(s, t, q) && t.spoilt == s.spoilt
    ensures OwnAt(t, q)
  {
    hide UploadOk, PartOk, Holding;
  }

  /** The one thing that changes at upload `p` is what follows from its own step. */
  lemma OwnKept(s: State, t: State, p: nat)
    requires InvOwn(s.uploads, s.lock, s.staging, s.spoilt, s.stuck)
    requires OwnAt(t, p) && t.spoilt == s.spoilt && forall q: nat :: q != p ==> Aside(s, t, q)
    ensures InvOwn(t.uploads, t.lock, t.staging, t.spoilt, t.stuck)
  {
    forall q: nat ensures Own(t.uploads, q, t.lock, t.staging, t.spoilt, t.stuck) {
      if q != p {
        assert OwnAt(s, q);
        AsideKeepsOwn(s, t, q);
      }
      assert OwnAt(t, q);
    }
  }

  // ---- names --------------------------------------------------------------------

  /** An upload may move on, but keeps its bytes, its extension and its name. */
  predicate Grows(us: map<nat, Upload>, vs: map<nat, Upload>, p: nat) {
    if p !in us then p in vs ==> vs[p].name == None
    else
      && p in vs && vs[p] == us[p].(phase := vs[p].phase, flushed := vs[p].flushed)
      && (us[p].phase == Done(Uncertain) ==> vs[p].phase == us[p].phase)
  }

  predicate GrowsAt(s: State, t: State, q: nat) { Grows(s.uploads, t.uploads, q) }

  lemma ToGrows(us: map<nat, Upload>, p: nat, ph: Phase)
    requires p in us && us[p].phase != Done(Uncertain)
    ensures Grows(us, To(us, p, ph), p)
  {
  }

  lemma StaysGrows(us: map<nat, Upload>, p: nat)
    ensures Grows(us, us, p)
  {
  }

  lemma StageGrows(s: State, p: nat, a: StageAct)
    ensures GrowsAt(s, ApplyStage(s, p, a), p)
  {
    MovingGrows(s.uploads, p);
    hide To, Grows, DoBegin;
    if a.Begin? {
      BeginGrows(s, p, a.data, a.ext, a.accepted);
    }
  }

  lemma BeginGrows(s: State, p: nat, data: Bytes, ext: string, accepted: bool)
    ensures GrowsAt(s, DoBegin(s, p, data, ext, accepted), p)
  {
    hide Allowed;
  }

  lemma MovingGrows(us: map<nat, Upload>, p: nat)
    ensures Grows(us, us, p)
    ensures p in us && us[p].phase != Done(Uncertain) ==> forall ph :: Grows(us, To(us, p, ph), p)
  {
    StaysGrows(us, p);
    if p in us && us[p].phase != Done(Uncertain) {
      forall ph ensures Grows(us, To(us, p, ph), p) {
        ToGrows(us, p, ph);
      }
    }
  }

  lemma CriticalGrows(s: State, p: nat, a: CriticalAct)
    requires !a.Rename?
    ensures GrowsAt(s, ApplyCritical(s, p, a), p)
  {
    MovingGrows(s.uploads, p);
    hide To, Grows;
  }

  lemma FinishGrows(s: State, p: nat, a: FinishAct)
    ensures GrowsAt(s, ApplyFinish(s, p, a), p)
  {
    MovingGrows(s.uploads, p);
    FlushedGrows(s.uploads, p);
    hide To, Grows;
  }

  lemma FlushedGrows(us: map<nat, Upload>, p: nat)
    ensures p in us && us[p].phase != Done(Uncertain) ==> forall ph, ok ::
      Grows(us, us[p := us[p].(phase := ph, flushed := ok)], p)
  {
  }

  lemma AsideGrows(s: State, t: State, q: nat)
    requires Aside(s, t, q)
    ensures GrowsAt(s, t, q)
  {
  }

  lemma MintedGrows(s: State, t: State)
    requires InvMinted(s.uploads, s.minted) && t.minted == s.minted
    requires forall q: nat :: GrowsAt(s, t, q)
    ensures InvMinted(t.uploads, t.minted)
  {
    forall n | n in t.minted ensures t.minted[n] in t.uploads && t.uploads[t.minted[n]].name == Some(n) {
      assert GrowsAt(s, t, t.minted[n]);
    }
    forall p | p in t.uploads && t.uploads[p].name.Some?
      ensures t.uploads[p].name.value in t.minted && t.minted[t.uploads[p].name.value] == p
    {
      assert GrowsAt(s, t, p);
    }
  }

  lemma StampGrows(s: State, t: State)
    requires InvStamp(s.uploads, s.minted, s.stamp, s.clock) && InvMinted(s.uploads, s.minted)
    requires t.minted == s.minted && t.stamp == s.stamp && t.clock >= s.clock
    requires forall q: nat :: GrowsAt(s, t, q)
    ensures InvStamp(t.uploads, t.minted, t.stamp, t.clock)
  {
    hide MintedAs;
    forall n | n in t.minted && t.minted[n] in t.uploads && n in t.stamp
      ensures MintedAs(n, t.stamp[n], t.uploads[t.minted[n]].ext)
    {
      assert GrowsAt(s, t, t.minted[n]);
    }
  }

  lemma FateGrows(s: State, t: State)
    requires InvFate(s.uploads, s.ready, s.clock, s.minted, s.stamp, s.touched, s.spoilt, s.retracted, s.swept)
    requires InvMinted(s.uploads, s.minted) && SameFolder(s, t)
    requires forall q: nat :: GrowsAt(s, t, q)
    ensures InvFate(t.uploads, t.ready, t.clock, t.minted, t.stamp, t.touched, t.spoilt, t.retracted, t.swept)
  {
    forall n | n in t.minted && t.minted[n] in t.uploads
      ensures n in t.touched || t.minted[n] in t.spoilt
        || Fate(n, t.uploads[t.minted[n]], t.ready, t.clock, t.stamp, t.retracted, t.swept)
    {
      assert GrowsAt(s, t, t.minted[n]);
    }
  }

  /** All but the scan, for a step that leaves the folder alone. */
  lemma FolderKept(s: State, t: State, p: nat)
    requires Inv(s) && SameFolder(s, t) && OwnAt(t, p) && GrowsAt(s, t, p)
    requires forall q: nat :: q != p ==> Aside(s, t, q)
    requires InvScan(t.uploads, t.lock, t.ready, t.left, t.count, t.total, t.seen, t.stirred)
    ensures Inv(t)
  {
    hide InvOwn, InvMinted, InvStamp, InvKnown, InvSweeps, InvGone, InvFate, InvScan, OwnAt, GrowsAt, Aside;
    OwnKept(s, t, p);
    forall q: nat ensures GrowsAt(s, t, q) {
      if q != p {
        AsideGrows(s, t, q);
      }
    }
    MintedGrows(s, t);
    StampGrows(s, t);
    FateGrows(s, t);
  }

  // ---- the quota scan -------------------------------------------------------------

  ghost predicate ScanInv(s: State) {
    InvScan(s.uploads, s.lock, s.ready, s.left, s.count, s.total, s.seen, s.stirred)
  }

  /** A vanished entry adds nothing; one that is there is counted with its present size. */
  lemma StatScan(ready: map<string, Entry>, left: set<string>, count: nat, total: nat,
                 seen: map<string, nat>, stirred: set<string>, name: string)
    requires ScanOk(ready, left, count, total, seen, stirred) && name in left
    ensures name in ready ==> ScanOk(ready, left - {name}, count + 1, total + Size(ready[name]),
                                     seen[name := Size(ready[name])], stirred)
    ensures name !in ready ==> ScanOk(ready, left - {name}, count, total, seen, stirred)
  {
    if name in ready {
      TotalAdd(seen, name, Size(ready[name]));
      OneLess(seen[name := Size(ready[name])], name);
      assert seen[name := Size(ready[name])] - {name} == seen;
    }
  }

  lemma ScanStarts(ready: map<string, Entry>)
    ensures ScanOk(ready, ready.Keys, 0, 0, map[], {})
  {
  }

  lemma CriticalScan(s: State, p: nat, a: CriticalAct)
    requires OwnAt(s, p) && ScanInv(s)
    ensures ScanInv(ApplyCritical(s, p, a))
  {
    hide ScanOk, PartOk, UploadOk, MintName, FreshName, DoRename;
    match a {
      case StatEntry(name) =>
        if In(s.uploads, p, Scanning) && name in s.left {
          StatScan(s.ready, s.left, s.count, s.total, s.seen, s.stirred, name);
        }
      case ListReady => ScanStarts(s.ready);
      case Rename(token, ok) => RenameScan(s, p, token, ok);
      case TakeLock =>
      case Decide =>
      case CheckPart(_) =>
      case Release =>
    }
  }

  lemma RenameScan(s: State, p: nat, token: string, ok: bool)
    requires OwnAt(s, p) && ScanInv(s)
    ensures ScanInv(DoRename(s, p, token, ok))
  {
    hide ScanOk, PartOk, UploadOk, MintName, FreshName;
  }

  /** The steps outside the critical section do not move the lock's holder. */
  lemma HolderStays(s: State, t: State, p: nat)
    requires OwnAt(s, p) && OwnAt(t, p) && ScanInv(s) && SameScan(s, t) && t.lock == s.lock && t.ready == s.ready
    requires s.lock.Some? && s.lock.value == p ==> Lookup(t.uploads, p) == Lookup(s.uploads, p)
    requires forall q: nat :: q != p ==> Aside(s, t, q)
    ensures ScanInv(t)
  {
    hide ScanOk, PartOk, UploadOk;
    if s.lock.Some? && s.lock.value != p {
      assert Aside(s, t, s.lock.value);
    }
  }

  lemma StageHolder(s: State, p: nat, a: StageAct)
    requires OwnAt(s, p) && s.lock == Some(p)
    ensures ApplyStage(s, p, a) == s
  {
    hide PartOk, UploadOk;
  }

  lemma FinishHolder(s: State, p: nat, a: FinishAct)
    requires OwnAt(s, p) && s.lock == Some(p)
    ensures ApplyFinish(s, p, a) == s
  {
    hide PartOk, UploadOk;
  }

  // ---- the rename -----------------------------------------------------------------

  lemma RenameEffect(s: State, p: nat, token: string, ok: bool)
    ensures var t := DoRename(s, p, token, ok);
      if CanRename(s, p, token) && ok && p in s.staging then
        var n := MintName(s, p, token);
        && t.uploads == s.uploads[p := s.uploads[p].(phase := Renamed, name := Some(n))]
        && t.ready == s.ready[n := s.staging[p]]
        && t.minted == s.minted[n := p] && t.stamp == s.stamp[n := (s.clock * 1000.0).Floor]
        && t.clock == s.clock && t.touched == s.touched && t.spoilt == s.spoilt && t.sweeps == s.sweeps
        && t.retracted == s.retracted && t.swept == s.swept
      else SameFolder(s, t) && Grows(s.uploads, t.uploads, p)
  {
    MovingGrows(s.uploads, p);
    hide To, Grows, MintName, FreshName;
  }

  lemma MintedRenames(us: map<nat, Upload>, minted: map<string, nat>, p: nat, n: string)
    requires InvMinted(us, minted) && p in us && us[p].name == None && n !in minted
    ensures InvMinted(us[p := us[p].(phase := Renamed, name := Some(n))], minted[n := p])
  {
  }

  lemma StampRenames(us: map<nat, Upload>, minted: map<string, nat>, stamp: map<string, nat>, clock: real,
                     p: nat, token: string)
    requires InvStamp(us, minted, stamp, clock) && InvMinted(us, minted)
    requires p in us && Allowed(us[p].ext) && Token(token)
    ensures var ms := (clock * 1000.0).Floor; var n := NewName(ms, token, us[p].ext);
      n !in minted ==> InvStamp(us[p := us[p].(phase := Renamed, name := Some(n))], minted[n := p], stamp[n := ms], clock)
  {
    hide NewName, Token, Allowed;
    var ms := (clock * 1000.0).Floor;
    var n := NewName(ms, token, us[p].ext);
    assert MintedAs(n, ms, us[p].ext);
    hide MintedAs;
  }

  lemma SweepsRename(s: State, p: nat, n: string, ms: nat)
    requires InvSweeps(s.sweeps, s.clock, s.minted, s.stamp, s.touched, s.spoilt)
    requires n !in s.minted && n !in s.touched
    ensures InvSweeps(s.sweeps, s.clock, s.minted[n := p], s.stamp[n := ms], s.touched, s.spoilt)
  {
    forall w | w in s.sweeps
      ensures SweepOk(s.sweeps[w], s.clock, s.minted[n := p], s.stamp[n := ms], s.touched, s.spoilt)
    {
      assert SweepOk(s.sweeps[w], s.clock, s.minted, s.stamp, s.touched, s.spoilt);
    }
  }

  lemma GoneRename(s: State, p: nat, n: string, e: Entry)
    requires InvGone(s.ready, s.minted, s.touched, s.retracted, s.swept)
    requires n !in s.minted && n !in s.touched
    ensures InvGone(s.ready[n := e], s.minted[n := p], s.touched, s.retracted, s.swept)
  {
  }

  lemma FateRename(s: State, p: nat, n: string, ms: nat, e: Entry)
    requires InvFate(s.uploads, s.ready, s.clock, s.minted, s.stamp, s.touched, s.spoilt, s.retracted, s.swept)
    requires InvMinted(s.uploads, s.minted) && p in s.uploads && n !in s.minted && s.uploads[p].name == None
    requires p in s.spoilt || e == File(1, s.uploads[p].data)
    ensures InvFate(s.uploads[p := s.uploads[p].(phase := Renamed, name := Some(n))], s.ready[n := e], s.clock,
      s.minted[n := p], s.stamp[n := ms], s.touched, s.spoilt, s.retracted, s.swept)
  {
    var us, ready, minted := s.uploads[p := s.uploads[p].(phase := Renamed, name := Some(n))], s.ready[n := e], s.minted[n := p];
    forall m | m in minted && minted[m] in us
      ensures m in s.touched || minted[m] in s.spoilt
        || Fate(m, us[minted[m]], ready, s.clock, s.stamp[n := ms], s.retracted, s.swept)
    {
      if m != n {
        assert us[minted[m]] == s.uploads[s.minted[m]];
      }
    }
  }

  lemma ReadyToRename(s: State, p: nat, token: string)
    requires Inv(s) && CanRename(s, p, token)
    ensures s.uploads[p].name == None && Allowed(s.uploads[p].ext) && Token(token)
    ensures p in s.spoilt || (p in s.staging && s.staging[p] == File(1, s.uploads[p].data))
    ensures var n := MintName(s, p, token);
      n == NewName((s.clock * 1000.0).Floor, token, s.uploads[p].ext) && n !in s.minted && n !in s.touched
  {
    assert OwnAt(s, p);
    hide Allowed;
  }

  lemma RenamesAside(s: State, p: nat, token: string, ok: bool)
    requires Inv(s)
    ensures OwnAt(DoRename(s, p, token, ok), p)
    ensures forall q: nat :: q != p ==> Aside(s, DoRename(s, p, token, ok), q)
    ensures ScanInv(DoRename(s, p, token, ok))
  {
    assert OwnAt(s, p);
    RenameOwn(s, p, token, ok);
    RenameScan(s, p, token, ok);
    var act := CriticalAct.Rename(token, ok);
    assert ApplyCritical(s, p, act) == DoRename(s, p, token, ok);
    hide OwnAt, Aside, DoRename, ApplyCritical;
    forall q: nat | q != p ensures Aside(s, DoRename(s, p, token, ok), q) {
      CriticalAside(s, p, act, q);
    }
  }

  lemma RenamedOwn(s: State, p: nat, token: string)
    requires Inv(s) && CanRename(s, p, token) && p in s.staging
    ensures var t := DoRename(s, p, token, true);
      InvOwn(t.uploads, t.lock, t.staging, t.spoilt, t.stuck) && ScanInv(t)
  {
    var t := DoRename(s, p, token, true);
    RenamesAside(s, p, token, true);
    RenameEffect(s, p, token, true);
    hide InvMinted, InvStamp, InvKnown, InvSweeps, InvGone, InvFate, InvScan, OwnAt, Aside, DoRename, CanRename, InvOwn;
    OwnKept(s, t, p);
  }

  lemma RenamedNames(s: State, p: nat, token: string)
    requires Inv(s) && CanRename(s, p, token) && p in s.staging
    ensures var t := DoRename(s, p, token, true);
      && InvMinted(t.uploads, t.minted) && InvStamp(t.uploads, t.minted, t.stamp, t.clock)
  {
    RenameEffect(s, p, token, true);
    ReadyToRename(s, p, token);
    hide InvMinted, InvStamp, InvSweeps, InvGone, InvFate, InvScan, Allowed, DoRename;
    hide CanRename, MintName, NewName, Token;
    MintedRenames(s.uploads, s.minted, p, MintName(s, p, token));
    StampRenames(s.uploads, s.minted, s.stamp, s.clock, p, token);
  }

  lemma RenamedFolder(s: State, p: nat, token: string)
    requires Inv(s) && CanRename(s, p, token) && p in s.staging
    ensures var t := DoRename(s, p, token, true);
      && InvKnown(t.ready, t.minted, t.touched)
      && InvSweeps(t.sweeps, t.clock, t.minted, t.stamp, t.touched, t.spoilt)
      && InvGone(t.ready, t.minted, t.touched, t.retracted, t.swept)
      && InvFate(t.uploads, t.ready, t.clock, t.minted, t.stamp, t.touched, t.spoilt, t.retracted, t.swept)
  {
    RenameEffect(s, p, token, true);
    ReadyToRename(s, p, token);
    assert p in s.uploads;
    hide InvOwn, InvMinted, InvStamp, InvKnown, InvSweeps, InvGone, InvFate, InvScan, Allowed, DoRename;
    hide CanRename, MintName, NewName, Token;
    var n, ms := MintName(s, p, token), (s.clock * 1000.0).Floor;
    KnownRename(s, p, n);
    SweepsRename(s, p, n, ms);
    GoneRename(s, p, n, s.staging[p]);
    FateRename(s, p, n, ms, s.staging[p]);
  }

  lemma InvParts(s: State)
    requires InvOwn(s.uploads, s.lock, s.staging, s.spoilt, s.stuck) && InvMinted(s.uploads, s.minted)
    requires InvStamp(s.uploads, s.minted, s.stamp, s.clock) && InvKnown(s.ready, s.minted, s.touched)
    requires InvSweeps(s.sweeps, s.clock, s.minted, s.stamp, s.touched, s.spoilt)
    requires InvGone(s.ready, s.minted, s.touched, s.retracted, s.swept)
    requires InvFate(s.uploads, s.ready, s.clock, s.minted, s.stamp, s.touched, s.spoilt, s.retracted, s.swept)
    requires ScanInv(s)
    ensures Inv(s)
  {
    hide InvOwn, InvMinted, InvStamp, InvKnown, InvSweeps, InvGone, InvFate, InvScan;
  }

  lemma RenameKept(s: State, p: nat, token: string, ok: bool)
    requires Inv(s)
    ensures Inv(DoRename(s, p, token, ok))
  {
    hide Inv, CanRename, DoRename, Aside, OwnAt, InvScan;
    if CanRename(s, p, token) && ok && p in s.staging {
      RenamedOwn(s, p, token);
      RenamedNames(s, p, token);
      RenamedFolder(s, p, token);
      InvParts(DoRename(s, p, token, true));
    } else {
      RenamesAside(s, p, token, ok);
      RenameEffect(s, p, token, ok);
      FolderKept(s, DoRename(s, p, token, ok), p);
    }
  }

  lemma KnownRename(s: State, p: nat, n: string)
    requires InvKnown(s.ready, s.minted, s.touched) && p in s.staging
    ensures InvKnown(s.ready[n := s.staging[p]], s.minted[n := p], s.touched)
  {
  }

  // ---- what leaves the folder -------------------------------------------------------

  /** Removing an entry disturbs nothing that is counted, known, or gone already. */
  lemma RemovalKeeps(s: State, n: string)
    requires Inv(s)
    ensures InvKnown(s.ready - {n}, s.minted, s.touched)
    ensures InvScan(s.uploads, s.lock, s.ready - {n}, s.left, s.count, s.total, s.seen, s.stirred)
    ensures InvGone(s.ready - {n}, s.minted, s.touched, s.retracted, s.swept)
  {
    hide InvOwn, InvMinted, InvStamp, InvSweeps, InvFate, Total;
  }

  lemma RetractEffect(s: State, p: nat, ok: bool)
    ensures var t := DoRetract(s, p, ok);
      if In(s.uploads, p, Retracting) && s.uploads[p].name.Some? then
        var n := s.uploads[p].name.value;
        && t.uploads == To(s.uploads, p, Done(Uncertain))
        && t.ready == (if ok then s.ready - {n} else s.ready)
        && t.retracted == (if ok then s.retracted + {n} else s.retracted)
        && t.minted == s.minted && t.stamp == s.stamp && t.clock == s.clock && t.touched == s.touched
        && t.spoilt == s.spoilt && t.sweeps == s.sweeps && t.swept == s.swept
      else t == s
  {
  }

  lemma FateRetracts(us: map<nat, Upload>, ready: map<string, Entry>, clock: real,
                     minted: map<string, nat>, stamp: map<string, nat>, touched: set<string>, spoilt: set<nat>,
                     retracted: set<string>, swept: map<string, real>, p: nat, n: string)
    requires InvFate(us, ready, clock, minted, stamp, touched, spoilt, retracted, swept) && InvMinted(us, minted)
    requires p in us && us[p].name == Some(n)
    ensures InvFate(To(us, p, Done(Uncertain)), ready - {n}, clock, minted, stamp, touched, spoilt, retracted + {n}, swept)
  {
    var vs := To(us, p, Done(Uncertain));
    forall m | m in minted && minted[m] in vs
      ensures m in touched || minted[m] in spoilt
        || Fate(m, vs[minted[m]], ready - {n}, clock, stamp, retracted + {n}, swept)
    {
      if m != n {
        assert vs[minted[m]] == us[minted[m]];
      }
    }
  }

  lemma GoneRetracts(s: State, n: string)
    requires InvGone(s.ready, s.minted, s.touched, s.retracted, s.swept) && n in s.minted
    ensures InvGone(s.ready - {n}, s.minted, s.touched, s.retracted + {n}, s.swept)
  {
  }

  lemma RetractsAside(s: State, p: nat, ok: bool)
    requires Inv(s)
    ensures var t := DoRetract(s, p, ok);
      && OwnAt(t, p) && SameScan(s, t) && t.lock == s.lock
      && forall q: nat :: GrowsAt(s, t, q) && (q != p ==> Aside(s, t, q))
  {
    var t := DoRetract(s, p, ok);
    assert OwnAt(s, p);
    var act := FinishAct.Retract(ok);
    assert ApplyFinish(s, p, act) == t;
    FinishOwn(s, p, act);
    FinishGrows(s, p, act);
    FinishAside(s, p, act, p);
    hide InvOwn, ApplyFinish, OwnAt, Aside, GrowsAt, DoRetract;
    forall q: nat ensures GrowsAt(s, t, q) && (q != p ==> Aside(s, t, q)) {
      FinishAside(s, p, act, q);
      if q != p {
        AsideGrows(s, t, q);
      }
    }
  }

  lemma ScanWithFewer(s: State, t: State, p: nat)
    requires OwnAt(s, p) && OwnAt(t, p) && ScanInv(s) && SameScan(s, t) && t.lock == s.lock
    requires InvScan(s.uploads, s.lock, t.ready, s.left, s.count, s.total, s.seen, s.stirred)
    requires forall q: nat :: GrowsAt(s, t, q) && (q != p ==> Aside(s, t, q))
    requires t.lock != Some(p)
    ensures ScanInv(t)
  {
    hide ScanOk, PartOk, UploadOk, Own;
    if s.lock.Some? {
      assert Aside(s, t, s.lock.value);
    }
  }

  lemma RetractKept(s: State, p: nat, ok: bool)
    requires Inv(s)
    ensures Inv(DoRetract(s, p, ok))
  {
    var t := DoRetract(s, p, ok);
    RetractEffect(s, p, ok);
    if In(s.uploads, p, Retracting) && s.uploads[p].name.Some? {
      var n := s.uploads[p].name.value;
      assert n in s.minted && OwnAt(s, p) && s.lock != Some(p);
      RetractsAside(s, p, ok);
      hide InvOwn, InvMinted, InvStamp, InvKnown, InvSweeps, InvGone, InvFate, InvScan, OwnAt, GrowsAt, Aside, To, DoRetract;
      OwnKept(s, t, p);
      MintedGrows(s, t);
      StampGrows(s, t);
      if ok {
        RemovalKeeps(s, n);
        FateRetracts(s.uploads, s.ready, s.clock, s.minted, s.stamp, s.touched, s.spoilt, s.retracted, s.swept, p, n);
        GoneRetracts(s, n);
      } else {
        FateGrows(s, t);
      }
      ScanWithFewer(s, t, p);
    }
  }

  // ---- sweeps -------------------------------------------------------------------

  /** A sweep condemns a file of Casa's own, untouched, only for its age. */
  lemma CondemnedIsOld(s: State, n: string, now: real)
    requires Inv(s) && n in s.ready && Condemned(n, s.ready[n], now)
    requires n in s.minted && n !in s.touched && s.minted[n] !in s.spoilt && Era(s.clock)
    ensures TooOld(s.stamp, n, now)
  {
    var p := s.minted[n];
    assert Fate(n, s.uploads[p], s.ready, s.clock, s.stamp, s.retracted, s.swept);
    assert s.ready[n] == File(1, s.uploads[p].data);
    var ms, ext := s.stamp[n], s.uploads[p].ext;
    assert MintedAs(n, ms, ext);
    assert ms as real <= s.clock * 1000.0;
    assert ms < 10_000_000_000_000;
    var token :| Token(token) && n == NewName(ms, token, ext);
    hide *;
    MintedNameParses(ms, token, ext);
  }

  lemma SweepListKept(s: State, w: nat, now: real)
    requires Inv(s)
    ensures Inv(DoSweepList(s, w, now))
  {
    hide InvOwn, InvMinted, InvStamp, InvKnown, InvGone, InvFate, InvScan;
    forall v | v in s.sweeps ensures SweepOk(s.sweeps[v], s.clock, s.minted, s.stamp, s.touched, s.spoilt) {}
  }

  lemma SweepLookKept(s: State, w: nat, name: string)
    requires Inv(s)
    ensures Inv(DoSweepLook(s, w, name))
  {
    if w in s.sweeps && name in s.ready && Condemned(name, s.ready[name], s.sweeps[w].now) {
      var now := s.sweeps[w].now;
      assert name in s.minted || name in s.touched;
      if name !in s.touched && s.minted[name] !in s.spoilt && Era(s.clock) {
        CondemnedIsOld(s, name, now);
      }
    }
    hide InvOwn, InvMinted, InvStamp, InvKnown, InvGone, InvFate, InvScan, Condemned, Era, TooOld;
    forall v | v in s.sweeps ensures SweepOk(s.sweeps[v], s.clock, s.minted, s.stamp, s.touched, s.spoilt) {}
  }

  lemma SweptFate(s: State, n: string, now: real)
    requires Inv(s) && now <= s.clock
    requires n in s.minted || n in s.touched
    requires n in s.touched || s.minted[n] in s.spoilt || !Era(s.clock) || TooOld(s.stamp, n, now)
    ensures InvFate(s.uploads, s.ready - {n}, s.clock, s.minted, s.stamp, s.touched, s.spoilt, s.retracted, s.swept[n := now])
    ensures n in s.touched || n in s.minted
  {
    hide InvOwn, InvStamp, InvKnown, InvGone, InvScan, InvSweeps, Era, TooOld;
    forall m | m in s.minted && s.minted[m] in s.uploads
      ensures m in s.touched || s.minted[m] in s.spoilt
        || Fate(m, s.uploads[s.minted[m]], s.ready - {n}, s.clock, s.stamp, s.retracted, s.swept[n := now])
    {
    }
  }

  lemma SweptGone(s: State, n: string, now: real)
    requires InvGone(s.ready, s.minted, s.touched, s.retracted, s.swept)
    requires n in s.minted || n in s.touched
    ensures InvGone(s.ready - {n}, s.minted, s.touched, s.retracted, s.swept[n := now])
  {
  }

  lemma SweepRemoveKept(s: State, w: nat, ok: bool)
    requires Inv(s)
    ensures Inv(DoSweepRemove(s, w, ok))
  {
    if w in s.sweeps && s.sweeps[w].doomed.Some? {
      var v := s.sweeps[w];
      var n := v.doomed.value.0;
      assert SweepOk(v, s.clock, s.minted, s.stamp, s.touched, s.spoilt);
      RemovalKeeps(s, n);
      SweptFate(s, n, v.now);
      SweptGone(s, n, v.now);
      hide InvOwn, InvMinted, InvStamp, InvKnown, InvGone, InvFate, InvScan, Era, TooOld;
      forall v | v in s.sweeps ensures SweepOk(s.sweeps[v], s.clock, s.minted, s.stamp, s.touched, s.spoilt) {}
    }
  }

  // ---- the rest of the machine ----------------------------------------------------

  lemma TickKept(s: State, dt: real)
    requires Inv(s) && dt >= 0.0
    ensures Inv(s.(clock := s.clock + dt))
  {
    var t := s.(clock := s.clock + dt);
    hide InvOwn, InvKnown, InvGone, InvScan, InvMinted, TooOld, MintedAs;
    forall w | w in t.sweeps ensures SweepOk(t.sweeps[w], t.clock, t.minted, t.stamp, t.touched, t.spoilt) {
      assert SweepOk(s.sweeps[w], s.clock, s.minted, s.stamp, s.touched, s.spoilt);
    }
  }

  lemma InjectKept(s: State, name: string, entry: Entry)
    requires Inv(s)
    ensures Inv(DoInject(s, name, entry))
  {
    InjectScan(s, name, entry);
    hide InvOwn, InvScan, InvMinted, InvStamp, TooOld, Era;
    var t := DoInject(s, name, entry);
    forall w | w in t.sweeps ensures SweepOk(t.sweeps[w], t.clock, t.minted, t.stamp, t.touched, t.spoilt) {
      assert SweepOk(s.sweeps[w], s.clock, s.minted, s.stamp, s.touched, s.spoilt);
    }
  }

  lemma InjectScan(s: State, name: string, entry: Entry)
    requires ScanInv(s)
    ensures ScanInv(DoInject(s, name, entry))
  {
    hide Total;
  }

  lemma DeleteKept(s: State, name: string)
    requires Inv(s)
    ensures Inv(DoDelete(s, name))
  {
    RemovalKeeps(s, name);
    hide InvOwn, InvScan, InvMinted, InvStamp, TooOld, Era;
    var t := DoDelete(s, name);
    forall w | w in t.sweeps ensures SweepOk(t.sweeps[w], t.clock, t.minted, t.stamp, t.touched, t.spoilt) {
      assert SweepOk(s.sweeps[w], s.clock, s.minted, s.stamp, s.touched, s.spoilt);
    }
  }

  lemma TamperKept(s: State, p: nat, part: Option<Entry>)
    requires Inv(s)
    ensures Inv(DoTamper(s, p, part))
  {
    hide InvScan, InvMinted, InvStamp, InvKnown, InvGone, TooOld, Era, UploadOk, PartOk, Holding;
    var t := DoTamper(s, p, part);
    forall w | w in t.sweeps ensures SweepOk(t.sweeps[w], t.clock, t.minted, t.stamp, t.touched, t.spoilt) {
      assert SweepOk(s.sweeps[w], s.clock, s.minted, s.stamp, s.touched, s.spoilt);
    }
    forall q: nat ensures Own(t.uploads, q, t.lock, t.staging, t.spoilt, t.stuck) {
      assert Own(s.uploads, q, s.lock, s.staging, s.spoilt, s.stuck);
    }
  }

  // ---- every step ------------------------------------------------------------------

  lemma StageKept(s: State, p: nat, a: StageAct)
    requires Inv(s)
    ensures Inv(ApplyStage(s, p, a))
  {
    var t := ApplyStage(s, p, a);
    assert OwnAt(s, p);
    StageOwn(s, p, a);
    StageGrows(s, p, a);
    StageAside(s, p, a, p);
    if s.lock == Some(p) {
      StageHolder(s, p, a);
    }
    hide ApplyStage, InvOwn, InvMinted, InvStamp, InvKnown, InvSweeps, InvGone, InvFate, OwnAt, GrowsAt, Aside, InvScan;
    forall q: nat | q != p ensures Aside(s, t, q) {
      StageAside(s, p, a, q);
    }
    HolderStays(s, t, p);
    FolderKept(s, t, p);
  }

  lemma FinishKept(s: State, p: nat, a: FinishAct)
    requires Inv(s) && !a.Retract?
    ensures Inv(ApplyFinish(s, p, a))
  {
    var t := ApplyFinish(s, p, a);
    assert OwnAt(s, p);
    FinishOwn(s, p, a);
    FinishGrows(s, p, a);
    FinishAside(s, p, a, p);
    if s.lock == Some(p) {
      FinishHolder(s, p, a);
    }
    hide ApplyFinish, InvOwn, InvMinted, InvStamp, InvKnown, InvSweeps, InvGone, InvFate, OwnAt, GrowsAt, Aside, InvScan;
    forall q: nat | q != p ensures Aside(s, t, q) {
      FinishAside(s, p, a, q);
    }
    HolderStays(s, t, p);
    FolderKept(s, t, p);
  }

  lemma CriticalKept(s: State, p: nat, a: CriticalAct)
    requires Inv(s) && !a.Rename?
    ensures Inv(ApplyCritical(s, p, a))
  {
    var t := ApplyCritical(s, p, a);
    assert OwnAt(s, p);
    CriticalOwn(s, p, a);
    CriticalGrows(s, p, a);
    CriticalAside(s, p, a, p);
    CriticalScan(s, p, a);
    hide ApplyCritical, InvOwn, InvMinted, InvStamp, InvKnown, InvSweeps, InvGone, InvFate, OwnAt, GrowsAt, Aside, InvScan;
    forall q: nat | q != p ensures Aside(s, t, q) {
      CriticalAside(s, p, a, q);
    }
    FolderKept(s, t, p);
  }

  lemma InvKept(s: State, a: Step)
    requires Inv(s)
    ensures Inv(Apply(s, a))
  {
    hide Inv, DoRename, DoRetract, DoSweepList, DoSweepLook, DoSweepRemove, DoInject, DoDelete, DoTamper;
    match a {
      case Stage(p, act) => StageKept(s, p, act);
      case Critical(p, act) => if act.Rename? { RenameKept(s, p, act.token, act.renamed); } else { CriticalKept(s, p, act); }
      case Finish(p, act) => if act.Retract? { RetractKept(s, p, act.unlinked); } else { FinishKept(s, p, act); }
      case Sweeping(w, List(now)) => SweepListKept(s, w, now);
      case Sweeping(w, Look(name)) => SweepLookKept(s, w, name);
      case Sweeping(w, Remove(ok)) => SweepRemoveKept(s, w, ok);
      case World(Tick(dt)) => if dt >= 0.0 { TickKept(s, dt); }
      case World(Inject(name, entry)) => InjectKept(s, name, entry);
      case World(Delete(name)) => DeleteKept(s, name);
      case World(Tamper(p, part)) => TamperKept(s, p, part);
    }
  }

  lemma InitInv(s: State)
    requires Init(s)
    ensures Inv(s)
  {
  }

  /** Every state a run can reach satisfies the invariants. */
  lemma {:induction false} InvAlways(s: State, steps: seq<Step>)
    requires Init(s)
    ensures Inv(Run(s, steps))
    decreases |steps|
  {
    if steps == [] {
      InitInv(s);
    } else {
      InvAlways(s, steps[..|steps| - 1]);
      InvKept(Run(s, steps[..|steps| - 1]), steps[|steps| - 1]);
    }
  }
}
