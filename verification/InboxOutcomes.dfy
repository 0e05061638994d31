/**
 * What the folder's operations leave, told of the entries themselves: which of them a sweep keeps and
 * removes, which are listed, and when an upload is refused for want of room or goes through.
 */
module InboxOutcomes {
  import opened Prelude
  import opened InboxNames
  import opened InboxFolder
  import opened InboxInvariants
  import opened InboxTheorems
  import opened InboxModule

  // ---- the sweep and the listing ---------------------------------------------

  /** A regular file with one link, under a name that reads as one of Casa's with an extension it takes. */
  predicate Kosher(name: string, e: Entry) {
    e.File? && e.links == 1 && Parse(name).Some? && Allowed(Parse(name).value.ext)
  }

  /** After a sweep whatever could be removed and is still there is Casa's own and younger than seven days;
      every such entry of before is there as it was; and nothing is there that was not. */
  lemma SweepLeaves(ready: map<string, Entry>, now: real, immovable: set<string>)
    ensures var after := Swept(ready, now, immovable);
      && (forall n :: n in after && n !in immovable ==> Kosher(n, after[n]) && Young(n, now))
      && (forall n :: n in ready && (n in immovable || (Kosher(n, ready[n]) && Young(n, now))) ==> n in after)
      && (forall n :: n in after ==> n in ready && after[n] == ready[n])
    ensures forall n :: n in Present(ready, now) <==> n in ready && Kosher(n, ready[n]) && Young(n, now)
    ensures forall n :: n in Strangers(ready.Keys, ready) <==> n in ready && !Kosher(n, ready[n])
  {
    hide Parse, Allowed;
  }

  /** Of the metadata exactly the `.json` files go whose entry is not among those kept, if they can. */
  lemma SweepLeavesMeta(ready: map<string, Entry>, meta: set<string>, now: real, stuck: set<string>, m: string)
    requires m in meta
    ensures m !in SweptMeta(meta, Present(ready, now), stuck) <==>
      m !in stuck && exists n :: m == n + ".json" && !(n in ready && Kosher(n, ready[n]) && Young(n, now))
  {
    hide Parse, Allowed;
    if n :| m == n + ".json" {
      assert m[..|m| - |JSON|] == n;
    }
    if IsJson(m) {
      assert m == m[..|m| - |JSON|] + ".json";
    }
  }

  /** The listing shows exactly those entries, each with its stamp, its extension and its bytes. */
  lemma ListingShows(ready: map<string, Entry>, x: Listed)
    ensures x in Valid(ready.Keys, ready) <==>
      && x.name in ready && Kosher(x.name, ready[x.name])
      && Parse(x.name) == Some(Parsed(x.ms, x.ext)) && x.size == |ready[x.name].data|
  {
    hide Parse, Allowed;
  }

  /** A new sweep sets out to visit everything that is in the folder. */
  lemma SweepLists(s: State, w: nat, now: real)
    requires w !in s.sweeps && now <= s.clock
    ensures Apply(s, Sweeping(w, List(now))) == s.(sweeps := s.sweeps[w := Sweep.Sweep(now, s.ready.Keys, None)])
  {
  }

  /** A sweep of many steps looks at what is there now, and marks it exactly when it is not Casa's own or
      not young. */
  lemma SweepLooks(s: State, w: nat, name: string)
    requires w in s.sweeps && s.sweeps[w].doomed == None && name in s.sweeps[w].left
    ensures var t := Apply(s, Sweeping(w, Look(name)));
      && t.ready == s.ready && t.uploads == s.uploads && w in t.sweeps
      && t.sweeps[w].doomed ==
           if name in s.ready && !(Kosher(name, s.ready[name]) && Young(name, s.sweeps[w].now))
           then Some((name, s.ready[name])) else None
  {
    hide Parse, Allowed;
  }

  /** It takes away nothing that it has not marked, and what it has marked and is still there it does. */
  lemma SweepRemoves(s: State, w: nat, ok: bool)
    requires w in s.sweeps && s.sweeps[w].doomed.Some?
    ensures var t := Apply(s, Sweeping(w, Remove(ok))); var (name, st) := s.sweeps[w].doomed.value;
      && t.uploads == s.uploads
      && (t.ready == s.ready || t.ready == s.ready - {name})
      && (ok && name in s.ready && s.ready[name] == st ==> name !in t.ready)
  {
  }

  // ---- the quota, exactly ------------------------------------------------------

  predicate Past(ph: Phase) {
    !(ph.Entering? || ph.Writing? || ph.Flushed? || ph.Locked? || ph.Scanning?)
  }

  /** While the folder stays `r`, the scan has counted all of it but what is left. */
  ghost predicate Watched(s: State, p: nat, r: map<string, Entry>) {
    && s.ready == r && p in s.uploads
    && (Past(s.uploads[p].phase) || s.uploads[p].phase.Locked?
        || (s.uploads[p].phase.Scanning? && s.left <= r.Keys
            && s.seen == map n | n in r && n !in s.left :: Size(r[n])))
  }

  lemma WatchedAside(s: State, t: State, p: nat, r: map<string, Entry>)
    requires Watched(s, p, r) && t.ready == r && Lookup(t.uploads, p) == Lookup(s.uploads, p)
    requires s.uploads[p].phase.Scanning? ==> t.left == s.left && t.seen == s.seen
    ensures Watched(t, p, r)
  {
  }

  lemma CriticalElsewhere(s: State, q: nat, a: CriticalAct, p: nat)
    requires OwnAt(s, q) && s.lock == Some(p) && q != p
    ensures ApplyCritical(s, q, a) == s
  {
    hide PartOk, UploadOk, MintName, FreshName;
  }

  lemma CriticalWatched(s: State, p: nat, a: CriticalAct, r: map<string, Entry>)
    requires Watched(s, p, r) && ApplyCritical(s, p, a).ready == r
    ensures Watched(ApplyCritical(s, p, a), p, r)
  {
    hide MintName, FreshName;
  }

  lemma StagePast(s: State, p: nat, a: StageAct)
    requires p in s.uploads && (Past(s.uploads[p].phase) || s.uploads[p].phase.Locked? || s.uploads[p].phase.Scanning?)
    ensures ApplyStage(s, p, a) == s
  {
    hide Allowed;
  }

  lemma FinishWatched(s: State, p: nat, a: FinishAct, r: map<string, Entry>)
    requires Watched(s, p, r) && ApplyFinish(s, p, a).ready == r
    ensures Watched(ApplyFinish(s, p, a), p, r)
  {
  }

  lemma SweepAsideScan(s: State, w: nat, a: SweepAct)
    ensures var t := ApplySweep(s, w, a); t.uploads == s.uploads && SameScan(s, t)
  {
    hide Condemned, IsDir;
  }

  lemma WorldAsideScan(s: State, a: WorldAct)
    ensures var t := ApplyWorld(s, a); t.uploads == s.uploads && t.left == s.left && t.seen == s.seen
  {
  }

  lemma WatchedKept(s: State, a: Step, p: nat, r: map<string, Entry>)
    requires Inv(s) && Watched(s, p, r) && Apply(s, a).ready == r
    ensures Watched(Apply(s, a), p, r)
  {
    var t := Apply(s, a);
    assert OwnAt(s, p);
    assert s.uploads[p].phase.Scanning? ==> s.lock == Some(p);
    match a {
      case Stage(q, act) =>
        StageAside(s, q, act, p);
        if q == p {
          StagePast(s, p, act);
        } else {
          hide Inv, OwnAt, Watched, ApplyStage;
          assert Aside(s, t, p);
          WatchedAside(s, t, p, r);
        }
      case Critical(q, act) =>
        if q == p {
          hide Inv, OwnAt, Watched, ApplyCritical;
          CriticalWatched(s, p, act, r);
        } else {
          assert OwnAt(s, q);
          if s.lock == Some(p) {
            CriticalElsewhere(s, q, act, p);
          } else {
            CriticalAside(s, q, act, p);
            hide Inv, OwnAt, ApplyCritical;
            assert Aside(s, t, p);
            WatchedAside(s, t, p, r);
          }
        }
      case Finish(q, act) =>
        FinishAside(s, q, act, p);
        hide Inv, OwnAt, Watched, ApplyFinish;
        if q == p {
          FinishWatched(s, p, act, r);
        } else {
          assert Aside(s, t, p);
          WatchedAside(s, t, p, r);
        }
      case Sweeping(w, act) =>
        SweepAsideScan(s, w, act);
        hide Inv, OwnAt, Watched, ApplySweep;
        WatchedAside(s, t, p, r);
      case World(act) =>
        WorldAsideScan(s, act);
        hide Inv, OwnAt, Watched, ApplyWorld;
        WatchedAside(s, t, p, r);
    }
  }

  lemma {:induction false} InvOn(s: State, steps: seq<Step>)
    requires Inv(s)
    ensures Inv(Run(s, steps))
    decreases |steps|
  {
    hide Inv, Apply;
    if steps != [] {
      InvOn(s, steps[..|steps| - 1]);
      InvKept(Run(s, steps[..|steps| - 1]), steps[|steps| - 1]);
    }
  }

  lemma WatchStarts(s: State, p: nat)
    requires In(s.uploads, p, Locked)
    ensures Watched(s, p, s.ready)
  {
  }

  lemma {:induction false} WatchedAlways(s: State, steps: seq<Step>, p: nat)
    requires Inv(s) && In(s.uploads, p, Locked)
    requires forall k :: 0 <= k <= |steps| ==> Run(s, steps[..k]).ready == s.ready
    ensures Watched(Run(s, steps), p, s.ready)
    decreases |steps|
  {
    assert steps[..|steps|] == steps;
    assert Run(s, steps[..|steps|]).ready == s.ready;
    WatchStarts(s, p);
    hide Watched, Inv, Apply, In;
    if steps != [] {
      var front := steps[..|steps| - 1];
      forall k | 0 <= k <= |front| ensures Run(s, front[..k]).ready == s.ready {
        assert front[..k] == steps[..k];
      }
      WatchedAlways(s, front, p);
      InvOn(s, front);
      WatchedKept(Run(s, front), steps[|steps| - 1], p, s.ready);
    }
  }

  /** An upload that finds the folder at rest between taking the lock and its decision, whatever else goes on
      meanwhile, is refused as full exactly when its file would break the quota. */
  lemma FullExactlyWithoutRoom(s0: State, before: seq<Step>, during: seq<Step>, p: nat, name: string)
    requires Init(s0)
    requires var s := Run(s0, before);
      && In(s.uploads, p, Locked) && name !in s.ready
      && (forall k :: 0 <= k <= |during| ==> Run(s, during[..k]).ready == s.ready)
      && var t := Run(s, during); In(t.uploads, p, Scanning) && t.left == {}
    ensures var s := Run(s0, before); var t := Run(s, during);
      && p in Apply(t, Critical(p, Decide)).uploads
      && Apply(t, Critical(p, Decide)).uploads[p].phase ==
           if WithinQuota(s.ready[name := File(1, t.uploads[p].data)]) then Cleared else Refused(Full)
  {
    hide Inv, OwnAt, Watched, WithinQuota, Apply, Init;
    InvAlways(s0, before);
    var s := Run(s0, before);
    InvOn(s, during);
    WatchedAlways(s, during, p);
    var t := Run(s, during);
    assert during[..|during|] == during;
    assert Run(s, during[..|during|]).ready == s.ready;
    hide Run;
    DecidesByQuota(t, p, name);
  }

  lemma ScanIsQuota(ready: map<string, Entry>, seen: map<string, nat>, name: string, e: Entry)
    requires seen == (map n | n in ready :: Size(ready[n])) && name !in ready
    ensures |seen| < 50 && Total(seen) + Size(e) <= 200 * 1024 * 1024 <==> WithinQuota(ready[name := e])
  {
    SizesAre(ready);
    assert seen.Keys == ready.Keys;
    OneMore(ready, name, e);
    hide Total, Sizes, Size;
  }

  lemma DecidesByQuota(t: State, p: nat, name: string)
    requires Inv(t) && Watched(t, p, t.ready)
    requires In(t.uploads, p, Scanning) && t.left == {} && name !in t.ready
    ensures Apply(t, Critical(p, Decide)) ==
      t.(uploads := To(t.uploads, p, if WithinQuota(t.ready[name := File(1, t.uploads[p].data)]) then Cleared else Refused(Full)))
  {
    assert OwnAt(t, p);
    assert ScanOk(t.ready, {}, t.count, t.total, t.seen, t.stirred);
    assert t.seen == map n | n in t.ready :: Size(t.ready[n]);
    assert Size(File(1, t.uploads[p].data)) == |t.uploads[p].data|;
    hide Inv, OwnAt, ScanOk, Total, Size, Watched, WithinQuota;
    ScanIsQuota(t.ready, t.seen, name, File(1, t.uploads[p].data));
  }

  // ---- calls that fail --------------------------------------------------------

  /** A failed open, write or check leads out with a storage failure and leaves the folder alone; a failed
      write takes its part away if it can. */
  lemma EarlyFailures(s: State, p: nat, unlinked: bool)
    requires p in s.uploads
    ensures s.uploads[p].phase.Entering? ==>
      Apply(s, Stage(p, OpenPart(false))) == s.(uploads := To(s.uploads, p, Leaving(StorageFailed)))
    ensures s.uploads[p].phase.Writing? ==>
      Apply(s, Stage(p, WriteFails(unlinked))) ==
        s.(uploads := To(s.uploads, p, Leaving(StorageFailed)), staging := if unlinked then s.staging - {p} else s.staging)
    ensures s.uploads[p].phase.Cleared? ==>
      Apply(s, Critical(p, CheckPart(false))) == s.(uploads := To(s.uploads, p, Refused(StorageFailed)))
  {
  }

  /** So does a failed rename; a refusal releases the lock and ends under its own name, its part unlinked if
      it can be. */
  lemma LateFailures(s: State, p: nat, token: string, ok: bool)
    requires p in s.uploads
    ensures s.uploads[p].phase.Checked? && CanRename(s, p, token) ==>
      Apply(s, Critical(p, Rename(token, false))) == s.(uploads := To(s.uploads, p, Refused(StorageFailed)))
    ensures s.uploads[p].phase.Refused? ==>
      Apply(s, Critical(p, Release)) == s.(uploads := To(s.uploads, p, Leaving(s.uploads[p].phase.why)), lock := None)
    ensures s.uploads[p].phase.Leaving? ==>
      var t := Apply(s, Finish(p, Cleanup(ok)));
      && t.uploads == To(s.uploads, p, Done(s.uploads[p].phase.result))
      && t.ready == s.ready && t.staging == if ok then s.staging - {p} else s.staging
  {
    hide MintName, FreshName;
  }

  /** If the folder cannot be flushed the published file is withdrawn, if it can be, and the answer is
      uncertain. */
  lemma UnflushedIsWithdrawn(s: State, p: nat, ok: bool)
    requires In(s.uploads, p, Visible) && s.uploads[p].name.Some?
    ensures var t := Apply(s, Finish(p, FlushReady(false))); var u := Apply(t, Finish(p, Retract(ok)));
      && t.ready == s.ready && In(t.uploads, p, Retracting)
      && In(u.uploads, p, Done(Uncertain)) && !u.uploads[p].flushed
      && u.ready == if ok then s.ready - {s.uploads[p].name.value} else s.ready
  {
  }

  // ---- an upload that goes through -----------------------------------------------

  lemma RunThen(s: State, steps: seq<Step>, a: Step)
    ensures Run(s, steps + [a]) == Apply(Run(s, steps), a)
  {
    assert (steps + [a])[..|steps|] == steps;
  }

  /** Up to the lock, with nothing failing. */
  function Staged(p: nat, data: Bytes, ext: string): seq<Step> {
    [] + [Stage(p, Begin(data, ext, true))] + [Stage(p, OpenPart(true))] + [Stage(p, WriteSome(|data|))] + [Stage(p, FlushPart)]
      + [Critical(p, TakeLock)]
  }

  function At(s: State, p: nat, data: Bytes, ext: string, ph: Phase): State {
    s.(uploads := s.uploads[p := Upload(data, ext, true, ph, None, false)])
  }

  lemma BeginAndOpen(s: State, p: nat, data: Bytes, ext: string)
    requires p !in s.uploads && p !in s.staging && |data| <= 8 * 1024 * 1024 && Allowed(ext)
    ensures Apply(s, Stage(p, Begin(data, ext, true))) == At(s, p, data, ext, Entering)
    ensures Apply(At(s, p, data, ext, Entering), Stage(p, OpenPart(true))) ==
      At(s, p, data, ext, Writing(0)).(staging := s.staging[p := File(1, [])])
  {
    hide Allowed;
  }

  lemma WriteIt(s: State, p: nat, data: Bytes, ext: string)
    requires p !in s.spoilt
    ensures Apply(At(s, p, data, ext, Writing(0)).(staging := s.staging[p := File(1, [])]), Stage(p, WriteSome(|data|))) ==
      At(s, p, data, ext, Writing(|data|)).(staging := s.staging[p := File(1, data)])
  {
    assert data[..|data|] == data;
    assert s.staging[p := File(1, [])][p := File(1, data)] == s.staging[p := File(1, data)];
  }

  lemma FlushIt(s: State, p: nat, data: Bytes, ext: string)
    ensures Apply(At(s, p, data, ext, Writing(|data|)), Stage(p, FlushPart)) == At(s, p, data, ext, Flushed)
  {
  }

  lemma LockIt(s: State, p: nat, data: Bytes, ext: string)
    requires s.lock == None
    ensures Apply(At(s, p, data, ext, Flushed), Critical(p, TakeLock)) == At(s, p, data, ext, Locked).(lock := Some(p))
  {
  }

  lemma Chain(s: State, a1: Step, t1: State, a2: Step, t2: State, a3: Step, t3: State, a4: Step, t4: State)
    requires Apply(s, a1) == t1 && Apply(t1, a2) == t2 && Apply(t2, a3) == t3 && Apply(t3, a4) == t4
    ensures Run(s, [] + [a1] + [a2] + [a3] + [a4]) == t4
  {
    hide Run, Apply;
    RunNothing(s);
    RunThen(s, [], a1);
    RunThen(s, [] + [a1], a2);
    RunThen(s, [] + [a1] + [a2], a3);
    RunThen(s, [] + [a1] + [a2] + [a3], a4);
  }

  lemma StagedLocks(s: State, p: nat, data: Bytes, ext: string)
    requires p !in s.uploads && p !in s.staging && p !in s.spoilt && s.lock == None && |data| <= 8 * 1024 * 1024 && Allowed(ext)
    ensures Run(s, Staged(p, data, ext)) == At(s, p, data, ext, Locked).(staging := s.staging[p := File(1, data)], lock := Some(p))
  {
    hide Allowed, Run, Apply;
    BeginAndOpen(s, p, data, ext);
    WriteIt(s, p, data, ext);
    var full := s.(staging := s.staging[p := File(1, data)]);
    FlushIt(full, p, data, ext);
    LockIt(full, p, data, ext);
    var begin, open := Stage(p, Begin(data, ext, true)), Stage(p, OpenPart(true));
    var write, flush := Stage(p, WriteSome(|data|)), Stage(p, FlushPart);
    var t4 := At(full, p, data, ext, Flushed);
    Chain(s, begin, Apply(s, begin), open, Apply(Apply(s, begin), open), write, At(full, p, data, ext, Writing(|data|)), flush, t4);
    RunThen(s, [] + [begin] + [open] + [write] + [flush], Critical(p, TakeLock));
  }

  lemma RunNothing(s: State)
    ensures Run(s, []) == s
  {
  }

  predicate SameButScan(s: State, t: State) {
    t == s.(left := t.left, count := t.count, total := t.total, seen := t.seen, stirred := t.stirred)
  }

  /** The scan over the folder as it is. */
  lemma {:induction false} ScanAll(s: State, p: nat) returns (steps: seq<Step>)
    requires Inv(s) && Watched(s, p, s.ready) && In(s.uploads, p, Scanning)
    ensures var t := Run(s, steps); SameButScan(s, t) && t.left == {} && Inv(t) && Watched(t, p, s.ready)
    decreases |s.left|
  {
    hide Inv;
    RunNothing(s);
    if s.left == {} {
      return [];
    }
    var name :| name in s.left;
    var a := Critical(p, StatEntry(name));
    var t := Apply(s, a);
    StatOne(s, p, name);
    InvKept(s, a);
    WatchedKept(s, a, p, s.ready);
    hide Apply, Watched;
    var more := ScanAll(t, p);
    steps := [a] + more;
    RunFirst(s, a, more);
  }

  lemma StatOne(s: State, p: nat, name: string)
    requires In(s.uploads, p, Scanning) && name in s.left
    ensures var t := Apply(s, Critical(p, StatEntry(name))); SameButScan(s, t) && t.left == s.left - {name}
  {
  }

  lemma {:induction false} RunFirst(s: State, a: Step, more: seq<Step>)
    ensures Run(s, [a] + more) == Run(Apply(s, a), more)
    decreases |more|
  {
    var steps := [a] + more;
    if more == [] {
      assert steps == [a] && steps[..0] == [];
      RunNothing(s);
    } else {
      assert steps[..|steps| - 1] == [a] + more[..|more| - 1];
      RunFirst(s, a, more[..|more| - 1]);
    }
  }

  lemma RunJoin(s: State, a: seq<Step>, b: seq<Step>)
    ensures Run(s, a + b) == Run(Run(s, a), b)
    decreases |b|
  {
    if b == [] {
      assert a + b == a;
    } else {
      assert (a + b)[..|a + b| - 1] == a + b[..|b| - 1];
      RunJoin(s, a, b[..|b| - 1]);
    }
  }

  /** From a decision in its favour to the receipt. */
  function Published(p: nat, token: string): seq<Step> {
    [] + [Critical(p, CheckPart(true))] + [Critical(p, Rename(token, true))] + [Critical(p, Release)] + [Finish(p, FlushReady(true))]
  }

  lemma CheckIt(s: State, p: nat)
    requires In(s.uploads, p, Cleared) && p in s.staging && s.staging[p] == File(1, s.uploads[p].data)
    ensures Apply(s, Critical(p, CheckPart(true))) == s.(uploads := To(s.uploads, p, Checked))
  {
  }

  lemma RenameIt(s: State, p: nat, token: string)
    requires In(s.uploads, p, Checked) && p in s.staging && s.clock >= 0.0 && Token(token)
    requires FreshName(s, NewName((s.clock * 1000.0).Floor, token, s.uploads[p].ext))
    ensures var name := NewName((s.clock * 1000.0).Floor, token, s.uploads[p].ext);
      Apply(s, Critical(p, Rename(token, true))) ==
        s.(uploads := s.uploads[p := s.uploads[p].(phase := Renamed, name := Some(name))],
           ready := s.ready[name := s.staging[p]], staging := s.staging - {p},
           minted := s.minted[name := p], stamp := s.stamp[name := (s.clock * 1000.0).Floor])
  {
    hide NewName, FreshName, Token;
  }

  lemma ReleaseAndFlush(s: State, p: nat)
    requires In(s.uploads, p, Renamed)
    ensures var t := s.(uploads := To(s.uploads, p, Visible), lock := None);
      && Apply(s, Critical(p, Release)) == t
      && Apply(t, Finish(p, FlushReady(true))) ==
           t.(uploads := t.uploads[p := t.uploads[p].(phase := Done(Stored), flushed := true)])
  {
  }

  lemma PublishedStores(s: State, p: nat, data: Bytes, ext: string, token: string)
    requires p in s.uploads && s.uploads[p] == Upload(data, ext, true, Cleared, None, false)
    requires p in s.staging && s.staging[p] == File(1, data) && s.clock >= 0.0 && Token(token)
    requires FreshName(s, NewName((s.clock * 1000.0).Floor, token, ext))
    ensures var name := NewName((s.clock * 1000.0).Floor, token, ext); var t := Run(s, Published(p, token));
      && t.uploads == s.uploads[p := Upload(data, ext, true, Done(Stored), Some(name), true)]
      && t.ready == s.ready[name := File(1, data)] && t.lock == None && t.staging == s.staging - {p}
  {
    hide Run, Token, NewName, FreshName, Apply;
    var name := NewName((s.clock * 1000.0).Floor, token, ext);
    var check, rename, release := Critical(p, CheckPart(true)), Critical(p, Rename(token, true)), Critical(p, Release);
    CheckIt(s, p);
    var checked := s.(uploads := To(s.uploads, p, Checked));
    SameFresh(s, checked, name);
    RenameIt(checked, p, token);
    var renamed := Apply(checked, rename);
    ReleaseAndFlush(renamed, p);
    var flush := Finish(p, FlushReady(true));
    Chain(s, check, checked, rename, renamed, release, Apply(renamed, release), flush, Apply(Apply(renamed, release), flush));
  }

  lemma SameFresh(s: State, t: State, name: string)
    requires FreshName(s, name) && t.ready == s.ready && t.minted == s.minted && t.touched == s.touched
    ensures FreshName(t, name)
  {
  }

  /** From the lock to the decision, over the folder as it is. */
  lemma ScannedClears(s: State, p: nat, name: string) returns (steps: seq<Step>)
    requires Inv(s) && In(s.uploads, p, Locked) && name !in s.ready
    requires WithinQuota(s.ready[name := File(1, s.uploads[p].data)])
    ensures var t := Run(s, steps); SameButScan(s.(uploads := To(s.uploads, p, Cleared)), t)
  {
    var list, decide := Critical(p, ListReady), Critical(p, Decide);
    var scanning := Apply(s, list);
    assert SameButScan(s.(uploads := To(s.uploads, p, Scanning)), scanning);
    WatchStarts(s, p);
    hide Inv, Watched, WithinQuota, Apply, Run;
    WatchedKept(s, list, p, s.ready);
    InvKept(s, list);
    var stats := ScanAll(scanning, p);
    var t := Run(scanning, stats);
    DecidesByQuota(t, p, name);
    steps := [list] + (stats + [decide]);
    RunFirst(s, list, stats + [decide]);
    RunThen(scanning, stats, decide);
    ClearedIs(s, scanning, t, p);
  }

  lemma ClearedIs(s: State, scanning: State, t: State, p: nat)
    requires p in s.uploads && SameButScan(s.(uploads := To(s.uploads, p, Scanning)), scanning) && SameButScan(scanning, t)
    ensures SameButScan(s.(uploads := To(s.uploads, p, Cleared)), t.(uploads := To(t.uploads, p, Cleared)))
  {
  }

  /** An accepted upload within the cap that finds the lock free, room in the folder and no failing call is
      stored: its bytes are in the folder under the name minted from the clock, and nothing else has
      changed there. */
  lemma UndisturbedUploadIsStored(s: State, p: nat, data: Bytes, ext: string, token: string) returns (steps: seq<Step>)
    requires Inv(s) && p !in s.uploads && p !in s.staging && p !in s.spoilt && s.lock == None
    requires |data| <= 8 * 1024 * 1024 && Allowed(ext) && Token(token)
    requires var name := NewName((s.clock * 1000.0).Floor, token, ext);
      name !in s.ready && name !in s.minted && name !in s.touched
    requires WithinQuota(s.ready[NewName((s.clock * 1000.0).Floor, token, ext) := File(1, data)])
    ensures var name := NewName((s.clock * 1000.0).Floor, token, ext); var t := Run(s, steps);
      && In(t.uploads, p, Done(Stored)) && t.uploads[p].name == Some(name)
      && t.ready == s.ready[name := File(1, data)] && t.lock == None && t.staging == s.staging
  {
    var name := NewName((s.clock * 1000.0).Floor, token, ext);
    assert s.clock >= 0.0 && FreshName(s, name);
    hide Inv, WithinQuota, NewName, Apply, Run, Allowed, Token, FreshName, Staged, Published, At, SameButScan;
    StagedLocks(s, p, data, ext);
    InvOn(s, Staged(p, data, ext));
    var locked := Run(s, Staged(p, data, ext));
    LockedReady(s, p, data, ext);
    var scan := ScannedClears(locked, p, name);
    ClearedReady(locked, Run(locked, scan), p);
    hide To;
    steps := Staged(p, data, ext) + (scan + Published(p, token));
    RunJoin(s, Staged(p, data, ext), scan + Published(p, token));
    RunJoin(locked, scan, Published(p, token));
    PublishesFrom(s, Run(locked, scan), p, data, ext, token);
  }

  lemma PublishesFrom(s: State, t: State, p: nat, data: Bytes, ext: string, token: string)
    requires p !in s.staging && s.clock >= 0.0 && Token(token) && FreshName(s, NewName((s.clock * 1000.0).Floor, token, ext))
    requires p in t.uploads && t.uploads[p] == Upload(data, ext, true, Cleared, None, false)
    requires t.staging == s.staging[p := File(1, data)] && t.clock == s.clock
    requires t.ready == s.ready && t.minted == s.minted && t.touched == s.touched
    ensures var name := NewName((s.clock * 1000.0).Floor, token, ext); var u := Run(t, Published(p, token));
      && In(u.uploads, p, Done(Stored)) && u.uploads[p].name == Some(name)
      && u.ready == s.ready[name := File(1, data)] && u.lock == None && u.staging == s.staging
  {
    hide NewName, Run, Token, FreshName, Published;
    SameFresh(s, t, NewName((s.clock * 1000.0).Floor, token, ext));
    PublishedStores(t, p, data, ext, token);
    PutTakeBack(s.staging, p, File(1, data));
  }

  lemma LockedReady(s: State, p: nat, data: Bytes, ext: string)
    ensures var t := At(s, p, data, ext, Locked).(staging := s.staging[p := File(1, data)], lock := Some(p));
      && In(t.uploads, p, Locked) && t.uploads[p] == Upload(data, ext, true, Locked, None, false)
      && t.staging == s.staging[p := File(1, data)] && t.clock == s.clock
      && t.ready == s.ready && t.minted == s.minted && t.touched == s.touched
  {
  }

  lemma ClearedReady(s: State, t: State, p: nat)
    requires p in s.uploads && SameButScan(s.(uploads := To(s.uploads, p, Cleared)), t)
    ensures p in t.uploads && t.uploads[p] == s.uploads[p].(phase := Cleared) && t.clock == s.clock && t.staging == s.staging
    ensures t.ready == s.ready && t.minted == s.minted && t.touched == s.touched
  {
  }

  lemma PutTakeBack(m: map<nat, Entry>, p: nat, e: Entry)
    requires p !in m
    ensures m[p := e] - {p} == m
  {
  }
}
