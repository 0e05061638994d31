/** What the folder guarantees over every run. */
module InboxTheorems {
  import opened Prelude
  import opened InboxNames
  import opened InboxFolder
  import opened InboxInvariants

  /** A file counts by its bytes, anything else by what the file system says of it. */
  ghost function Sizes(ready: map<string, Entry>): map<string, nat> {
    map n | n in ready :: match ready[n] case File(_, data) => |data| case Other(_, extent) => extent
  }

  lemma SizesAre(ready: map<string, Entry>)
    ensures Sizes(ready) == map n | n in ready :: Size(ready[n])
  {
  }

  /** The folder's capacity: 50 entries, 200 MB. */
  ghost predicate WithinQuota(ready: map<string, Entry>) {
    |ready| <= 50 && Total(Sizes(ready)) <= 200 * 1024 * 1024
  }

  /** What is in the folder but for the entries somebody else put there since the scan began. */
  ghost function Undisturbed(ready: map<string, Entry>, stirred: set<string>): map<string, Entry> {
    map n | n in ready && n !in stirred :: ready[n]
  }

  ghost predicate Renames(s: State, a: Step) {
    a.Critical? && a.critical.Rename? && a.critical.renamed && CanRename(s, a.p, a.critical.token) && a.p in s.staging
  }

  lemma ScanCovers(ready: map<string, Entry>, seen: map<string, nat>, count: nat, total: nat, stirred: set<string>)
    requires ScanOk(ready, {}, count, total, seen, stirred)
    ensures |Undisturbed(ready, stirred)| <= count && Total(Sizes(Undisturbed(ready, stirred))) <= total
  {
    var before := Undisturbed(ready, stirred);
    TotalWithin(Sizes(before), seen);
    assert Sizes(before).Keys == before.Keys;
  }

  lemma OneMore(m: map<string, Entry>, name: string, entry: Entry)
    requires name !in m
    ensures |m[name := entry]| == |m| + 1 && Total(Sizes(m[name := entry])) == Total(Sizes(m)) + Size(entry)
  {
    SizesAre(m);
    SizesAre(m[name := entry]);
    hide Total, Size, Sizes;
    assert Sizes(m[name := entry]) == Sizes(m)[name := Size(entry)];
    TotalAdd(Sizes(m), name, Size(entry));
    assert m[name := entry].Keys == m.Keys + {name};
  }

  /** A cleared scan leaves room for one more file. */
  lemma RoomForOne(ready: map<string, Entry>, seen: map<string, nat>, count: nat, total: nat,
                   stirred: set<string>, name: string, entry: Entry)
    requires ScanOk(ready, {}, count, total, seen, stirred) && name !in ready
    ensures |Undisturbed(ready[name := entry], stirred)| <= count + 1
    ensures Total(Sizes(Undisturbed(ready[name := entry], stirred))) <= total + Size(entry)
  {
    ScanCovers(ready, seen, count, total, stirred);
    var now := Undisturbed(ready[name := entry], stirred);
    var before := Undisturbed(ready, stirred);
    hide ScanOk;
    if name in stirred {
      assert now == before;
    } else {
      assert now == before[name := entry];
      hide Undisturbed, Total, Size;
      OneMore(before, name, entry);
    }
  }

  /** A publish never takes the folder past its quota: right after the rename, everything in it that
      nobody else put there during the critical section is at most 50 entries and 200 MB, however
      the scan was interleaved with sweeps, retracts and deletions. */
  lemma PublishKeepsQuota(s0: State, steps: seq<Step>, a: Step)
    requires Init(s0)
    requires var s := Run(s0, steps); Renames(s, a) && a.p !in s.spoilt
    ensures var t := Apply(Run(s0, steps), a); WithinQuota(Undisturbed(t.ready, t.stirred))
  {
    InvAlways(s0, steps);
    RenameKeepsQuota(Run(s0, steps), a);
  }

  lemma RenameKeepsQuota(s: State, a: Step)
    requires Inv(s) && Renames(s, a) && a.p !in s.spoilt
    ensures var t := Apply(s, a); WithinQuota(Undisturbed(t.ready, t.stirred))
  {
    var p, token := a.p, a.critical.token;
    assert OwnAt(s, p) && s.lock == Some(p);
    ReadyToRename(s, p, token);
    RenameEffect(s, p, token, true);
    var n, e := MintName(s, p, token), s.staging[p];
    assert ScanOk(s.ready, {}, s.count, s.total, s.seen, s.stirred);
    assert s.count < MAX_FILES && s.total + |s.uploads[p].data| <= MAX_BYTES;
    assert Apply(s, a) == DoRename(s, p, token, true);
    assert DoRename(s, p, token, true).stirred == s.stirred;
    assert n !in s.ready;
    assert Size(e) == |s.uploads[p].data|;
    hide Inv, Undisturbed, Total, Sizes, ScanOk, CanRename, MintName, DoRename, Apply;
    RoomForOne(s.ready, s.seen, s.count, s.total, s.stirred, n, e);
  }

  // ---- the quota for good -----------------------------------------------------

  predicate PutsNothing(a: Step) { !(a.World? && (a.world.Inject? || a.world.Tamper?)) }

  lemma FewerIsWithin(a: map<string, Entry>, b: map<string, Entry>)
    requires a.Keys <= b.Keys && (forall n :: n in a ==> a[n] == b[n]) && WithinQuota(b)
    ensures WithinQuota(a)
  {
    TotalWithin(Sizes(a), Sizes(b));
    assert Sizes(a).Keys == a.Keys && Sizes(b).Keys == b.Keys;
  }

  predicate NoMore(s: State, t: State) {
    t.ready.Keys <= s.ready.Keys && forall n :: n in t.ready ==> t.ready[n] == s.ready[n]
  }

  predicate Undisturbing(s: State, t: State) {
    s.stirred == {} && s.spoilt == {} ==> t.stirred == {} && t.spoilt == {}
  }

  lemma RenameStirsNothing(s: State, p: nat, token: string, ok: bool)
    ensures Undisturbing(s, DoRename(s, p, token, ok))
    ensures !(ok && CanRename(s, p, token) && p in s.staging) ==> DoRename(s, p, token, ok).ready == s.ready
  {
    hide MintName, CanRename;
  }

  lemma CriticalStirsNothing(s: State, p: nat, a: CriticalAct)
    requires !a.Rename?
    ensures Undisturbing(s, ApplyCritical(s, p, a)) && ApplyCritical(s, p, a).ready == s.ready
  {
    hide In, To;
  }

  lemma FinishStirsNothing(s: State, p: nat, a: FinishAct)
    ensures Undisturbing(s, ApplyFinish(s, p, a)) && NoMore(s, ApplyFinish(s, p, a))
  {
    hide In, To;
  }

  lemma SweepsPutNothing(s: State, w: nat, a: SweepAct)
    ensures Undisturbing(s, ApplySweep(s, w, a)) && NoMore(s, ApplySweep(s, w, a))
  {
    hide Condemned, IsDir;
  }

  lemma WorldPutsNothing(s: State, a: WorldAct)
    requires !a.Inject? && !a.Tamper?
    ensures Undisturbing(s, ApplyWorld(s, a)) && NoMore(s, ApplyWorld(s, a))
  {
  }

  /** Every step but the rename leaves the folder as it is or takes something out. */
  lemma OthersOnlyRemove(s: State, a: Step)
    requires PutsNothing(a)
    ensures Undisturbing(s, Apply(s, a)) && (!Renames(s, a) ==> NoMore(s, Apply(s, a)))
  {
    hide DoRename, ApplyStage, ApplyCritical, ApplyFinish, CanRename, ApplySweep, ApplyWorld;
    match a {
      case Stage(p, act) => StageAside(s, p, act, p);
      case Critical(p, Rename(token, ok)) =>
        RenameIsCritical(s, p, token, ok);
        RenameStirsNothing(s, p, token, ok);
      case Critical(p, act) => CriticalStirsNothing(s, p, act);
      case Finish(p, act) => FinishStirsNothing(s, p, act);
      case Sweeping(w, act) => SweepsPutNothing(s, w, act);
      case World(act) => WorldPutsNothing(s, act);
    }
  }

  /** While nobody else puts anything into the directories, the folder never exceeds its quota,
      whatever else is deleted from it. */
  lemma {:induction false} FolderStaysWithinQuota(s0: State, steps: seq<Step>)
    requires Init(s0) && WithinQuota(s0.ready) && forall a :: a in steps ==> PutsNothing(a)
    ensures WithinQuota(Run(s0, steps).ready)
    ensures Run(s0, steps).stirred == {} && Run(s0, steps).spoilt == {}
    decreases |steps|
  {
    if steps != [] {
      var front, a := steps[..|steps| - 1], steps[|steps| - 1];
      var s, t := Run(s0, front), Run(s0, steps);
      FolderStaysWithinQuota(s0, front);
      InvAlways(s0, front);
      OthersOnlyRemove(s, a);
      if Renames(s, a) {
        RenameKeepsQuota(s, a);
        assert Undisturbed(t.ready, t.stirred) == t.ready;
      } else {
        FewerIsWithin(t.ready, s.ready);
      }
    }
  }

  // ---- published files ----------------------------------------------------------

  /** Published, by its own name, less than seven days before `now`. */
  predicate Young(name: string, now: real) {
    Parse(name).Some? && now - Parse(name).value.ms as real / 1000.0 < 7.0 * 24.0 * 3600.0
  }

  /** An acknowledged file that nobody else touched is in its place, with the bytes that were
      uploaded, for seven days from its stamp: no sweep and no other upload removes or alters it. */
  lemma AcknowledgedFilesStay(s0: State, steps: seq<Step>, p: nat)
    requires Init(s0)
    requires var s := Run(s0, steps);
      && In(s.uploads, p, Done(Stored)) && p !in s.spoilt && Era(s.clock)
    ensures var s := Run(s0, steps); var u := s.uploads[p];
      && u.name.Some? && CasaName(u.name.value) && Parse(u.name.value).value.ext == u.ext
      && (u.name.value !in s.touched && Young(u.name.value, s.clock) ==>
            u.name.value in s.ready && s.ready[u.name.value] == File(1, u.data))
  {
    var s := Run(s0, steps);
    InvAlways(s0, steps);
    assert OwnAt(s, p);
    var u := s.uploads[p];
    var n := u.name.value;
    StampReads(s, n);
    hide Inv, CasaName, Parse;
    if n !in s.touched && Young(n, s.clock) {
      FateOf(s, n);
    }
  }

  /** A stamp reads back, so age by the name is age since publication. */
  lemma StampReads(s: State, n: string)
    requires Inv(s) && n in s.minted && Era(s.clock)
    ensures s.minted[n] in s.uploads && n in s.stamp
    ensures Parse(n) == Some(Parsed(s.stamp[n], s.uploads[s.minted[n]].ext)) && CasaName(n)
    ensures s.stamp[n] as real <= s.clock * 1000.0
  {
    var ms, ext := s.stamp[n], s.uploads[s.minted[n]].ext;
    assert MintedAs(n, ms, ext);
    assert ms < 10_000_000_000_000;
    var token :| Token(token) && n == NewName(ms, token, ext);
    hide Inv, Token, NewName, Allowed, Parse;
    MintedNameParses(ms, token, ext);
  }

  lemma FateOf(s: State, n: string)
    requires Inv(s) && n in s.minted && Era(s.clock)
    requires n !in s.touched && s.minted[n] !in s.spoilt
    ensures s.minted[n] in s.uploads
    ensures var u := s.uploads[s.minted[n]];
      u.phase == Done(Uncertain) || Expired(n, s.clock) || (n in s.ready && s.ready[n] == File(1, u.data))
  {
    assert Fate(n, s.uploads[s.minted[n]], s.ready, s.clock, s.stamp, s.retracted, s.swept);
    StampReads(s, n);
    hide Inv, Parse, CasaName;
  }

  // ---- receipts -------------------------------------------------------------------

  predicate PublishedBy(s: State, p: nat) { exists n :: n in s.minted && s.minted[n] == p }

  /** The receipt says what happened: a file was published exactly for `Stored` and `Uncertain`, the
      folder flushed after it exactly for `Stored`; an upload over the cap is too large, and one
      within it a mismatch exactly when its extension or its content is not accepted. */
  lemma ReceiptsMatch(s0: State, steps: seq<Step>, p: nat)
    requires Init(s0)
    requires var s := Run(s0, steps); p in s.uploads && s.uploads[p].phase.Done?
    ensures var s := Run(s0, steps); var u := s.uploads[p];
      && (PublishedBy(s, p) <==> u.phase.outcome == Stored || u.phase.outcome == Uncertain)
      && (u.flushed <==> u.phase.outcome == Stored)
      && (u.phase.outcome == TooLarge <==> |u.data| > 8 * 1024 * 1024)
      && (u.phase.outcome == Mismatch <==> |u.data| <= 8 * 1024 * 1024 && !(Allowed(u.ext) && u.accepted))
  {
    var s := Run(s0, steps);
    InvAlways(s0, steps);
    assert OwnAt(s, p);
    hide Allowed, InvFate, InvGone, InvScan, InvSweeps, InvStamp, InvKnown;
    if s.uploads[p].name.Some? {
      assert s.minted[s.uploads[p].name.value] == p;
    }
  }

  /** Every way out of an upload leaves nothing of it in staging, unless the unlink itself failed. */
  lemma NoPartIsLeft(s0: State, steps: seq<Step>, p: nat)
    requires Init(s0)
    requires var s := Run(s0, steps); p in s.uploads && s.uploads[p].phase.Done? && p !in s.spoilt && p !in s.stuck
    ensures p !in Run(s0, steps).staging
  {
    InvAlways(s0, steps);
    assert OwnAt(Run(s0, steps), p);
  }

  /** No step of an upload removes or alters an entry other than the one it published. */
  lemma UploadsKeepOtherFiles(s: State, p: nat, a: Step, n: string)
    requires Inv(s) && (a.Stage? || a.Critical? || a.Finish?) && a.p == p
    requires n in s.ready && !(p in s.uploads && s.uploads[p].name == Some(n))
    ensures n in Apply(s, a).ready && Apply(s, a).ready[n] == s.ready[n]
  {
    assert OwnAt(s, p);
    hide Inv, OwnAt, DoRename, DoRetract, ApplyStage, ApplyCritical, ApplyFinish, MintName;
    match a {
      case Stage(_, act) => StageAside(s, p, act, p);
      case Critical(_, Rename(token, ok)) =>
        RenameIsCritical(s, p, token, ok);
        RenameEffect(s, p, token, ok);
      case Critical(_, act) => CriticalAside(s, p, act, p);
      case Finish(_, Retract(ok)) =>
        RetractIsFinish(s, p, ok);
        RetractEffect(s, p, ok);
      case Finish(_, act) => FinishAside(s, p, act, p);
    }
  }

  lemma RenameIsCritical(s: State, p: nat, token: string, ok: bool)
    ensures ApplyCritical(s, p, Rename(token, ok)) == DoRename(s, p, token, ok)
  {
  }

  lemma RetractIsFinish(s: State, p: nat, ok: bool)
    ensures ApplyFinish(s, p, Retract(ok)) == DoRetract(s, p, ok)
  {
  }
}
