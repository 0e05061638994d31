/**
 * The folder's own loops over its directories, run without interference: the quota count, the
 * sweep and the listing.
 */
module InboxModule {
  import opened Prelude
  import opened InboxNames
  import opened InboxFolder
  import opened InboxInvariants
  import opened InboxTheorems

  // ---- what a sweep leaves -------------------------------------------------

  /** The folder after a sweep at `now`; entries in `immovable` could not be removed. */
  function Swept(ready: map<string, Entry>, now: real, immovable: set<string>): map<string, Entry> {
    map n | n in ready && (n in immovable || !Condemned(n, ready[n], now)) :: ready[n]
  }

  /** The names a sweep leaves in their place as Casa's own. */
  function Present(ready: map<string, Entry>, now: real): set<string> {
    set n | n in ready && !Condemned(n, ready[n], now)
  }

  /** Metadata goes with its file; other files in the directory are left alone. */
  function SweptMeta(meta: set<string>, present: set<string>, stuck: set<string>): set<string> {
    set m | m in meta && (!Orphan(m, present) || m in stuck)
  }

  const JSON := ".json"

  predicate IsJson(m: string) { |m| >= |JSON| && m[|m| - |JSON|..] == JSON }

  /** What is not a plain file under one of Casa's names. */
  predicate Foreign(n: string, e: Entry) { !Plain(e) || !CasaName(n) }

  function Strangers(names: set<string>, ready: map<string, Entry>): set<string> {
    set n | n in names && n in ready && Foreign(n, ready[n])
  }

  lemma StrangersMore(done: set<string>, ready: map<string, Entry>, n: string)
    requires n !in done && n in ready
    ensures |Strangers(done + {n}, ready)| == |Strangers(done, ready)| + (if Foreign(n, ready[n]) then 1 else 0)
  {
    hide Foreign;
    if Foreign(n, ready[n]) {
      assert Strangers(done + {n}, ready) == Strangers(done, ready) + {n};
    } else {
      assert Strangers(done + {n}, ready) == Strangers(done, ready);
    }
  }

  predicate Orphan(m: string, present: set<string>) { IsJson(m) && m[..|m| - |JSON|] !in present }

  lemma NoStrangers(ready: map<string, Entry>)
    ensures Strangers({}, ready) == {}
  {
  }

  /** The folder when the entries in `left` are still to be visited. */
  function HalfSwept(ready: map<string, Entry>, left: set<string>, now: real, immovable: set<string>): map<string, Entry> {
    map n | n in ready && (n in left || n in immovable || !Condemned(n, ready[n], now)) :: ready[n]
  }

  lemma HalfSweptBounds(ready: map<string, Entry>, now: real, immovable: set<string>)
    ensures HalfSwept(ready, ready.Keys, now, immovable) == ready
    ensures HalfSwept(ready, {}, now, immovable) == Swept(ready, now, immovable)
  {
  }

  lemma HalfSweptStep(ready: map<string, Entry>, left: set<string>, n: string, now: real, immovable: set<string>)
    requires n in left && n in ready
    ensures var h := HalfSwept(ready, left, now, immovable);
      && n in h && h[n] == ready[n]
      && (Condemned(n, ready[n], now) && n !in immovable ==> HalfSwept(ready, left - {n}, now, immovable) == h - {n})
      && (!Condemned(n, ready[n], now) || n in immovable ==> HalfSwept(ready, left - {n}, now, immovable) == h)
  {
    hide Condemned;
  }

  lemma SuffixIsJson(n: string)
    ensures IsJson(n + JSON) && (n + JSON)[..|n + JSON| - |JSON|] == n
  {
  }

  /** The visited names a sweep leaves in their place. */
  function Upheld(done: set<string>, ready: map<string, Entry>, now: real): set<string> {
    set n | n in done && n in ready && !Condemned(n, ready[n], now)
  }

  lemma UpheldBounds(ready: map<string, Entry>, now: real)
    ensures Upheld({}, ready, now) == {} && Upheld(ready.Keys, ready, now) == Present(ready, now)
  {
  }

  lemma UpheldStep(done: set<string>, ready: map<string, Entry>, n: string, now: real)
    requires n in ready
    ensures Condemned(n, ready[n], now) ==> Upheld(done + {n}, ready, now) == Upheld(done, ready, now)
    ensures !Condemned(n, ready[n], now) ==> Upheld(done + {n}, ready, now) == Upheld(done, ready, now) + {n}
  {
    hide Condemned;
  }

  /** Only the metadata of condemned entries has gone. */
  predicate Dropped(before: set<string>, meta: set<string>, done: set<string>, present: set<string>, stuck: set<string>) {
    meta <= before && forall m :: m in before - meta ==>
      m !in stuck && IsJson(m) && m[..|m| - |JSON|] in done && m[..|m| - |JSON|] !in present
  }

  /** The first loop when the entries in `left` are still to be visited. */
  ghost predicate Progress(was: map<string, Entry>, ready: map<string, Entry>, left: set<string>, present: set<string>,
                           foreign: nat, expired: nat, now: real, immovable: set<string>) {
    var done := was.Keys - left;
    && ready == HalfSwept(was, left, now, immovable)
    && present == Upheld(done, was, now)
    && foreign == |Strangers(done, was)| && foreign + expired + |present| == |done|
  }

  lemma ProgressStarts(was: map<string, Entry>, meta: set<string>, now: real, immovable: set<string>, stuck: set<string>)
    ensures Progress(was, was, was.Keys, {}, 0, 0, now, immovable)
    ensures Dropped(meta, meta, was.Keys - was.Keys, {}, stuck)
  {
    assert was.Keys - was.Keys == {};
    HalfSweptBounds(was, now, immovable);
    UpheldBounds(was, now);
    NoStrangers(was);
    NothingDropped(meta, stuck);
    hide HalfSwept, Upheld, Strangers, Dropped;
  }

  lemma ProgressAt(was: map<string, Entry>, ready: map<string, Entry>, left: set<string>, present: set<string>,
                   foreign: nat, expired: nat, now: real, immovable: set<string>, n: string)
    requires Progress(was, ready, left, present, foreign, expired, now, immovable) && n in left && left <= was.Keys
    ensures n in ready && ready[n] == was[n] && present <= was.Keys - left
  {
    HalfSweptStep(was, left, n, now, immovable);
  }

  /** What one visit makes of it, by the three outcomes. */
  lemma ProgressStep(was: map<string, Entry>, ready: map<string, Entry>, left: set<string>, present: set<string>,
                     foreign: nat, expired: nat, now: real, immovable: set<string>, n: string)
    requires Progress(was, ready, left, present, foreign, expired, now, immovable) && n in left && left <= was.Keys
    ensures var rest := left - {n}; var gone := if n in immovable then ready else ready - {n};
      if Foreign(n, was[n]) then Progress(was, gone, rest, present, foreign + 1, expired, now, immovable)
      else if Expired(n, now) then Progress(was, gone, rest, present, foreign, expired + 1, now, immovable)
      else Progress(was, ready, rest, present + {n}, foreign, expired, now, immovable)
  {
    assert Condemned(n, was[n], now) <==> Foreign(n, was[n]) || Expired(n, now);
    var done := was.Keys - left;
    assert was.Keys - (left - {n}) == done + {n};
    hide HalfSwept, Upheld, Strangers, Condemned, Foreign, Expired;
    HalfSweptStep(was, left, n, now, immovable);
    UpheldStep(done, was, n, now);
    StrangersMore(done, was, n);
    NotUpheld(done, was, now, n);
  }

  lemma NotUpheld(done: set<string>, was: map<string, Entry>, now: real, n: string)
    requires n !in done
    ensures |Upheld(done, was, now) + {n}| == |Upheld(done, was, now)| + 1 && |done + {n}| == |done| + 1
  {
  }

  lemma ProgressEnds(was: map<string, Entry>, ready: map<string, Entry>, present: set<string>,
                     foreign: nat, expired: nat, now: real, immovable: set<string>)
    requires Progress(was, ready, {}, present, foreign, expired, now, immovable)
    ensures ready == Swept(was, now, immovable) && present == Present(was, now)
    ensures foreign == |Strangers(was.Keys, was)| && foreign + expired == |was| - |present|
  {
    assert was.Keys - {} == was.Keys;
    HalfSweptBounds(was, now, immovable);
    UpheldBounds(was, now);
    hide HalfSwept, Upheld, Strangers, Swept, Present;
  }

  lemma DroppedAt(before: set<string>, meta: set<string>, names: set<string>, left: set<string>, present: set<string>,
                  stuck: set<string>, n: string)
    requires Dropped(before, meta, names - left, present, stuck) && n in left && n in names && present <= names - left
    ensures var done := names - (left - {n});
      && Dropped(before, meta, done, present, stuck) && Dropped(before, meta, done, present + {n}, stuck)
      && (n + JSON !in stuck ==> Dropped(before, meta - {n + JSON}, done, present, stuck))
  {
    assert names - (left - {n}) == (names - left) + {n};
    DroppedStep(before, meta, names - left, present, stuck, n);
    hide Dropped;
  }

  lemma NothingDropped(meta: set<string>, stuck: set<string>)
    ensures Dropped(meta, meta, {}, {}, stuck)
  {
  }

  lemma DroppedStep(before: set<string>, meta: set<string>, done: set<string>, present: set<string>,
                    stuck: set<string>, n: string)
    requires Dropped(before, meta, done, present, stuck) && n !in done && present <= done
    ensures Dropped(before, meta, done + {n}, present, stuck) && Dropped(before, meta, done + {n}, present + {n}, stuck)
    ensures n + JSON !in stuck ==> Dropped(before, meta - {n + JSON}, done + {n}, present, stuck)
  {
    SuffixIsJson(n);
    hide IsJson;
  }

  lemma DroppedEnds(before: set<string>, meta: set<string>, done: set<string>, present: set<string>, stuck: set<string>)
    requires Dropped(before, meta, done, present, stuck)
    ensures meta <= before && forall m :: m in before - meta ==> m !in stuck && Orphan(m, present)
  {
  }

  lemma CondemnedLater(n: string, e: Entry, t1: real, t2: real)
    requires t1 <= t2 && Condemned(n, e, t1)
    ensures Condemned(n, e, t2)
  {
  }

  /** Sweeping is idempotent, and an earlier sweep makes no difference to a later one. */
  lemma SweptTwice(ready: map<string, Entry>, t1: real, t2: real)
    requires t1 <= t2
    ensures Swept(Swept(ready, t1, {}), t2, {}) == Swept(ready, t2, {})
  {
    forall n | n in ready && Condemned(n, ready[n], t1) ensures Condemned(n, ready[n], t2) {
      CondemnedLater(n, ready[n], t1, t2);
    }
    hide Condemned;
  }

  // ---- newest first --------------------------------------------------------

  datatype Listed = Listed(name: string, ms: nat, ext: string, size: nat)

  predicate NewestFirst(s: seq<Listed>) { forall i, j :: 0 <= i < j < |s| ==> s[i].ms >= s[j].ms }

  /** `sort(reverse=True)` keeps the order of equal keys. */
  function Place(s: seq<Listed>, x: Listed): seq<Listed> {
    if s == [] || s[|s| - 1].ms >= x.ms then s + [x] else Place(s[..|s| - 1], x) + [s[|s| - 1]]
  }

  function SortNewest(s: seq<Listed>): seq<Listed> {
    if s == [] then [] else Place(SortNewest(s[..|s| - 1]), s[|s| - 1])
  }

  lemma {:induction false} PlaceKeeps(s: seq<Listed>, x: Listed)
    ensures multiset(Place(s, x)) == multiset(s) + multiset{x}
  {
    if !(s == [] || s[|s| - 1].ms >= x.ms) {
      PlaceKeeps(s[..|s| - 1], x);
      assert s == s[..|s| - 1] + [s[|s| - 1]];
    }
  }

  lemma {:induction false} PlaceSorts(s: seq<Listed>, x: Listed)
    requires NewestFirst(s)
    ensures NewestFirst(Place(s, x))
    ensures s != [] && s[|s| - 1].ms < x.ms ==> forall y :: y in Place(s[..|s| - 1], x) ==> y.ms >= s[|s| - 1].ms
  {
    if !(s == [] || s[|s| - 1].ms >= x.ms) {
      var front, y := s[..|s| - 1], s[|s| - 1];
      PlaceSorts(front, x);
      PlaceKeeps(front, x);
      var p := Place(front, x);
      forall z | z in p ensures z.ms >= y.ms {
        assert z in multiset(p);
        if z != x {
          assert z in multiset(front);
          var i :| 0 <= i < |front| && front[i] == z;
          assert s[i] == z;
        }
      }
      hide Place;
      forall i | 0 <= i < |p| ensures p[i].ms >= y.ms {
        assert p[i] in p;
      }
    }
  }

  /** The listing is a permutation, newest first. */
  lemma {:induction false} SortNewestSorts(s: seq<Listed>)
    ensures NewestFirst(SortNewest(s)) && multiset(SortNewest(s)) == multiset(s)
  {
    if s != [] {
      var front, x := s[..|s| - 1], s[|s| - 1];
      SortNewestSorts(front);
      PlaceSorts(SortNewest(front), x);
      PlaceKeeps(SortNewest(front), x);
      assert s == front + [x];
    }
  }

  // ---- the folder ------------------------------------------------------------

  /** What the listing says of an entry. */
  function Describe(n: string, e: Entry): Listed
    requires CasaName(n)
  {
    Listed(n, Parse(n).value.ms, Parse(n).value.ext, Size(e))
  }

  /** The valid entries among `names`. */
  ghost function Valid(names: set<string>, ready: map<string, Entry>): set<Listed> {
    set n | n in names && n in ready && !Foreign(n, ready[n]) :: Describe(n, ready[n])
  }

  lemma NoneValid(ready: map<string, Entry>)
    ensures Valid({}, ready) == {}
  {
  }

  lemma ValidMore(done: set<string>, ready: map<string, Entry>, n: string)
    requires n !in done && n in ready
    ensures !Foreign(n, ready[n]) ==>
      CasaName(n) && Describe(n, ready[n]) !in Valid(done, ready) && Valid(done + {n}, ready) == Valid(done, ready) + {Describe(n, ready[n])}
    ensures Foreign(n, ready[n]) ==> Valid(done + {n}, ready) == Valid(done, ready)
  {
    hide Parse;
  }

  lemma NothingCounted()
    ensures Total(map[]) == 0
  {
  }

  lemma OneCounted(seen: map<string, nat>, n: string, v: nat)
    requires n !in seen
    ensures |seen[n := v]| == |seen| + 1 && Total(seen[n := v]) == Total(seen) + v
  {
    TotalAdd(seen, n, v);
    assert seen[n := v].Keys == seen.Keys + {n};
  }

  lemma PutTake(m: map<string, Entry>, k: string, e: Entry)
    requires k !in m
    ensures m[k := e] - {k} == m
  {
  }

  lemma Without(m: map<string, Entry>, k: string)
    ensures k !in m ==> m - {k} == m
    ensures (m - {k}) - {k} == m - {k}
  {
  }

  ghost predicate HasRoom(ready: map<string, Entry>, incoming: nat) {
    |ready| < MAX_FILES && Total(Sizes(ready)) + incoming <= MAX_BYTES
  }

  /** There is room exactly for what the folder can take without leaving its quota. */
  lemma RoomIsQuota(ready: map<string, Entry>, name: string, e: Entry)
    requires name !in ready
    ensures HasRoom(ready, Size(e)) <==> WithinQuota(ready[name := e])
  {
    OneMore(ready, name, e);
  }

  /** Which calls of one publish succeed.  Each `write` takes at least a byte and at most what it is
      given, the i-th one `chunks[i] + 1`; if the writing fails, it does so after `partial` bytes. */
  datatype Calls = Calls(create: bool, write: bool, chunks: seq<nat>, partial: nat, check: bool, rename: bool,
                         flush: bool, retract: bool, unlink: bool)

  function Least(a: nat, b: nat): nat { if a <= b then a else b }

  class Inbox {
    var ready: map<string, Entry>
    var meta: set<string>
    var staging: map<string, Entry>

    constructor (entries: map<string, Entry>, files: set<string>)
      ensures ready == entries && meta == files && staging == map[]
    {
      ready, meta, staging := entries, files, map[];
    }

    /** Creates the part and makes its bytes durable, or takes it away again and fails. */
    method WritePart(part: string, data: Bytes, c: Calls) returns (written: bool)
      requires part !in staging
      modifies this`staging
      ensures written <==> c.create && c.write
      ensures written ==> staging == old(staging)[part := File(1, data)]
      ensures !written ==> staging - {part} == old(staging) && (part in staging ==> c.create && !c.unlink)
    {
      if !c.create {
        assert staging - {part} == staging;
        return false;
      }
      ghost var before := staging;
      staging := staging[part := File(1, [])];
      var goal := if c.write then |data| else Least(c.partial, |data|);
      var done, k := 0, 0;
      while done < goal
        invariant 0 <= done <= goal <= |data| && staging == before[part := File(1, data[..done])]
        decreases goal - done
      {
        done := Least(done + (if k < |c.chunks| then c.chunks[k] + 1 else goal - done), goal);
        k := k + 1;
        staging := staging[part := File(1, data[..done])];
      }
      PutTake(before, part, staging[part]);
      if !c.write {
        if c.unlink {
          staging := staging - {part};
        }
        Without(before, part);
        return false;
      }
      assert data[..|data|] == data;
      return true;
    }

    /** The critical section: the quota, the staged file, and the rename to a name minted just now. */
    method PublishLocked(part: string, size: nat, ext: string, now: real, token: string, c: Calls)
      returns (outcome: Outcome, name: string)
      requires part in staging && Allowed(ext) && now >= 0.0 && NewName((now * 1000.0).Floor, token, ext) !in ready
      modifies this`ready, this`staging
      ensures forall e :: Size(e) == size ==>
        (outcome == Full <==> !WithinQuota(old(ready)[NewName((now * 1000.0).Floor, token, ext) := e]))
      ensures outcome == Stored <==>
        outcome != Full && c.check && c.rename && old(staging)[part].File? && old(staging)[part].links == 1
        && |old(staging)[part].data| == size
      ensures outcome == Stored ==> WithinQuota(ready)
      ensures outcome == Stored || outcome == Full || outcome == StorageFailed
      ensures outcome == Stored ==>
        && name == NewName((now * 1000.0).Floor, token, ext)
        && ready == old(ready)[name := old(staging)[part]] && staging == old(staging) - {part}
      ensures outcome != Stored ==> ready == old(ready) && staging == old(staging)
    {
      name := "";
      var room := CapacityOk(size);
      hide HasRoom, WithinQuota, NewName;
      forall e | Size(e) == size ensures room <==> WithinQuota(ready[NewName((now * 1000.0).Floor, token, ext) := e]) {
        RoomIsQuota(ready, NewName((now * 1000.0).Floor, token, ext), e);
      }
      if !room {
        return Full, "";
      }
      if !c.check || !Plain(staging[part]) || Size(staging[part]) != size {
        return StorageFailed, "";
      }
      name := NewName((now * 1000.0).Floor, token, ext);
      if !c.rename {
        return StorageFailed, "";
      }
      ready, staging := ready[name := staging[part]], staging - {part};
      return Stored, name;
    }

    /** An undisturbed publish: it ends as its conditions say, and leaves the file in place for `Stored`,
        perhaps for `Uncertain`, and for nothing else; the part is gone if it can be unlinked. */
    method Publish(data: Bytes, ext: string, accepted: bool, part: string, now: real, token: string, c: Calls)
      returns (outcome: Outcome, name: string)
      requires part !in staging && now >= 0.0 && NewName((now * 1000.0).Floor, token, ext) !in ready
      modifies this`ready, this`staging
      ensures outcome == TooLarge <==> |data| > 8 * 1024 * 1024
      ensures outcome == Mismatch <==> |data| <= 8 * 1024 * 1024 && !(Allowed(ext) && accepted)
      ensures var tried := |data| <= 8 * 1024 * 1024 && Allowed(ext) && accepted && c.create && c.write;
        var fits := WithinQuota(old(ready)[NewName((now * 1000.0).Floor, token, ext) := File(1, data)]);
        && (outcome == Full <==> tried && !fits)
        && (outcome == Stored <==> tried && fits && c.check && c.rename && c.flush)
        && (outcome == Uncertain <==> tried && fits && c.check && c.rename && !c.flush)
      ensures outcome == Stored || outcome == Uncertain ==> name == NewName((now * 1000.0).Floor, token, ext)
      ensures ready ==
        if outcome == Stored || (outcome == Uncertain && !c.retract) then old(ready)[name := File(1, data)] else old(ready)
      ensures staging - {part} == old(staging) && (part in staging ==> !c.unlink)
    {
      name := "";
      Without(staging, part);
      if |data| > CAP_BYTES {
        return TooLarge, "";
      }
      if !Allowed(ext) || !accepted {
        return Mismatch, "";
      }
      hide Allowed, NewName, WithinQuota;
      PutTake(staging, part, File(1, data));
      assert Size(File(1, data)) == |data|;
      var written := WritePart(part, data, c);
      if !written {
        DiscardPart(part, c);
        return StorageFailed, "";
      }
      outcome, name := PublishLocked(part, |data|, ext, now, token, c);
      if outcome != Stored {
        DiscardPart(part, c);
        return;
      }
      PutTake(old(ready), name, File(1, data));
      outcome := FlushReady(name, c);
    }

    /** `finally`: the part, if the rename has not taken it. */
    method DiscardPart(part: string, c: Calls)
      modifies this`staging
      ensures staging == if c.unlink then old(staging) - {part} else old(staging)
      ensures staging - {part} == old(staging) - {part}
    {
      Without(staging, part);
      if c.unlink {
        staging := staging - {part};
      }
    }

    /** The folder's flush after the lock is released, and the retract if it fails. */
    method FlushReady(name: string, c: Calls) returns (outcome: Outcome)
      modifies this`ready
      ensures outcome == if c.flush then Stored else Uncertain
      ensures ready == if !c.flush && c.retract then old(ready) - {name} else old(ready)
    {
      if c.flush {
        return Stored;
      }
      if c.retract {
        ready := ready - {name};
      }
      return Uncertain;
    }

    /** Every entry counts, whoever put it there. */
    method CapacityOk(incoming: nat) returns (ok: bool)
      ensures ok <==> HasRoom(ready, incoming)
    {
      SizesAre(ready);
      hide Total, Size, Sizes;
      var left := ready.Keys;
      var count, total := 0, 0;
      NothingCounted();
      ghost var seen: map<string, nat> := map[];
      while left != {}
        invariant left <= ready.Keys && left !! seen.Keys && left + seen.Keys == ready.Keys
        invariant forall n :: n in seen ==> seen[n] == Size(ready[n])
        invariant count == |seen| && total == Total(seen)
        decreases |left|
      {
        var n :| n in left;
        ghost var more := seen[n := Size(ready[n])];
        OneCounted(seen, n, Size(ready[n]));
        count, total, left, seen := count + 1, total + Size(ready[n]), left - {n}, more;
      }
      assert seen == Sizes(ready);
      assert seen.Keys == ready.Keys;
      return count < MAX_FILES && total + incoming <= MAX_BYTES;
    }

    /** One entry of the sweep's first loop. */
    method SweepEntry(n: string, now: real, immovable: set<string>, stuck: set<string>)
      returns (foreign: bool, expired: bool)
      requires n in ready
      modifies this`ready, this`meta
      ensures foreign <==> Foreign(n, old(ready)[n])
      ensures expired <==> !Foreign(n, old(ready)[n]) && Expired(n, now)
      ensures ready == if (foreign || expired) && n !in immovable then old(ready) - {n} else old(ready)
      ensures meta == if expired && n + JSON !in stuck then old(meta) - {n + JSON} else old(meta)
      ensures foreign || expired <==> Condemned(n, old(ready)[n], now)
    {
      var e := ready[n];
      foreign, expired := false, false;
      if Foreign(n, e) {
        foreign := true;
        if n !in immovable {
          ready := ready - {n};
        }
      } else if Expired(n, now) {
        expired := true;
        if n !in immovable {
          ready := ready - {n};
        }
        if n + JSON !in stuck {
          meta := meta - {n + JSON};
        }
      }
    }

    /** The first loop: `present` are the names it leaves in their place. */
    method SweepReady(now: real, immovable: set<string>, stuck: set<string>)
      returns (present: set<string>, foreign: nat, expired: nat)
      modifies this`ready, this`meta
      ensures ready == Swept(old(ready), now, immovable)
      ensures present == Present(old(ready), now)
      ensures foreign == |Strangers(old(ready).Keys, old(ready))|
      ensures foreign + expired == |old(ready)| - |present|
      ensures meta <= old(meta) && forall m :: m in old(meta) - meta ==> m !in stuck && Orphan(m, present)
    {
      hide Foreign, Condemned, Expired, Progress, Strangers, Swept, Present, Orphan, Dropped;
      ghost var was := ready;
      var left := ready.Keys;
      present, foreign, expired := {}, 0, 0;
      ProgressStarts(was, meta, now, immovable, stuck);
      while left != {}
        invariant left <= was.Keys
        invariant Progress(was, ready, left, present, foreign, expired, now, immovable)
        invariant Dropped(old(meta), meta, was.Keys - left, present, stuck)
        decreases |left|
      {
        var n :| n in left;
        ghost var half := ready;
        ProgressAt(was, ready, left, present, foreign, expired, now, immovable, n);
        DroppedAt(old(meta), meta, was.Keys, left, present, stuck, n);
        var f, x := SweepEntry(n, now, immovable, stuck);
        ProgressStep(was, half, left, present, foreign, expired, now, immovable, n);
        left := left - {n};
        if f {
          foreign := foreign + 1;
        } else if x {
          expired := expired + 1;
        } else {
          present := present + {n};
        }
      }
      ProgressEnds(was, ready, present, foreign, expired, now, immovable);
      DroppedEnds(old(meta), meta, was.Keys - left, present, stuck);
    }

    /** The second loop. */
    method SweepMeta(present: set<string>, stuck: set<string>) returns (orphans: nat)
      modifies this`meta
      ensures meta == SweptMeta(old(meta), present, stuck)
      ensures orphans == |old(meta)| - |meta|
    {
      orphans := 0;
      ghost var was := meta;
      var left := meta;
      while left != {}
        invariant left <= was && meta <= was
        invariant meta == set m | m in was && (m in left || !Orphan(m, present) || m in stuck)
        invariant orphans == |was| - |meta|
        decreases |left|
      {
        var m :| m in left;
        if IsJson(m) && m[..|m| - |JSON|] !in present && m !in stuck {
          meta := meta - {m};
          orphans := orphans + 1;
        }
        left := left - {m};
      }
    }

    /** What cannot be removed stays; all else that is foreign or too old goes, with its metadata. */
    method Sweep(now: real, immovable: set<string>, stuck: set<string>)
      returns (foreign: nat, expired: nat, orphans: nat)
      modifies this`ready, this`meta
      ensures ready == Swept(old(ready), now, immovable)
      ensures meta == SweptMeta(old(meta), Present(old(ready), now), stuck)
      ensures foreign == |Strangers(old(ready).Keys, old(ready))|
      ensures foreign + expired == |old(ready)| - |Present(old(ready), now)|
    {
      hide Strangers, Swept, Present;
      var present;
      present, foreign, expired := SweepReady(now, immovable, stuck);
      assert SweptMeta(meta, present, stuck) == SweptMeta(old(meta), present, stuck);
      orphans := SweepMeta(present, stuck);
    }

    /** Exactly the plain files under Casa's names, each once, newest first. */
    method ListFiles() returns (out: seq<Listed>)
      ensures multiset(out) == multiset(Valid(ready.Keys, ready)) && NewestFirst(out)
    {
      hide Foreign, Valid;
      var left := ready.Keys;
      ghost var done: set<string> := {};
      var found: seq<Listed> := [];
      NoneValid(ready);
      while left != {}
        invariant left !! done && left + done == ready.Keys
        invariant multiset(found) == multiset(Valid(done, ready))
        decreases |left|
      {
        var n :| n in left;
        ValidMore(done, ready, n);
        if !Foreign(n, ready[n]) {
          found := found + [Describe(n, ready[n])];
        }
        left, done := left - {n}, done + {n};
      }
      assert done == ready.Keys;
      SortNewestSorts(found);
      out := SortNewest(found);
    }
  }
}
