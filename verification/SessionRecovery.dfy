/**
 * Stale-session recovery: a turn whose resumed session fails clears it from the registry, but
 * only if the registration is still the one its own resume decision read.
 *
 * Other turns, sweeps and resets work on the same registry meanwhile, so every operation is an
 * `Op` of one history.  A registration is identified by its generation, never by its session id.
 */
module SessionRecovery {
  import opened Prelude

  type Key = string

  datatype Registry = Registry(sids: map<Key, Option<string>>, generations: map<Key, nat>, next: nat)

  /** A guard argument: absent, or the value the caller expects. */
  datatype Expect<T> = Any | Exactly(value: T)

  datatype Op =
    | Register(key: Key, sid: string)
    | Remove(key: Key, expectSid: Expect<Option<string>>, gen: Expect<Option<nat>>)
    | Clear(key: Key, expectSid: Expect<Option<string>>, gen: Expect<Option<nat>>)

  function Generation(r: Registry, key: Key): Option<nat> {
    if key in r.generations then Some(r.generations[key]) else None
  }

  function SidOf(r: Registry, key: Key): Option<string> {
    if key in r.sids then r.sids[key] else None
  }

  predicate Meets<T(==)>(e: Expect<T>, v: T) { e.Any? || e.value == v }

  /** Every registration, of the same session id too, gets a generation of its own. */
  function DoRegister(r: Registry, key: Key, sid: string): Registry {
    Registry(r.sids[key := Some(sid)], r.generations[key := r.next], r.next + 1)
  }

  function DoRemove(r: Registry, key: Key, sid: Expect<Option<string>>, gen: Expect<Option<nat>>): Registry {
    if !Meets(gen, Generation(r, key)) then r
    else if sid.Exactly? && (key !in r.sids || r.sids[key] != sid.value) then r
    else Registry(r.sids - {key}, r.generations - {key}, r.next)
  }

  /** Drops the session id and keeps the entry, while both guards hold. */
  function DoClear(r: Registry, key: Key, sid: Expect<Option<string>>, gen: Expect<Option<nat>>): Registry {
    if !Meets(gen, Generation(r, key)) then r
    else if key !in r.sids then r
    else if !Meets(sid, r.sids[key]) then r
    else Registry(r.sids[key := None], r.generations, r.next)
  }

  function Apply(r: Registry, op: Op): Registry {
    match op
    case Register(key, sid) => DoRegister(r, key, sid)
    case Remove(key, sid, gen) => DoRemove(r, key, sid, gen)
    case Clear(key, sid, gen) => DoClear(r, key, sid, gen)
  }

  function Run(r: Registry, ops: seq<Op>): Registry
    decreases |ops|
  {
    if ops == [] then r else Apply(Run(r, ops[..|ops| - 1]), ops[|ops| - 1])
  }

  predicate Sound(r: Registry) {
    forall k :: k in r.generations ==> r.generations[k] < r.next
  }

  lemma {:induction false} SoundAlways(r: Registry, ops: seq<Op>)
    requires Sound(r)
    ensures Sound(Run(r, ops)) && r.next <= Run(r, ops).next
    decreases |ops|
  {
    if ops != [] {
      SoundAlways(r, ops[..|ops| - 1]);
    }
  }

  lemma {:induction false} RunJoin(r: Registry, a: seq<Op>, b: seq<Op>)
    ensures Run(r, a + b) == Run(Run(r, a), b)
    decreases |b|
  {
    if b == [] {
      assert a + b == a;
    } else {
      assert (a + b)[..|a + b| - 1] == a + b[..|b| - 1];
      RunJoin(r, a, b[..|b| - 1]);
    }
  }

  /** The entry of `key` is gone, or was registered at or after generation `from`. */
  predicate Renewed(r: Registry, key: Key, from: nat) {
    r.next >= from && (key !in r.sids || (key in r.generations && r.generations[key] >= from))
  }

  lemma {:induction false} RenewedForGood(r: Registry, ops: seq<Op>, key: Key, from: nat)
    requires Renewed(r, key, from)
    ensures Renewed(Run(r, ops), key, from)
    decreases |ops|
  {
    if ops != [] {
      RenewedForGood(r, ops[..|ops| - 1], key, from);
    }
  }

  predicate Registers(ops: seq<Op>, key: Key) {
    exists i :: 0 <= i < |ops| && ops[i].Register? && ops[i].key == key
  }

  /** What `decision` read at `r`: the session it resumes and the generation of its registration. */
  function GuardedClear(key: Key, read: Registry): Op {
    Clear(key, Exactly(SidOf(read, key)), Exactly(Generation(read, key)))
  }

  /** The ABA case: once any registration of the key landed after the decision read the registry,
      the guarded clear changes nothing, even if that registration carries the same session id. */
  lemma LaterRegistrationSurvives(read: Registry, ops: seq<Op>, key: Key)
    requires Sound(read) && Registers(ops, key)
    ensures Apply(Run(read, ops), GuardedClear(key, read)) == Run(read, ops)
  {
    var i :| 0 <= i < |ops| && ops[i].Register? && ops[i].key == key;
    var before, after := ops[..i], ops[i + 1..];
    assert ops == (before + [ops[i]]) + after;
    RunJoin(read, before + [ops[i]], after);
    assert (before + [ops[i]])[..i] == before;
    SoundAlways(read, before);
    RenewedForGood(Run(read, before + [ops[i]]), after, key, read.next);
  }

  /** So a clear that removes a session id removes the one of the registration it read: no
      registration of the key lies in between, and the id is the one that was read. */
  lemma ClearRemovesOnlyWhatItRead(read: Registry, ops: seq<Op>, key: Key)
    requires Sound(read) && SidOf(read, key).Some?
    requires Apply(Run(read, ops), GuardedClear(key, read)) != Run(read, ops)
    ensures !Registers(ops, key) && SidOf(Run(read, ops), key) == SidOf(read, key)
    ensures forall k :: k != key ==>
      SidOf(Apply(Run(read, ops), GuardedClear(key, read)), k) == SidOf(Run(read, ops), k)
  {
    if Registers(ops, key) {
      LaterRegistrationSurvives(read, ops, key);
    }
  }

  lemma {:induction false} UnregisteredOnlyLoses(read: Registry, ops: seq<Op>, key: Key)
    requires !Registers(ops, key)
    ensures var r := Run(read, ops);
      SidOf(r, key) == None || (SidOf(r, key) == SidOf(read, key) && Generation(r, key) == Generation(read, key))
    decreases |ops|
  {
    if ops != [] {
      var front, last := ops[..|ops| - 1], ops[|ops| - 1];
      assert !(last.Register? && last.key == key);
      UnregisteredOnlyLoses(read, front, key);
    }
  }

  /** Conversely the clear does its work: it leaves the key without a session id exactly when the key has
      not been registered since, or has lost the id it was registered with by other means; the entry,
      its generation and every other key stay. */
  lemma ClearTakesEffectExactlyWhen(read: Registry, ops: seq<Op>, key: Key)
    requires Sound(read) && SidOf(read, key).Some?
    ensures var r := Run(read, ops); var r' := Apply(r, GuardedClear(key, read));
      && (SidOf(r', key) == None <==> !Registers(ops, key) || SidOf(r, key) == None)
      && (key in r'.sids <==> key in r.sids) && r'.generations == r.generations && r'.next == r.next
      && forall k :: k != key ==> (k in r'.sids <==> k in r.sids) && SidOf(r', k) == SidOf(r, k)
  {
    if Registers(ops, key) {
      LaterRegistrationSurvives(read, ops, key);
    } else {
      UnregisteredOnlyLoses(read, ops, key);
    }
  }

  /** The three operations, by what they leave.  A registration holds the id under a generation that no
      key has had; a removal and a clear act exactly when the entry is there and is what the guards say. */
  lemma OperationsLeave(r: Registry, key: Key, sid: string, s: Expect<Option<string>>, g: Expect<Option<nat>>)
    requires Sound(r)
    ensures var t := Apply(r, Register(key, sid));
      && SidOf(t, key) == Some(sid) && key in t.generations
      && (forall k :: k in r.generations ==> r.generations[k] < t.generations[key])
      && forall k :: k != key ==> SidOf(t, k) == SidOf(r, k) && Generation(t, k) == Generation(r, k)
    ensures var held := key in r.sids && (s == Any || s == Exactly(SidOf(r, key))) && (g == Any || g == Exactly(Generation(r, key)));
      && (var t := Apply(r, Clear(key, s, g));
          t == if held then r.(sids := r.sids[key := None]) else r)
      && (var t := Apply(r, Remove(key, s, g));
          && (held ==> key !in t.sids && key !in t.generations)
          && (key in r.sids && !held ==> t == r)
          && forall k :: k != key ==> SidOf(t, k) == SidOf(r, k) && Generation(t, k) == Generation(r, k))
  {
  }

  /** A clear guarded by the session id alone would not do: the same id registered anew is cleared. */
  lemma SidGuardAloneIsNotEnough()
    ensures exists read: Registry, ops: seq<Op> ::
      (Sound(read) && Registers(ops, "k")
       && SidOf(Run(read, ops), "k") == Some("s")
       && SidOf(Apply(Run(read, ops), Clear("k", Exactly(SidOf(read, "k")), Any)), "k") == None)
  {
    var read := Registry(map["k" := Some("s")], map["k" := 0], 1);
    var ops := [Register("k", "s")];
    assert ops[..0] == [] && ops[0].Register?;
    assert Run(read, ops) == DoRegister(read, "k", "s");
  }

  // ---- the registry, updated in place ---------------------------------------

  /** `history` is every operation applied since the object was made; the map fields are what it amounts to. */
  class SessionRegistry {
    var sids: map<Key, Option<string>>
    var generations: map<Key, nat>
    var counter: nat
    ghost var start: Registry
    ghost var history: seq<Op>

    ghost function View(): Registry
      reads this
    {
      Registry(sids, generations, counter)
    }

    ghost predicate Valid()
      reads this
    {
      Sound(start) && View() == Run(start, history)
    }

    method Record(ghost op: Op)
      requires Sound(start) && View() == Apply(Run(start, history), op)
      modifies this`history
      ensures Valid() && history == old(history) + [op]
    {
      assert (history + [op])[..|history|] == history;
      history := history + [op];
    }

    /** A session that a retirement names as dying is not registered again; `retired` are those of the
        key at the moment of the call. */
    method RegisterSession(key: Key, sid: string, retired: set<string>)
      requires Valid()
      modifies this
      ensures Valid() && start == old(start)
      ensures sid in retired ==> View() == old(View()) && history == old(history)
      ensures sid !in retired ==> View() == DoRegister(old(View()), key, sid) && history == old(history) + [Register(key, sid)]
    {
      if sid in retired {
        return;
      }
      sids := sids[key := Some(sid)];
      generations := generations[key := counter];
      counter := counter + 1;
      Record(Register(key, sid));
    }

    method RemoveEntry(key: Key, sid: Expect<Option<string>>, gen: Expect<Option<nat>>)
      requires Valid()
      modifies this
      ensures Valid() && start == old(start) && history == old(history) + [Remove(key, sid, gen)]
      ensures View() == DoRemove(old(View()), key, sid, gen)
    {
      if Meets(gen, if key in generations then Some(generations[key]) else None)
         && (sid.Exactly? ==> key in sids && sids[key] == sid.value) {
        sids := sids - {key};
        generations := generations - {key};
      }
      Record(Remove(key, sid, gen));
    }

    method ClearSdkSession(key: Key, sid: Expect<Option<string>>, gen: Expect<Option<nat>>)
      requires Valid()
      modifies this
      ensures Valid() && start == old(start) && history == old(history) + [Clear(key, sid, gen)]
      ensures View() == DoClear(old(View()), key, sid, gen)
    {
      if Meets(gen, if key in generations then Some(generations[key]) else None)
         && key in sids && Meets(sid, sids[key]) {
        sids := sids[key := None];
      }
      Record(Clear(key, sid, gen));
    }

    /** Whatever other turns do to the registry while this one waits. */
    method OthersRun()
      requires Valid()
      modifies this
      ensures Valid() && start == old(start) && old(history) <= history
    {
      var n: nat := *;
      while n > 0
        invariant Valid() && start == old(start) && old(history) <= history
      {
        var key: Key := *;
        var sid: string := *;
        var guardSid: Expect<Option<string>> := *;
        var guardGen: Expect<Option<nat>> := *;
        if * {
          var retired: set<string> := *;
          RegisterSession(key, sid, retired);
        } else if * {
          RemoveEntry(key, guardSid, guardGen);
        } else {
          ClearSdkSession(key, guardSid, guardGen);
        }
        n := n - 1;
      }
    }
  }

  // ---- one turn's attempts and recovery --------------------------------------

  datatype Fault = Refusal | ApiFault | ProcessFault | PoolGone | OtherFault | TurnCancelled
  datatype Outcome = Success | Failed(fault: Fault, retryable: bool)

  /** The attempts of one `retry_sdk_call`: it goes on after a retryable fault that is no cancellation,
      while attempts are left, and stops at anything else. */
  predicate Retries(tries: seq<Outcome>, maxAttempts: nat) {
    && 1 <= |tries| <= maxAttempts
    && (forall i :: 0 <= i < |tries| - 1 ==> GoesOn(tries[i]))
    && (GoesOn(tries[|tries| - 1]) ==> |tries| == maxAttempts)
  }

  predicate GoesOn(o: Outcome) { o.Failed? && o.retryable && o.fault != TurnCancelled }

  /** What one recovering call did: the attempts of its first `retry_sdk_call`, the session the last of
      them was to resume, the clears it issued, and the attempts of the second call, if there was one. */
  datatype Course = Course(first: seq<Outcome>, resumed: Option<string>, cleared: nat, second: seq<Outcome>)

  /** A failed process of a resumed session: one clear, and the answer of a second call.  A refusal of one:
      one clear, and the refusal.  Anything else is passed on. */
  predicate Recovers(c: Course, o: Outcome, maxAttempts: nat) {
    && Retries(c.first, maxAttempts)
    && var end := c.first[|c.first| - 1];
       if end.Failed? && end.fault == ProcessFault && c.resumed.Some? then
         c.cleared == 1 && Retries(c.second, maxAttempts) && o == c.second[|c.second| - 1]
       else if end.Failed? && end.fault == Refusal && c.resumed.Some? then
         c.cleared == 1 && c.second == [] && o == end
       else
         c.cleared == 0 && c.second == [] && o == end
  }

  /** A clear this turn issued: where its decision read the history, where the clear landed, and how many
      attempts the turn had made by then. */
  datatype Issued = Issued(readAt: nat, at: nat, tried: nat)

  /** The clear at `c.at` is the guarded clear of the registry as it was at `c.readAt`. */
  ghost predicate IssuedFrom(start: Registry, history: seq<Op>, key: Key, c: Issued) {
    && c.readAt <= c.at < |history|
    && history[c.at] == GuardedClear(key, Run(start, history[..c.readAt]))
    && SidOf(Run(start, history[..c.readAt]), key).Some?
  }

  /** Every clear a turn issued removes nothing but the registration its decision read. */
  lemma IssuedClearIsSafe(start: Registry, history: seq<Op>, key: Key, c: Issued)
    requires Sound(start) && IssuedFrom(start, history, key, c)
    ensures Registers(history[c.readAt..c.at], key) ==> Run(start, history[..c.at + 1]) == Run(start, history[..c.at])
  {
    var read := Run(start, history[..c.readAt]);
    var ops := history[c.readAt..c.at];
    assert history[..c.at] == history[..c.readAt] + ops;
    RunJoin(start, history[..c.readAt], ops);
    SoundAlways(start, history[..c.readAt]);
    assert history[..c.at + 1][..c.at] == history[..c.at];
    if Registers(ops, key) {
      LaterRegistrationSurvives(read, ops, key);
    }
  }

  lemma CourseBounds(c: Course, o: Outcome, maxAttempts: nat)
    requires Recovers(c, o, maxAttempts)
    ensures 1 <= |c.first| && |c.first| + |c.second| <= 2 * maxAttempts && c.cleared <= 1
  {
  }

  ghost predicate AllSafe(start: Registry, history: seq<Op>, key: Key, issued: seq<Issued>) {
    forall c :: c in issued ==>
      && IssuedFrom(start, history, key, c)
      && (Registers(history[c.readAt..c.at], key) ==> Run(start, history[..c.at + 1]) == Run(start, history[..c.at]))
  }

  lemma IssuedAreSafe(start: Registry, history: seq<Op>, key: Key, issued: seq<Issued>)
    requires Sound(start) && forall c :: c in issued ==> IssuedFrom(start, history, key, c)
    ensures AllSafe(start, history, key, issued)
  {
    forall c | c in issued
      ensures Registers(history[c.readAt..c.at], key) ==> Run(start, history[..c.at + 1]) == Run(start, history[..c.at])
    {
      IssuedClearIsSafe(start, history, key, c);
    }
  }

  class RecoveringTurn {
    const registry: SessionRegistry
    const key: Key
    const maxAttempts: nat

    // `last_resume`: the session the latest decision resumes, and its registration's generation.
    var lastSid: Option<string>
    var lastGen: Option<nat>

    ghost var readAt: nat
    ghost var attempts: seq<Outcome>
    ghost var issued: seq<Issued>

    ghost predicate Valid()
      reads this, registry
    {
      && registry.Valid() && maxAttempts >= 1
      && readAt <= |registry.history|
      && (lastSid.Some? ==>
            var read := Run(registry.start, registry.history[..readAt]);
            lastSid == SidOf(read, key) && lastGen == Generation(read, key))
      && (forall c :: c in issued ==> IssuedFrom(registry.start, registry.history, key, c))
    }

    constructor (registry: SessionRegistry, key: Key, maxAttempts: nat)
      requires registry.Valid() && maxAttempts >= 1
      ensures this.registry == registry && this.key == key && this.maxAttempts == maxAttempts
      ensures Valid() && issued == [] && attempts == []
    {
      this.registry, this.key, this.maxAttempts := registry, key, maxAttempts;
      lastSid, lastGen, readAt, attempts, issued := None, None, 0, [], [];
    }

    /** The clear was for session `sid`, and came after `tried` attempts. */
    ghost predicate ClearedFor(c: Issued, sid: Option<string>, tried: nat)
      reads this, registry
    {
      && c.readAt <= |registry.history| && c.tried == tried
      && SidOf(Run(registry.start, registry.history[..c.readAt]), key) == sid
    }

    /** Growing the history keeps what was read and what was issued. */
    lemma HistoryGrows(old_: seq<Op>, new_: seq<Op>, start: Registry)
      requires old_ <= new_
      ensures forall k :: 0 <= k <= |old_| ==> new_[..k] == old_[..k]
      ensures forall c :: IssuedFrom(start, old_, key, c) ==> IssuedFrom(start, new_, key, c)
    {
      forall k | 0 <= k <= |old_| ensures new_[..k] == old_[..k] {}
    }

    /** One attempt: others run, the resume decision reads the registry (or is never reached),
        others run again, and the attempt ends somehow, perhaps publishing its own session. */
    method Attempt() returns (o: Outcome)
      requires Valid()
      modifies this, registry
      ensures Valid() && registry.start == old(registry.start) && old(registry.history) <= registry.history
      ensures attempts == old(attempts) + [o] && issued == old(issued)
    {
      ghost var h0 := registry.history;
      registry.OthersRun();
      HistoryGrows(h0, registry.history, registry.start);
      if * {
        var resumes: bool := *;
        lastSid := if resumes && key in registry.sids then registry.sids[key] else None;
        lastGen := if key in registry.generations then Some(registry.generations[key]) else None;
        readAt := |registry.history|;
        assert registry.history[..readAt] == registry.history;
      }
      ghost var h1 := registry.history;
      registry.OthersRun();
      HistoryGrows(h1, registry.history, registry.start);
      o := *;
      attempts := attempts + [o];
    }

    /** `retry_sdk_call`: at most `maxAttempts` attempts, repeating retryable faults only. */
    method RetryCall() returns (o: Outcome, ghost tries: seq<Outcome>)
      requires Valid()
      modifies this, registry
      ensures Valid() && registry.start == old(registry.start) && old(registry.history) <= registry.history
      ensures attempts == old(attempts) + tries && issued == old(issued)
      ensures Retries(tries, maxAttempts) && o == tries[|tries| - 1]
    {
      o := Attempt();
      tries := [o];
      var count := 1;
      while count < maxAttempts && o.Failed? && o.fault != TurnCancelled && o.retryable
        invariant 1 <= count == |tries| <= maxAttempts && attempts == old(attempts) + tries && o == tries[count - 1]
        invariant forall i :: 0 <= i < count - 1 ==> GoesOn(tries[i])
        invariant Valid() && registry.start == old(registry.start) && old(registry.history) <= registry.history
        invariant issued == old(issued)
      {
        o := Attempt();
        tries := tries + [o];
        count := count + 1;
      }
    }

    /** The guarded clear of the registration the latest decision read. */
    method ClearWhatWasRead()
      requires Valid() && lastSid.Some?
      modifies this, registry
      ensures Valid() && registry.start == old(registry.start) && old(registry.history) <= registry.history
      ensures attempts == old(attempts) && lastSid == old(lastSid)
      ensures |issued| == |old(issued)| + 1 && old(issued) <= issued
      ensures ClearedFor(issued[|issued| - 1], lastSid, |attempts|)
    {
      ghost var h0 := registry.history;
      registry.OthersRun();
      HistoryGrows(h0, registry.history, registry.start);
      ghost var h1 := registry.history;
      registry.ClearSdkSession(key, Exactly(lastSid), Exactly(lastGen));
      HistoryGrows(h1, registry.history, registry.start);
      issued := issued + [Issued(readAt, |h1|, |attempts|)];
      assert registry.history[..readAt] == h0[..readAt];
    }

    /** `_attempt_with_stale_recovery`: a stale resume is cleared and retried once, a refused turn
        is cleared and raised. */
    method AttemptWithRecovery() returns (o: Outcome, ghost c: Course)
      requires Valid()
      modifies this, registry
      ensures Valid() && registry.start == old(registry.start) && old(registry.history) <= registry.history
      ensures Recovers(c, o, maxAttempts)
      ensures attempts == old(attempts) + c.first + c.second
      ensures |issued| == |old(issued)| + c.cleared && old(issued) <= issued
      ensures c.cleared == 1 ==> ClearedFor(issued[|issued| - 1], c.resumed, |old(attempts)| + |c.first|)
    {
      ghost var tries;
      o, tries := RetryCall();
      c := Course(tries, lastSid, 0, []);
      if o.Failed? {
        if o.fault == Refusal && lastSid.Some? {
          ClearWhatWasRead();
          c := c.(cleared := 1);
        } else if o.fault == ProcessFault && lastSid.Some? {
          ClearWhatWasRead();
          ghost var h := registry.history;
          o, tries := RetryCall();
          HistoryGrows(h, registry.history, registry.start);
          c := c.(cleared := 1, second := tries);
        }
      }
    }

    /** The attempt part of a turn: the pool or the bypass first, and the bypass exactly if the pool turned
        out to be unavailable, unless it is closing because the runtime stops. */
    method Process(stopping: bool) returns (o: Outcome, ghost a: Course, ghost b: Option<Course>)
      requires Valid() && issued == [] && attempts == []
      modifies this, registry
      ensures registry.Valid() && registry.start == old(registry.start)
      ensures exists o1 ::
        && Recovers(a, o1, maxAttempts)
        && (o1.Failed? && o1.fault == PoolGone ==>
              if stopping then b == None && o == Failed(TurnCancelled, false)
              else b.Some? && Recovers(b.value, o, maxAttempts))
        && (!(o1.Failed? && o1.fault == PoolGone) ==> b == None && o == o1)
      ensures attempts == a.first + a.second + if b.Some? then b.value.first + b.value.second else []
      ensures |issued| == a.cleared + if b.Some? then b.value.cleared else 0
      ensures |attempts| <= 4 * maxAttempts && |issued| <= 2
      ensures AllSafe(registry.start, registry.history, key, issued)
    {
      hide Recovers, Retries, ClearedFor, AllSafe, IssuedFrom;
      o, a := AttemptWithRecovery();
      b := None;
      ghost var o1 := o;
      if o.Failed? && o.fault == PoolGone {
        if stopping {
          o := Failed(TurnCancelled, false);
        } else {
          ghost var more;
          o, more := AttemptWithRecovery();
          b := Some(more);
          CourseBounds(more, o, maxAttempts);
        }
      }
      CourseBounds(a, o1, maxAttempts);
      IssuedAreSafe(registry.start, registry.history, key, issued);
    }
  }
}
