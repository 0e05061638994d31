/**
 * Whether a turn resumes its conversation's stored session, and the fault streak that stops a
 * session from being resumed for ever when resuming it keeps failing.
 *
 * One conversation's turns run one after the other, under its session write gate.
 */
module ResumeHealth {
  import opened Prelude

  // ---- the decision ---------------------------------------------------------

  /** A stored entry as the decision reads it: `lastActive` is the parsed, zoned timestamp, `streak`
      what `int` makes of the stored count. */
  datatype Entry = Entry(
    agent: string,
    sid: string,
    binding: Option<string>,
    surface: Option<string>,
    lastActive: Option<real>,
    faultSid: Option<string>,
    streak: Option<int>)

  /** Who asks: the role and binding it runs as, its prompt surface if it has one to speak for, the
      clock, its channel's freshness window and the limit on faults. */
  datatype Ask = Ask(role: string, binding: string, surface: Option<string>, now: real, window: real, limit: int)

  datatype Reason =
    | Missing | RoleMismatch | BindingMismatch | PromptSurfaceChanged | InvalidEntry | FaultStreak | Expired | Fresh

  datatype Decision = Decision(resume: Option<string>, reason: Reason)

  function OrEmpty(s: Option<string>): string { if s.Some? then s.value else "" }

  /** The streak held against `sid`; one kept for another session counts for nothing. */
  function FaultsOf(e: Entry, sid: string): int {
    if sid == "" || e.faultSid != Some(sid) || e.streak.None? then 0 else e.streak.value
  }

  function Decide(e: Option<Entry>, a: Ask): Decision {
    if e.None? || e.value.sid == "" || e.value.agent == "" then Decision(None, Missing)
    else
      var was := e.value;
      if was.agent != a.role then Decision(None, RoleMismatch)
      else if OrEmpty(was.binding) != a.binding then Decision(None, BindingMismatch)
      else if a.surface.Some? && OrEmpty(was.surface) != a.surface.value then Decision(None, PromptSurfaceChanged)
      else if was.lastActive.None? then Decision(None, InvalidEntry)
      else if a.now - was.lastActive.value <= a.window then
        if FaultsOf(was, was.sid) >= a.limit then Decision(None, FaultStreak) else Decision(Some(was.sid), Fresh)
      else Decision(None, Expired)
  }

  /** A turn resumes exactly the stored session, and exactly when every gate lets it. */
  lemma ResumesExactlyWhen(e: Option<Entry>, a: Ask, sid: string)
    ensures Decide(e, a).resume == Some(sid) <==>
      && e.Some? && e.value.sid == sid && sid != "" && e.value.agent == a.role && a.role != ""
      && (e.value.binding == Some(a.binding) || (e.value.binding == None && a.binding == ""))
      && (a.surface.Some? ==> e.value.surface == a.surface || (e.value.surface == None && a.surface.value == ""))
      && e.value.lastActive.Some? && a.now <= e.value.lastActive.value + a.window
      && (if e.value.faultSid == Some(sid) && e.value.streak.Some? then e.value.streak.value else 0) < a.limit
  {
  }

  // ---- the notes ------------------------------------------------------------

  datatype Verdict = Strike | Healthy | NoVerdict

  /** How a turn ended: whether its last attempt still resumed what the decision said, whether the
      recovery cleared the stored session, the session it published, what its ending says of the
      session, and whether the note was saved. */
  datatype Turn = Turn(ask: Ask, stillResumes: bool, cleared: bool, published: Option<string>, verdict: Verdict,
                       saved: bool)

  function Resumed(e: Option<Entry>, t: Turn): Option<string> {
    if t.stillResumes then Decide(e, t.ask).resume else None
  }

  /** Registering leaves the fault fields alone: a resumed turn may publish a successor session. */
  function Publish(e: Option<Entry>, t: Turn): Option<Entry> {
    if !Publishes(t) then e
    else
      var kept := if e.Some? then (e.value.faultSid, e.value.streak) else (None, None);
      Some(Entry(t.ask.role, t.published.value, Some(t.ask.binding), Some(OrEmpty(t.ask.surface)), Some(t.ask.now),
        kept.0, kept.1))
  }

  /** The strike follows the chain of sessions: it continues the streak of the session the turn resumed,
      and is kept against the one the next turn would resume. */
  function Note(e: Option<Entry>, resumed: Option<string>, t: Turn): Option<Entry> {
    if e.None? || t.verdict == NoVerdict || !t.saved then e
    else if Some(e.value.sid) != resumed && !(Publishes(t) && Some(e.value.sid) == t.published) then e
    else if t.verdict == Healthy then Some(e.value.(faultSid := None, streak := None))
    else if resumed.None? then e
    else
      var before := if e.value.faultSid == resumed && e.value.streak.Some? then e.value.streak.value else 0;
      Some(e.value.(faultSid := Some(e.value.sid), streak := Some(before + 1)))
  }

  function ClearSession(e: Option<Entry>, t: Turn): Option<Entry> {
    if e.Some? && t.cleared then Some(e.value.(sid := "")) else e
  }

  function After(e: Option<Entry>, t: Turn): Option<Entry> {
    Note(Publish(ClearSession(e, t), t), Resumed(e, t), t)
  }

  predicate Publishes(t: Turn) { t.published.Some? && t.published.value != "" }

  /** The turn resumed, its ending spoke against the session, and the note was kept: a session that
      was cleared and not replaced has nothing to keep it on. */
  predicate Struck(e: Option<Entry>, t: Turn) {
    t.verdict == Strike && t.saved && t.stillResumes && Decide(e, t.ask).resume.Some? && (!t.cleared || Publishes(t))
  }

  /** The conversation goes on in the same session. */
  predicate SameSession(e: Option<Entry>, f: Option<Entry>) {
    e.Some? && f.Some? && e.value.sid == f.value.sid
  }

  // ---- runs -------------------------------------------------------------------

  function Run(e: Option<Entry>, turns: seq<Turn>): Option<Entry>
    decreases |turns|
  {
    if turns == [] then e else After(Run(e, turns[..|turns| - 1]), turns[|turns| - 1])
  }

  /** Strikes since the session was last found healthy, or changed without one. */
  function Strikes(e: Option<Entry>, turns: seq<Turn>): nat
    decreases |turns|
  {
    if turns == [] then 0
    else
      var front, t := turns[..|turns| - 1], turns[|turns| - 1];
      var before, after := Run(e, front), Run(e, turns);
      if Struck(before, t) then Strikes(e, front) + 1
      else if t.verdict != Healthy && SameSession(before, after) then Strikes(e, front)
      else 0
  }

  predicate OneLimit(turns: seq<Turn>, limit: int) { forall i :: 0 <= i < |turns| ==> turns[i].ask.limit == limit }

  /** While strikes follow one another the stored streak is at least their number, against the session
      that would be resumed next. */
  lemma {:induction false} StreakCountsStrikes(e: Option<Entry>, turns: seq<Turn>, limit: int)
    requires OneLimit(turns, limit)
    requires e.Some? && e.value.streak.Some? ==> e.value.streak.value >= 0
    ensures Strikes(e, turns) > 0 ==>
      Run(e, turns).Some? && FaultsOf(Run(e, turns).value, Run(e, turns).value.sid) >= Strikes(e, turns)
    ensures Run(e, turns).Some? && Run(e, turns).value.streak.Some? ==> Run(e, turns).value.streak.value >= 0
    ensures limit >= 0 ==> Strikes(e, turns) <= limit
    decreases |turns|
  {
    if turns != [] {
      var front, t := turns[..|turns| - 1], turns[|turns| - 1];
      assert forall i :: 0 <= i < |front| ==> front[i] == turns[i];
      StreakCountsStrikes(e, front, limit);
      StrikeStep(Run(e, front), t, Strikes(e, front), limit);
    }
  }

  lemma StrikeStep(e: Option<Entry>, t: Turn, n: nat, limit: int)
    requires t.ask.limit == limit
    requires n > 0 ==> e.Some? && FaultsOf(e.value, e.value.sid) >= n
    requires e.Some? && e.value.streak.Some? ==> e.value.streak.value >= 0
    ensures Struck(e, t) ==> n < limit && After(e, t).Some? && FaultsOf(After(e, t).value, After(e, t).value.sid) >= n + 1
    ensures !Struck(e, t) && t.verdict != Healthy && SameSession(e, After(e, t)) && n > 0 ==>
      FaultsOf(After(e, t).value, After(e, t).value.sid) >= n
    ensures After(e, t).Some? && After(e, t).value.streak.Some? ==> After(e, t).value.streak.value >= 0
  {
    if Struck(e, t) {
      ResumesExactlyWhen(e, t.ask, Resumed(e, t).value);
    }
  }

  /** What a turn makes of the streak of the session that would be resumed next: a strike adds exactly one,
      and a turn that stays in its session without one adds nothing. */
  lemma StrikesAddOne(e: Option<Entry>, t: Turn)
    requires e.Some? && e.value.streak.Some? ==> e.value.streak.value >= 0
    ensures var f := After(e, t);
      && (Struck(e, t) ==> e.Some? && f.Some? && FaultsOf(f.value, f.value.sid) == FaultsOf(e.value, e.value.sid) + 1)
      && (!Struck(e, t) && SameSession(e, f) ==>
            FaultsOf(f.value, f.value.sid) == if f.value.faultSid == None then 0 else FaultsOf(e.value, e.value.sid))
      && (f.Some? && e.Some? && !Struck(e, t) ==>
            (f.value.faultSid == e.value.faultSid && f.value.streak == e.value.streak) || (f.value.faultSid == None && f.value.streak == None))
  {
    if Resumed(e, t).Some? {
      ResumesExactlyWhen(e, t.ask, Resumed(e, t).value);
    }
  }

  /** Turns that struck, in all. */
  function StruckTurns(e: Option<Entry>, turns: seq<Turn>): nat
    decreases |turns|
  {
    if turns == [] then 0
    else
      var front := turns[..|turns| - 1];
      StruckTurns(e, front) + if Struck(Run(e, front), turns[|turns| - 1]) then 1 else 0
  }

  /** No fault is invented: a conversation that began without a streak is never charged with more faults
      than its turns have struck. */
  lemma {:induction false} NoFaultIsInvented(e: Option<Entry>, turns: seq<Turn>)
    requires e.Some? ==> e.value.streak == None
    ensures var f := Run(e, turns); f.Some? && f.value.streak.Some? ==> 0 <= f.value.streak.value <= StruckTurns(e, turns)
    decreases |turns|
  {
    if turns != [] {
      var front, t := turns[..|turns| - 1], turns[|turns| - 1];
      NoFaultIsInvented(e, front);
      ChargedOnce(Run(e, front), t);
    }
  }

  lemma ChargedOnce(e: Option<Entry>, t: Turn)
    requires e.Some? && e.value.streak.Some? ==> e.value.streak.value >= 0
    ensures var f := After(e, t); var charged := if e.Some? && e.value.streak.Some? then e.value.streak.value else 0;
      f.Some? && f.value.streak.Some? ==> 0 <= f.value.streak.value <= charged + if Struck(e, t) then 1 else 0
  {
    if Resumed(e, t).Some? {
      ResumesExactlyWhen(e, t.ask, Resumed(e, t).value);
    }
  }

  /** What the next turn finds: the session this one published, under the role, binding and surface it ran
      as, as fresh as its clock; nothing to resume if the session was cleared and none published; and
      otherwise what this turn found. */
  lemma WhatTheNextTurnFinds(e: Option<Entry>, t: Turn)
    ensures var f := After(e, t);
      && (Publishes(t) ==>
            && f.Some? && Some(f.value.sid) == t.published && f.value.agent == t.ask.role
            && f.value.binding == Some(t.ask.binding) && f.value.lastActive == Some(t.ask.now)
            && f.value.surface == if t.ask.surface.Some? then t.ask.surface else Some(""))
      && (!Publishes(t) && t.cleared && f.Some? ==> f.value.sid == "")
      && (!Publishes(t) ==> (f.Some? <==> e.Some?))
      && (!Publishes(t) && e.Some? ==>
            && f.value.agent == e.value.agent && f.value.binding == e.value.binding && f.value.surface == e.value.surface
            && f.value.lastActive == e.value.lastActive && (!t.cleared ==> f.value.sid == e.value.sid))
  {
  }

  /** A conversation's session is resumed into at most `limit` faults before a turn finds it healthy or
      moves it on: after that many the next turn starts afresh. */
  lemma FaultsAreBounded(e: Option<Entry>, turns: seq<Turn>, limit: int, next: Ask)
    requires OneLimit(turns, limit) && limit >= 0 && next.limit == limit
    requires e.Some? && e.value.streak.Some? ==> e.value.streak.value >= 0
    ensures Strikes(e, turns) <= limit
    ensures Strikes(e, turns) == limit && limit > 0 ==> Decide(Run(e, turns), next).resume == None
  {
    StreakCountsStrikes(e, turns, limit);
  }

  /** A healthy turn of the stored session wipes the slate. */
  lemma HealthyResets(e: Option<Entry>, t: Turn)
    requires t.verdict == Healthy && t.saved && After(e, t).Some?
    requires (Resumed(e, t).Some? && !t.cleared) || Publishes(t)
    ensures FaultsOf(After(e, t).value, After(e, t).value.sid) == 0
  {
    if Resumed(e, t).Some? {
      ResumesExactlyWhen(e, t.ask, Resumed(e, t).value);
    }
  }
}
