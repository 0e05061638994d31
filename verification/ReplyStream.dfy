/**
 * Folding one attempt's messages into the reply, and what of it is streamed meanwhile.
 *
 * A message's text may first arrive as deltas; its own arrival supersedes them.  Each
 * event computes one cumulative text, and hands it over unless it is (or may still be)
 * silence, repeats the last one, or a call is waiting on the operator's approval.  The
 * callback may raise: on a delta the attempt goes on, on a message it ends.
 */
module ReplyStream {
  import opened Silence

  const JOINER := "\n\n"

  /** `ok` says whether the callback returns, should the event call it. */
  datatype Event =
    | Delta(t: string, ok: bool)
    | Message(text: string, apiError: bool, ok: bool)
    | Waiting(grant: string)
    | Consumed(grant: string)

  /** One call of the callback. */
  datatype Handed = Handed(text: string, raised: bool)

  /** `cut` maps each grant still waiting to the number of messages folded when it was first seen;
      `emitted` is every call of the callback; `over` that one raised out of a message. */
  datatype Fold = Fold(
    text: string,
    messages: seq<string>,
    partial: string,
    lastEmitted: string,
    cut: map<string, nat>,
    emitted: seq<Handed>,
    over: bool)

  const Fresh := Fold("", [], "", "", map[], [], false)

  function Append(text: string, more: string): string {
    text + (if text != "" && more != "" then JOINER else "") + more
  }

  /** The canonical reply: what has been folded, joined to what is in flight. */
  function Cum(s: Fold): string { Append(s.text, s.partial) }

  /** The last string handed over is remembered only if the callback returned. */
  ghost function Emit(s: Fold, held: bool, ok: bool): Fold {
    if s.cut != map[] || held || Cum(s) == s.lastEmitted then s
    else s.(emitted := s.emitted + [Handed(Cum(s), !ok)], lastEmitted := if ok then Cum(s) else s.lastEmitted)
  }

  function Folded(s: Fold, m: string): Fold {
    if m == "" then s.(partial := "")
    else s.(text := Append(s.text, m), messages := s.messages + [m], partial := "")
  }

  /** One message of the stream. */
  ghost function Apply(s: Fold, e: Event): Fold {
    if s.over then s else
    match e
    case Delta(t, ok) => if t == "" then s else
      var s1 := s.(partial := s.partial + t);
      Emit(s1, MayBecomeSilence(Cum(s1)), ok)
    case Message(m, apiError, ok) => if apiError then s.(partial := "") else
      var s1 := Folded(s, m);
      var s2 := Emit(s1, IsSilence(Cum(s1)), ok);
      s2.(over := s2.emitted != s1.emitted && !ok)
    case Waiting(g) => s.(cut := if g in s.cut then s.cut else s.cut[g := |s.messages|])
    case Consumed(g) => s.(cut := s.cut - {g})
  }

  ghost function Run(s: Fold, es: seq<Event>): Fold
    decreases |es|
  {
    if es == [] then s else Run(Apply(s, es[0]), es[1..])
  }

  /** The reply the events amount to, whatever was streamed. */
  function FinalText(text: string, es: seq<Event>): string
    decreases |es|
  {
    if es == [] then text
    else if es[0].Message? && !es[0].apiError then FinalText(Append(text, es[0].text), es[1..])
    else FinalText(text, es[1..])
  }

  /** The deltas of each folded message join to a prefix of its text; those of a message that ends in
      an API error, or never arrives, are discarded.  `partial` is what has already arrived. */
  predicate Begins(partial: string, es: seq<Event>)
    decreases |es|
  {
    if es == [] then true
    else
      match es[0]
      case Delta(t, _) => Begins(partial + t, es[1..])
      case Message(m, apiError, _) => (apiError || partial <= m) && Begins("", es[1..])
      case _ => Begins(partial, es[1..])
  }

  /** Moreover no delta is discarded. */
  predicate Chunked(partial: string, es: seq<Event>)
    decreases |es|
  {
    if es == [] then partial == ""
    else
      match es[0]
      case Delta(t, _) => Chunked(partial + t, es[1..])
      case Message(m, apiError, _) => (if apiError then partial == "" else partial <= m) && Chunked("", es[1..])
      case _ => Chunked(partial, es[1..])
  }

  predicate NoApprovals(es: seq<Event>) {
    forall i :: 0 <= i < |es| ==> !es[i].Waiting? && !es[i].Consumed?
  }

  function Join(ms: seq<string>): string {
    if ms == [] then "" else if |ms| == 1 then ms[0] else Join(ms[..|ms| - 1]) + "\n\n" + ms[|ms| - 1]
  }

  predicate Extends(h: Handed, next: Handed) { h.text <= next.text }

  predicate IsChain(hs: seq<Handed>) {
    forall i, j :: 0 <= i < j < |hs| ==> Extends(hs[i], hs[j])
  }

  predicate Differs(h: Handed, next: Handed) { h.text != next.text || h.raised }

  /** A string is handed over again only when handing it over had raised. */
  predicate NoRepeats(hs: seq<Handed>) {
    forall i, j :: 0 <= i < |hs| && j == i + 1 && j < |hs| ==> Differs(hs[i], hs[j])
  }

  /** The last string the callback took, or none. */
  function Last(hs: seq<Handed>): string
    decreases |hs|
  {
    if hs == [] then ""
    else if hs[|hs| - 1].raised then Last(hs[..|hs| - 1])
    else hs[|hs| - 1].text
  }

  // ---- the text is the messages -------------------------------------------

  predicate Joined(s: Fold) {
    s.text == Join(s.messages) && forall i :: 0 <= i < |s.messages| ==> s.messages[i] != ""
  }

  lemma JoinSnoc(ms: seq<string>, m: string)
    requires m != "" && forall i :: 0 <= i < |ms| ==> ms[i] != ""
    ensures Join(ms + [m]) == Append(Join(ms), m)
  {
    assert (ms + [m])[..|ms|] == ms;
    if ms != [] {
      assert Join(ms) != "" by {
        assert ms[|ms| - 1] != "";
      }
    }
  }

  lemma AppendNothing(text: string)
    ensures Append(text, "") == text
  {
  }

  lemma StepText(s: Fold, e: Event)
    requires Joined(s)
    ensures Joined(Apply(s, e))
    ensures Apply(s, e).text == if !s.over && e.Message? && !e.apiError then Append(s.text, e.text) else s.text
  {
    AppendNothing(s.text);
    hide Append;
    if e.Message? && !e.apiError && e.text != "" {
      JoinSnoc(s.messages, e.text);
    }
  }

  lemma {:induction false} OverStays(s: Fold, es: seq<Event>)
    requires s.over
    ensures Run(s, es) == s
    decreases |es|
  {
    if es != [] {
      OverStays(s, es[1..]);
    }
  }

  /** `text` is always the `"\n\n"` join of the text-bearing messages; the stream's fold never changes
      what the reply amounts to, unless the callback raised out of a message and ended the attempt. */
  lemma {:induction false} TextIsTheJoin(s: Fold, es: seq<Event>)
    requires Joined(s)
    ensures Joined(Run(s, es)) && (!Run(s, es).over ==> Run(s, es).text == FinalText(s.text, es))
    decreases |es|
  {
    if es != [] {
      StepText(s, es[0]);
      TextIsTheJoin(Apply(s, es[0]), es[1..]);
      if Apply(s, es[0]).over {
        OverStays(Apply(s, es[0]), es[1..]);
      }
    }
  }

  lemma CumFolded(s: Fold, m: string)
    ensures Cum(Folded(s, m)) == Append(s.text, m) == Folded(s, m).text
  {
  }

  /** How one event changes the text that the remaining events complete to the reply. */
  lemma FinalTextStep(s: Fold, es: seq<Event>)
    requires es != [] && !s.over
    ensures FinalText(s.text, es) == FinalText(Apply(s, es[0]).text, es[1..])
  {
    AppendNothing(s.text);
  }

  // ---- every cumulative is a prefix of the reply --------------------------

  lemma {:induction false} TextGrows(text: string, es: seq<Event>)
    ensures text <= FinalText(text, es)
    ensures text != "" && FinalText(text, es) != text ==> text + JOINER <= FinalText(text, es)
    decreases |es|
  {
    if es != [] {
      if es[0].Message? && !es[0].apiError {
        TextGrows(Append(text, es[0].text), es[1..]);
      } else {
        TextGrows(text, es[1..]);
      }
    }
  }

  lemma AppendGrows(text: string, a: string, b: string)
    requires a <= b
    ensures Append(text, a) <= Append(text, b)
  {
    assert b == a + b[|a|..];
    if a != "" {
      assert Append(text, b) == Append(text, a) + b[|a|..];
    }
  }

  lemma {:induction false} CumIsPrefix(text: string, partial: string, es: seq<Event>)
    requires Chunked(partial, es)
    ensures Append(text, partial) <= FinalText(text, es)
    decreases |es|
  {
    if es != [] {
      match es[0]
      case Delta(t, _) =>
        CumIsPrefix(text, partial + t, es[1..]);
        AppendGrows(text, partial, partial + t);
      case Message(m, apiError, _) =>
        if apiError {
          TextGrows(text, es[1..]);
        } else {
          AppendGrows(text, partial, m);
          TextGrows(Append(text, m), es[1..]);
        }
      case _ => CumIsPrefix(text, partial, es[1..]);
    }
  }

  lemma PrefixOfSilenceIsHeld(cum: string, reply: string)
    requires cum <= reply && IsSilence(reply)
    ensures MayBecomeSilence(cum)
  {
    assert cum + reply[|cum|..] == reply;
  }

  /** A folded text that goes on, if at all, with the joiner is silence when the whole is. */
  lemma FoldedPrefixIsSilence(text: string, es: seq<Event>)
    requires IsSilence(FinalText(text, es))
    ensures IsSilence(text)
  {
    TextGrows(text, es);
    var reply := FinalText(text, es);
    assert reply == text + reply[|text|..];
    if text != "" && reply != text {
      assert reply[|text|..][0] == (text + JOINER)[|text|];
      SilenceSplitsAtSpace(text, reply[|text|..]);
    }
  }

  // ---- silence ------------------------------------------------------------

  lemma ApplyOnlyAdds(s: Fold, e: Event)
    ensures s.emitted <= Apply(s, e).emitted
  {
  }

  lemma {:induction false} RunOnlyAdds(s: Fold, es: seq<Event>)
    ensures s.emitted <= Run(s, es).emitted
    decreases |es|
  {
    if es != [] {
      ApplyOnlyAdds(s, es[0]);
      RunOnlyAdds(Apply(s, es[0]), es[1..]);
    }
  }

  /** Some message that is never folded has already said, with what was folded before, what no silence
      can begin with. */
  ghost predicate SpeaksInVain(text: string, partial: string, es: seq<Event>)
    decreases |es|
  {
    if es == [] then !MayBecomeSilence(Append(text, partial))
    else
      match es[0]
      case Delta(t, _) => SpeaksInVain(text, partial + t, es[1..])
      case Message(m, apiError, _) =>
        if apiError then !MayBecomeSilence(Append(text, partial)) || SpeaksInVain(text, "", es[1..])
        else SpeaksInVain(Append(text, m), "", es[1..])
      case _ => SpeaksInVain(text, partial, es[1..])
  }

  lemma PrefixMayBecome(a: string, b: string)
    requires a <= b && MayBecomeSilence(b)
    ensures MayBecomeSilence(a)
  {
    var t :| IsSilence(b + t);
    assert a + (b[|a|..] + t) == b + t;
  }

  /** Deltas that have ruled silence out, under a reply that is silence, are discarded in the end. */
  lemma {:induction false} SpokenIsInVain(text: string, partial: string, es: seq<Event>)
    requires Begins(partial, es) && IsSilence(FinalText(text, es)) && !MayBecomeSilence(Append(text, partial))
    ensures SpeaksInVain(text, partial, es)
    decreases |es|
  {
    if es != [] {
      match es[0]
      case Delta(t, _) =>
        AppendGrows(text, partial, partial + t);
        if MayBecomeSilence(Append(text, partial + t)) {
          PrefixMayBecome(Append(text, partial), Append(text, partial + t));
        }
        SpokenIsInVain(text, partial + t, es[1..]);
      case Message(m, apiError, _) =>
        if !apiError {
          AppendGrows(text, partial, m);
          TextGrows(Append(text, m), es[1..]);
          PrefixOfSilenceIsHeld(Append(text, partial), FinalText(text, es));
        }
      case _ => SpokenIsInVain(text, partial, es[1..]);
    }
  }

  /** With no approval in the way, a reply that turns out to be silence showed something on the way
      exactly when some discarded message had spoken: text of a message that then ended in an API
      error, or never arrived, has been shown although the reply does not contain it. */
  lemma {:induction false} SilentReplyShowsOnlyWhatWasDiscarded(s: Fold, es: seq<Event>)
    requires Begins(s.partial, es) && NoApprovals(es) && s.cut == map[] && !s.over
    requires IsSilence(FinalText(s.text, es)) && MayBecomeSilence(Cum(s)) && s.lastEmitted == ""
    ensures Run(s, es).emitted == s.emitted <==> !SpeaksInVain(s.text, s.partial, es)
    decreases |es|
  {
    if es != [] {
      var s' := Apply(s, es[0]);
      match es[0] {
        case Delta(t, ok) =>
          assert t == "" ==> s.partial + t == s.partial;
          if !MayBecomeSilence(Append(s.text, s.partial + t)) {
            SilenceMayBecome("");
            RunOnlyAdds(s', es[1..]);
            SpokenIsInVain(s.text, s.partial + t, es[1..]);
          }
        case Message(m, apiError, ok) =>
          AppendNothing(s.text);
          if apiError {
            FoldedPrefixIsSilence(s.text, es[1..]);
            SilenceMayBecome(s.text);
          } else {
            FoldedPrefixIsSilence(Append(s.text, m), es[1..]);
            CumFolded(s, m);
            SilenceMayBecome(Append(s.text, m));
          }
      }
      if es[0].Message? || MayBecomeSilence(Append(s.text, s.partial + es[0].t)) {
        FinalTextStep(s, es);
        SilentReplyShowsOnlyWhatWasDiscarded(s', es[1..]);
      }
    }
  }

  lemma SilenceMayBecome(t: string)
    requires IsSilence(t)
    ensures MayBecomeSilence(t)
  {
    assert t + "" == t;
  }

  lemma {:induction false} ChunkedBegins(text: string, partial: string, es: seq<Event>)
    requires Chunked(partial, es)
    ensures Begins(partial, es)
    decreases |es|
  {
    if es != [] {
      ChunkedBegins(text, if es[0].Delta? then partial + es[0].t else if es[0].Message? then "" else partial, es[1..]);
    }
  }

  /** If the reply turns out to be silence and no delta was discarded, nothing was handed over on the
      way, however the messages were cut into deltas, approvals included. */
  lemma {:induction false} SilentReplyShowsNothing(s: Fold, es: seq<Event>)
    requires Chunked(s.partial, es) && IsSilence(FinalText(s.text, es))
    ensures Run(s, es).emitted == s.emitted
    decreases |es|
  {
    if s.over {
      OverStays(s, es);
    } else if es != [] {
      match es[0] {
        case Delta(t, _) =>
          if t == "" {
            assert s.partial + t == s.partial;
          } else {
            CumIsPrefix(s.text, s.partial + t, es[1..]);
            PrefixOfSilenceIsHeld(Append(s.text, s.partial + t), FinalText(s.text, es));
          }
        case Message(m, apiError, _) =>
          if !apiError {
            FoldedPrefixIsSilence(Append(s.text, m), es[1..]);
            CumFolded(s, m);
          }
        case _ =>
      }
      FinalTextStep(s, es);
      SilentReplyShowsNothing(Apply(s, es[0]), es[1..]);
    }
  }

  // ---- the stream -----------------------------------------------------------

  /** What has been handed over is a chain of prefixes of the current cumulative. */
  predicate Streaming(s: Fold) {
    && IsChain(s.emitted) && NoRepeats(s.emitted)
    && s.lastEmitted == Last(s.emitted)
    && forall i :: 0 <= i < |s.emitted| ==> s.emitted[i].text <= Cum(s)
  }

  lemma LastSnoc(hs: seq<Handed>, h: Handed)
    ensures Last(hs + [h]) == if h.raised then Last(hs) else h.text
  {
    assert (hs + [h])[..|hs|] == hs;
  }

  lemma ChainSnoc(hs: seq<Handed>, h: Handed)
    requires IsChain(hs) && NoRepeats(hs) && forall i :: 0 <= i < |hs| ==> Extends(hs[i], h)
    requires hs != [] ==> Differs(hs[|hs| - 1], h)
    ensures IsChain(hs + [h]) && NoRepeats(hs + [h])
  {
    hide Extends, Differs;
    var more := hs + [h];
    forall i, j | 0 <= i < j < |more| ensures Extends(more[i], more[j]) {
      assert more[i] == hs[i] && (j < |hs| ==> more[j] == hs[j]);
    }
    forall i, j | 0 <= i < |more| && j == i + 1 && j < |more| ensures Differs(more[i], more[j]) {
      assert more[i] == hs[i] && (j < |hs| ==> more[j] == hs[j]);
    }
  }

  lemma EmitStreams(s: Fold, held: bool, ok: bool)
    requires Streaming(s)
    ensures Streaming(Emit(s, held, ok))
  {
    var h := Handed(Cum(s), !ok);
    LastSnoc(s.emitted, h);
    if Cum(s) != s.lastEmitted {
      assert forall i :: 0 <= i < |s.emitted| ==> Extends(s.emitted[i], h);
      ChainSnoc(s.emitted, h);
    }
    hide IsChain, NoRepeats, Last;
  }

  /** A growing cumulative keeps what was handed over before it a chain of its prefixes. */
  lemma GrownStreams(s: Fold, t: Fold)
    requires Streaming(s) && t.emitted == s.emitted && t.lastEmitted == s.lastEmitted && Cum(s) <= Cum(t)
    ensures Streaming(t)
  {
  }

  lemma StreamingKept(s: Fold, e: Event, rest: seq<Event>)
    requires Streaming(s) && Chunked(s.partial, [e] + rest) && !s.over
    ensures Streaming(Apply(s, e)) && Chunked(Apply(s, e).partial, rest)
  {
    assert ([e] + rest)[1..] == rest;
    match e
    case Delta(t, ok) =>
      assert t == "" ==> s.partial + t == s.partial;
      AppendGrows(s.text, s.partial, s.partial + t);
      var s1 := s.(partial := s.partial + t);
      GrownStreams(s, s1);
      EmitStreams(s1, MayBecomeSilence(Cum(s1)), ok);
    case Message(m, apiError, ok) =>
      if !apiError {
        AppendGrows(s.text, s.partial, m);
        CumFolded(s, m);
        var s1 := Folded(s, m);
        GrownStreams(s, s1);
        EmitStreams(s1, IsSilence(Cum(s1)), ok);
      }
    case _ =>
  }

  /** Whatever the chunking, with approvals pending or consumed on the way and whichever calls of the
      callback raised, the strings handed over grow: each is a prefix of the next, a proper one unless
      handing it over had raised, and all are prefixes of the reply. */
  lemma {:induction false} StreamIsAChainOfPrefixes(s: Fold, es: seq<Event>)
    requires Streaming(s) && Chunked(s.partial, es) && !s.over
    ensures Streaming(Run(s, es))
    ensures forall i :: 0 <= i < |Run(s, es).emitted| ==> Run(s, es).emitted[i].text <= FinalText(s.text, es)
    decreases |es|
  {
    if es == [] {
      assert Cum(s) == s.text;
    } else {
      assert es == [es[0]] + es[1..];
      StreamingKept(s, es[0], es[1..]);
      FinalTextStep(s, es);
      var s' := Apply(s, es[0]);
      if s'.over {
        OverStays(s', es[1..]);
        CumIsPrefix(s'.text, s'.partial, es[1..]);
      } else {
        StreamIsAChainOfPrefixes(s', es[1..]);
      }
    }
  }

  lemma RunTwo(s: Fold, e: Event, f: Event)
    ensures Run(s, [e] + [f]) == Apply(Apply(s, e), f)
  {
    assert ([e] + [f])[1..] == [f] && [f][1..] == [];
    assert Run(Apply(s, e), [f]) == Run(Apply(Apply(s, e), f), []);
  }

  lemma DeltaRaises(t: string)
    requires t != "" && !MayBecomeSilence(t)
    ensures Apply(Fresh, Delta(t, false)) == Fresh.(partial := t, emitted := [Handed(t, true)])
  {
    hide MayBecomeSilence;
    assert "" + t == t && "" + "" + t == t;
  }

  /** A callback that raises on a delta is given the same string again by the fold. */
  lemma RaisedDeltaIsRepeated(t: string)
    requires !MayBecomeSilence(t)
    ensures Run(Fresh, [Delta(t, false)] + [Message(t, false, true)]).emitted == [Handed(t, true), Handed(t, false)]
  {
    SilenceMayBecome("");
    if IsSilence(t) {
      SilenceMayBecome(t);
    }
    RunTwo(Fresh, Delta(t, false), Message(t, false, true));
    DeltaRaises(t);
    hide IsSilence, MayBecomeSilence, Run;
    CumFolded(Fresh.(partial := t, emitted := [Handed(t, true)]), t);
    assert "" + "" + t == t;
    assert [Handed(t, true)] + [Handed(t, false)] == [Handed(t, true), Handed(t, false)];
  }

  /** Once a message has been folded with nothing waiting on approval, the last string the callback
      took is the reply so far, unless that is silence or the callback raised. */
  lemma FoldShowsTheReply(s: Fold, m: string, ok: bool)
    requires s.lastEmitted == Last(s.emitted) && s.cut == map[] && !s.over
    ensures var s' := Apply(s, Message(m, false, ok));
      && s'.text == Append(s.text, m)
      && (!IsSilence(s'.text) && !s'.over ==> Last(s'.emitted) == s'.text)
  {
    CumFolded(s, m);
    var s1 := Folded(s, m);
    LastSnoc(s.emitted, Handed(Cum(s1), !ok));
  }

  predicate Shown(s: Fold) {
    s.partial == "" ==> IsSilence(s.text) || s.lastEmitted == s.text
  }

  lemma {:induction false} ReplyIsShown(s: Fold, es: seq<Event>)
    requires Streaming(s) && Shown(s) && s.cut == map[] && Chunked(s.partial, es) && NoApprovals(es) && !s.over
    ensures Run(s, es).over || (Shown(Run(s, es)) && Run(s, es).partial == "")
    ensures Run(s, es).lastEmitted == Last(Run(s, es).emitted)
    decreases |es|
  {
    if es != [] {
      assert es == [es[0]] + es[1..];
      StreamingKept(s, es[0], es[1..]);
      var s' := Apply(s, es[0]);
      match es[0] {
        case Delta(t, ok) =>
        case Message(m, apiError, ok) =>
          if !apiError {
            FoldShowsTheReply(s, m, ok);
          }
      }
      if s'.over {
        OverStays(s', es[1..]);
      } else {
        ReplyIsShown(s', es[1..]);
      }
    }
  }

  /** With no approval in the way and no delta discarded, an attempt hands over nothing exactly when its
      reply is silence; unless the callback raised out of a message, the last string it took is
      otherwise the whole reply: `"\n\n"` joins its messages. */
  lemma StreamEndsWithTheReply(es: seq<Event>)
    requires Chunked("", es) && NoApprovals(es)
    ensures var s := Run(Fresh, es);
      && IsChain(s.emitted) && NoRepeats(s.emitted)
      && (IsSilence(FinalText("", es)) ==> s.emitted == [])
      && (!s.over ==>
            && s.text == Join(s.messages) == FinalText("", es)
            && (s.emitted == [] ==> IsSilence(s.text))
            && (!IsSilence(s.text) ==> Last(s.emitted) == s.text))
      && (s.over ==> s.emitted != [])
  {
    TextIsTheJoin(Fresh, es);
    StreamIsAChainOfPrefixes(Fresh, es);
    ReplyIsShown(Fresh, es);
    OverHandedOver(Fresh, es);
    if IsSilence(FinalText("", es)) {
      SilentReplyShowsNothing(Fresh, es);
    }
  }

  lemma {:induction false} OverHandedOver(s: Fold, es: seq<Event>)
    requires s.over ==> s.emitted != []
    ensures Run(s, es).over ==> Run(s, es).emitted != []
    decreases |es|
  {
    if es != [] {
      ApplyOnlyAdds(s, es[0]);
      OverHandedOver(Apply(s, es[0]), es[1..]);
    }
  }

  /** While a grant is waiting on the operator, nothing at all is handed over. */
  lemma {:induction false} WaitingHoldsTheStream(s: Fold, es: seq<Event>, g: string)
    requires g in s.cut && Consumed(g) !in es
    ensures Run(s, es).emitted == s.emitted && g in Run(s, es).cut && Run(s, es).cut[g] == s.cut[g]
    decreases |es|
  {
    if es != [] {
      assert es[0] in es && forall e :: e in es[1..] ==> e in es;
      WaitingHoldsTheStream(Apply(s, es[0]), es[1..], g);
    }
  }

  /** The first sight of a waiting grant is kept, with how much had been folded by then. */
  lemma FirstSightStays(s: Fold, g: string)
    requires !s.over
    ensures Apply(s, Waiting(g)).cut.Keys == s.cut.Keys + {g}
    ensures Apply(s, Waiting(g)).cut[g] == if g in s.cut then s.cut[g] else |s.messages|
    ensures forall h :: h in s.cut ==> Apply(s, Waiting(g)).cut[h] == s.cut[h]
    ensures Apply(s, Waiting(g)) == s.(cut := Apply(s, Waiting(g)).cut)
  {
  }

  /** A consumed grant no longer waits, and the others do. */
  lemma ConsumedNoLongerWaits(s: Fold, g: string)
    requires !s.over
    ensures Apply(s, Consumed(g)).cut.Keys == s.cut.Keys - {g}
    ensures forall h :: h in s.cut && h != g ==> Apply(s, Consumed(g)).cut[h] == s.cut[h]
    ensures Apply(s, Consumed(g)) == s.(cut := Apply(s, Consumed(g)).cut)
  {
  }

  /** When the last waiting grant has been consumed, the next folded message shows the whole reply again. */
  lemma ConsumingReopensTheStream(s: Fold, g: string, m: string, ok: bool)
    requires s.lastEmitted == Last(s.emitted) && !s.over && s.cut.Keys <= {g}
    ensures var t := Run(s, [Consumed(g)] + [Message(m, false, ok)]);
      && t.text == Append(s.text, m)
      && (!IsSilence(t.text) && !t.over ==> Last(t.emitted) == t.text)
  {
    var s' := Apply(s, Consumed(g));
    assert s'.cut.Keys == {};
    RunTwo(s, Consumed(g), Message(m, false, ok));
    hide IsSilence, Last, Run;
    FoldShowsTheReply(s', m, ok);
  }

  // ---- the closure's state, updated in place --------------------------------

  class ReplyFold {
    var text: string
    var messages: seq<string>
    var partial: string
    var lastEmitted: string
    var cut: map<string, nat>
    var emitted: seq<Handed>
    /** A callback raised out of `OnMessage`: the attempt is over, and its fold is not called again. */
    ghost var over: bool

    ghost function View(): Fold
      reads this
    {
      Fold(text, messages, partial, lastEmitted, cut, emitted, over)
    }

    constructor ()
      ensures View() == Fresh
    {
      text, messages, partial, lastEmitted, cut, emitted, over := "", [], "", "", map[], [], false;
    }

    function Cumulative(): (cum: string)
      reads this
      ensures cum == Cum(View())
    {
      text + (if text != "" && partial != "" then JOINER else "") + partial
    }

    /** The one emission path; the hold is prefix-aware for deltas and strict for a fold. */
    method EmitCum(isPartial: bool, ok: bool) returns (raised: bool)
      modifies this`lastEmitted, this`emitted
      ensures var held := if isPartial then MayBecomeSilence(old(Cumulative())) else IsSilence(old(Cumulative()));
        View() == Emit(old(View()), held, ok)
      ensures raised <==> emitted != old(emitted) && !ok
    {
      if cut != map[] { return false; }
      var cum := Cumulative();
      StripsToSilenceIsSilence(cum);
      var held := StripsToSilence(cum);
      if isPartial {
        held := MayStillBeSilence(cum);
      }
      if held || cum == lastEmitted { return false; }
      emitted := emitted + [Handed(cum, !ok)];
      if !ok { return true; }
      lastEmitted := cum;
      return false;
    }

    /** What the callback raises here is logged and dropped. */
    method OnDelta(t: string, ok: bool)
      requires !over
      modifies this
      ensures View() == Apply(old(View()), Delta(t, ok))
    {
      if t != "" {
        partial := partial + t;
        var _ := EmitCum(true, ok);
      }
    }

    /** What it raises here leaves the fold. */
    method OnMessage(blocks: seq<string>, apiError: bool, ok: bool) returns (raised: bool)
      requires !over
      modifies this
      ensures View() == Apply(old(View()), Message(Concat(blocks), apiError, ok))
      ensures raised <==> over
    {
      if apiError {
        partial := "";
        return false;
      }
      var m := "";
      for i := 0 to |blocks|
        invariant m == Concat(blocks[..i]) && View() == old(View())
      {
        assert blocks[..i + 1][..i] == blocks[..i];
        m := m + blocks[i];
      }
      assert blocks[..|blocks|] == blocks;
      if m != "" {
        if text != "" {
          text := text + JOINER;
        }
        text := text + m;
        messages := messages + [m];
      }
      partial := "";
      raised := EmitCum(false, ok);
      over := raised;
    }

    /** The approval cut reads a call's record at its result: first sight of a grant stays. */
    method OnApproval(grant: string, waiting: bool)
      requires !over
      modifies this`cut
      ensures View() == Apply(old(View()), if waiting then Waiting(grant) else Consumed(grant))
    {
      if waiting {
        if grant !in cut {
          cut := cut[grant := |messages|];
        }
      } else {
        cut := cut - {grant};
      }
    }
  }

  /** A message's text blocks, joined. */
  function Concat(blocks: seq<string>): string {
    if blocks == [] then "" else Concat(blocks[..|blocks| - 1]) + blocks[|blocks| - 1]
  }
}
