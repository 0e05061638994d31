/**
 * When a reply is silence: nothing, or only `<silent/>` sentinels and whitespace, and when
 * a text that is still arriving may yet turn out to be.
 */
module Silence {
  const SENTINEL := "<silent/>"

  /** The characters `str.strip` removes. */
  predicate IsSpace(c: char) {
    var n := c as int;
    || 0x09 <= n <= 0x0d || 0x1c <= n <= 0x20 || n == 0x85 || n == 0xa0 || n == 0x1680
    || 0x2000 <= n <= 0x200a || n == 0x2028 || n == 0x2029 || n == 0x202f || n == 0x205f || n == 0x3000
  }

  lemma SpacesAre(c: char)
    ensures IsSpace(c) <==>
      c as int in {9, 10, 11, 12, 13, 28, 29, 30, 31, 32, 133, 160, 5760, 8192, 8193, 8194, 8195, 8196, 8197, 8198, 8199,
                   8200, 8201, 8202, 8232, 8233, 8239, 8287, 12288}
  {
  }

  predicate AllSpace(s: string) { forall i :: 0 <= i < |s| ==> IsSpace(s[i]) }

  /** The meaning: a sequence of whitespace characters and sentinels. */
  predicate IsSilence(s: string) {
    s == "" || (IsSpace(s[0]) && IsSilence(s[1..])) || (SENTINEL <= s && IsSilence(s[|SENTINEL|..]))
  }

  /** What may still arrive can complete `s` to silence. */
  ghost predicate MayBecomeSilence(s: string) {
    exists t :: IsSilence(s + t)
  }

  // ---- the code's own test ------------------------------------------------

  function LStrip(s: string): string {
    if s != "" && IsSpace(s[0]) then LStrip(s[1..]) else s
  }

  function RStrip(s: string): string {
    if s != "" && IsSpace(s[|s| - 1]) then RStrip(s[..|s| - 1]) else s
  }

  function Strip(s: string): string { RStrip(LStrip(s)) }

  /** `s.replace(SENTINEL, "")`: one pass from the left, over non-overlapping occurrences. */
  function RemoveSentinels(s: string): string {
    if s == "" then ""
    else if SENTINEL <= s then RemoveSentinels(s[|SENTINEL|..])
    else [s[0]] + RemoveSentinels(s[1..])
  }

  predicate StripsToSilence(s: string) {
    s == "" || Strip(s) == "" || Strip(RemoveSentinels(Strip(s))) == ""
  }

  // ---- they agree ---------------------------------------------------------

  lemma SentinelShape()
    ensures |SENTINEL| == 9 && forall i :: 0 <= i < |SENTINEL| ==> !IsSpace(SENTINEL[i])
  {
  }

  lemma PrefixAt(p: string, s: string, i: nat)
    requires i < |p|
    ensures p <= s ==> p[i] == s[i]
  {
  }

  lemma PrefixOfJoin(p: string, s: string, t: string)
    requires p <= s + t
    ensures p <= s || s <= p
  {
    assert (s + t)[..|s|] == s;
  }

  lemma AllSpaceJoin(a: string, b: string)
    ensures AllSpace(a + b) <==> AllSpace(a) && AllSpace(b)
  {
    forall i | 0 <= i < |b| ensures (a + b)[|a| + i] == b[i] {}
    if AllSpace(a + b) {
      forall i | 0 <= i < |a| ensures IsSpace(a[i]) { assert (a + b)[i] == a[i]; }
      forall i | 0 <= i < |b| ensures IsSpace(b[i]) { assert (a + b)[|a| + i] == b[i]; }
    }
  }

  lemma {:induction false} StripEmpty(s: string)
    ensures LStrip(s) == "" <==> AllSpace(s)
    ensures Strip(s) == "" <==> AllSpace(s)
  {
    LStripIsSuffix(s);
    RStripEmpty(LStrip(s));
    if s != "" && IsSpace(s[0]) {
      StripEmpty(s[1..]);
      assert s == [s[0]] + s[1..];
      AllSpaceJoin([s[0]], s[1..]);
    }
  }

  lemma {:induction false} LStripIsSuffix(s: string)
    ensures exists k :: 0 <= k <= |s| && AllSpace(s[..k]) && LStrip(s) == s[k..]
    ensures LStrip(s) != "" ==> !IsSpace(LStrip(s)[0])
  {
    if s != "" && IsSpace(s[0]) {
      LStripIsSuffix(s[1..]);
      var k :| 0 <= k <= |s| - 1 && AllSpace(s[1..][..k]) && LStrip(s[1..]) == s[1..][k..];
      assert s[..k + 1] == [s[0]] + s[1..][..k];
      AllSpaceJoin([s[0]], s[1..][..k]);
      assert s[1..][k..] == s[k + 1..];
    } else {
      assert s[0..] == s;
    }
  }

  lemma SplitSnoc(rest: string, c: char, k: nat)
    requires k <= |rest|
    ensures (rest + [c])[k..] == rest[k..] + [c] && (rest + [c])[..k] == rest[..k]
  {
  }

  lemma AllSpaceSnoc(s: string, c: char)
    ensures AllSpace(s + [c]) <==> AllSpace(s) && IsSpace(c)
  {
    AllSpaceJoin(s, [c]);
    assert AllSpace([c]) <==> IsSpace([c][0]);
  }

  lemma {:induction false} RStripEmpty(s: string)
    ensures RStrip(s) == "" <==> AllSpace(s)
    ensures exists k :: 0 <= k <= |s| && AllSpace(s[k..]) && RStrip(s) == s[..k]
  {
    if s != "" && IsSpace(s[|s| - 1]) {
      var rest, c := s[..|s| - 1], s[|s| - 1];
      RStripEmpty(rest);
      assert s == rest + [c] && RStrip(s) == RStrip(rest);
      hide RStrip, AllSpace;
      AllSpaceSnoc(rest, c);
      var k :| 0 <= k <= |rest| && AllSpace(rest[k..]) && RStrip(rest) == rest[..k];
      SplitSnoc(rest, c, k);
      AllSpaceSnoc(rest[k..], c);
    } else {
      assert s[..|s|] == s && AllSpace(s[|s|..]);
    }
  }

  lemma {:induction false} RemovalLeavesSpace(s: string)
    ensures AllSpace(RemoveSentinels(s)) <==> IsSilence(s)
  {
    SentinelShape();
    if s == "" {
    } else if SENTINEL <= s {
      RemovalLeavesSpace(s[|SENTINEL|..]);
      assert s[0] == SENTINEL[0];
    } else {
      RemovalLeavesSpace(s[1..]);
      var r := RemoveSentinels(s[1..]);
      AllSpaceJoin([s[0]], r);
      assert AllSpace([s[0]]) <==> IsSpace([s[0]][0]);
    }
  }

  /** Leading whitespace never matters. */
  lemma {:induction false} SilenceAfterSpace(w: string, s: string)
    requires AllSpace(w)
    ensures IsSilence(w + s) <==> IsSilence(s)
  {
    SentinelShape();
    if w == "" {
      assert w + s == s;
    } else {
      assert (w + s)[1..] == w[1..] + s;
      SilenceAfterSpace(w[1..], s);
      assert (w + s)[0] == w[0];
    }
  }

  /** A text that goes on with whitespace is silence exactly when what precedes and what follows are:
      a sentinel never straddles whitespace. */
  lemma {:induction false} SilenceSplitsAtSpace(a: string, b: string)
    requires b != "" ==> IsSpace(b[0])
    ensures IsSilence(a + b) <==> IsSilence(a) && IsSilence(b)
  {
    SentinelShape();
    if a == "" {
      assert a + b == b;
    } else {
      assert (a + b)[1..] == a[1..] + b;
      SilenceSplitsAtSpace(a[1..], b);
      if |a| >= |SENTINEL| {
        assert (a + b)[..|SENTINEL|] == a[..|SENTINEL|];
        assert (a + b)[|SENTINEL|..] == a[|SENTINEL|..] + b;
        SilenceSplitsAtSpace(a[|SENTINEL|..], b);
        assert SENTINEL <= a + b <==> SENTINEL <= a;
      } else {
        PrefixAt(SENTINEL, a + b, |a|);
        assert b != "" ==> (a + b)[|a|] == b[0];
      }
    }
  }

  lemma {:induction false} SpaceIsSilence(s: string)
    requires AllSpace(s)
    ensures IsSilence(s)
  {
    assert s + "" == s;
    SilenceAfterSpace(s, "");
  }

  lemma SilenceOfLStrip(s: string)
    ensures IsSilence(LStrip(s)) <==> IsSilence(s)
  {
    LStripIsSuffix(s);
    hide LStrip, IsSilence, AllSpace;
    var k :| 0 <= k <= |s| && AllSpace(s[..k]) && LStrip(s) == s[k..];
    assert s == s[..k] + s[k..];
    SilenceAfterSpace(s[..k], s[k..]);
  }

  lemma SilenceOfRStrip(s: string)
    ensures IsSilence(RStrip(s)) <==> IsSilence(s)
  {
    RStripEmpty(s);
    var k :| 0 <= k <= |s| && AllSpace(s[k..]) && RStrip(s) == s[..k];
    hide RStrip, IsSilence;
    assert s == s[..k] + s[k..];
    SpaceIsSilence(s[k..]);
    SilenceSplitsAtSpace(s[..k], s[k..]);
  }

  /** The code's strip-and-replace test is exactly the meaning. */
  lemma StripsToSilenceIsSilence(s: string)
    ensures StripsToSilence(s) <==> IsSilence(s)
  {
    assert IsSilence("") && Strip("") == "";
    hide LStrip, RStrip, IsSilence, RemoveSentinels, AllSpace;
    SilenceOfLStrip(s);
    SilenceOfRStrip(LStrip(s));
    StripEmpty(RemoveSentinels(Strip(s)));
    RemovalLeavesSpace(Strip(s));
  }

  // ---- silence that is still arriving -------------------------------------

  lemma MayBecomeAfterSpace(s: string)
    requires s != "" && IsSpace(s[0])
    ensures MayBecomeSilence(s) <==> MayBecomeSilence(s[1..])
  {
    forall t ensures IsSilence(s + t) <==> IsSilence(s[1..] + t) {
      assert s + t == s[..1] + (s[1..] + t);
      SilenceAfterSpace(s[..1], s[1..] + t);
    }
  }

  lemma MayBecomeAfterSentinel(s: string)
    requires SENTINEL <= s
    ensures MayBecomeSilence(s) <==> MayBecomeSilence(s[|SENTINEL|..])
  {
    SentinelShape();
    forall t ensures IsSilence(s + t) <==> IsSilence(s[|SENTINEL|..] + t) {
      assert (s + t)[..|SENTINEL|] == s[..|SENTINEL|];
      assert (s + t)[|SENTINEL|..] == s[|SENTINEL|..] + t;
      assert (s + t)[0] == SENTINEL[0];
    }
  }

  lemma MayBecomeAtWord(s: string)
    requires s != "" ==> !IsSpace(s[0])
    requires !(SENTINEL <= s)
    ensures MayBecomeSilence(s) <==> s <= SENTINEL
  {
    if s <= SENTINEL {
      var t := SENTINEL[|s|..];
      assert s + t == SENTINEL;
      assert IsSilence(SENTINEL) by {
        assert SENTINEL[|SENTINEL|..] == "";
      }
      assert IsSilence(s + t);
    }
    if t :| IsSilence(s + t) {
      if s != "" {
        assert (s + t)[0] == s[0];
        assert SENTINEL <= s + t;
        PrefixOfJoin(SENTINEL, s, t);
      }
    }
  }

  lemma {:induction false} MayBecomeAfterLStrip(s: string)
    ensures MayBecomeSilence(s) <==> MayBecomeSilence(LStrip(s))
  {
    if s != "" && IsSpace(s[0]) {
      MayBecomeAfterSpace(s);
      MayBecomeAfterLStrip(s[1..]);
    }
  }

  lemma {:induction false} LStripShorter(s: string)
    ensures |LStrip(s)| <= |s|
  {
    LStripIsSuffix(s);
  }

  /** The prefix-aware test of the token stream decides exactly whether silence is still possible. */
  method MayStillBeSilence(text: string) returns (b: bool)
    ensures b <==> MayBecomeSilence(text)
  {
    if StripsToSilence(text) {
      StripsToSilenceIsSilence(text);
      assert text + "" == text;
      return true;
    }
    var rest := LStrip(text);
    MayBecomeAfterLStrip(text);
    LStripIsSuffix(text);
    while SENTINEL <= rest
      invariant MayBecomeSilence(text) <==> MayBecomeSilence(rest)
      invariant rest != "" ==> !IsSpace(rest[0])
      decreases |rest|
    {
      MayBecomeAfterSentinel(rest);
      MayBecomeAfterLStrip(rest[|SENTINEL|..]);
      LStripIsSuffix(rest[|SENTINEL|..]);
      LStripShorter(rest[|SENTINEL|..]);
      rest := LStrip(rest[|SENTINEL|..]);
    }
    MayBecomeAtWord(rest);
    return rest <= SENTINEL;
  }
}
