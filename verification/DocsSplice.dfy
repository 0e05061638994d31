/**
 * Splicing a generated body between two markers of a hand-written file.
 */
module DocsSplice {
  import opened Prelude

  const ROUTING_BEGIN := "<!-- BEGIN ROUTING -->"
  const ROUTING_END := "<!-- END ROUTING -->"
  const SOURCEMAP_BEGIN := "<!-- BEGIN SOURCEMAP -->"
  const SOURCEMAP_END := "<!-- END SOURCEMAP -->"

  // ---- the string operations ---------------------------------------------------

  /** `text.count(m)`: non-overlapping occurrences, from the left. */
  function Count(text: string, m: string): nat
    requires m != ""
    decreases |text|
  {
    if text == "" then 0
    else if m <= text then 1 + Count(text[|m|..], m)
    else Count(text[1..], m)
  }

  /** `text.find(m)`. */
  function First(text: string, m: string): (r: Option<nat>)
    requires m != ""
    ensures r.Some? ==> r.value + |m| <= |text| && text[r.value..r.value + |m|] == m
    decreases |text|
  {
    if text == "" then None
    else if m <= text then Some(0)
    else
      match First(text[1..], m)
      case None => None
      case Some(i) => Some(i + 1)
  }

  datatype SpliceError = NotOnePair | Reversed
  datatype Spliced = Ok(text: string) | Err(error: SpliceError)

  /** The files' own line feed goes in front of the body.  (For markers that could overlap, the second
      split could fail where the counts did not; for these it cannot.) */
  function Splice(text: string, begin: string, end: string, body: string): Spliced
    requires begin != "" && end != ""
  {
    if Count(text, begin) != 1 || Count(text, end) != 1 then Err(NotOnePair)
    else
      var i, j := First(text, begin), First(text, end);
      if i.None? || j.None? || i.value > j.value then Err(Reversed)
      else
        var head, rest := text[..i.value], text[i.value + |begin|..];
        var k := First(rest, end);
        if k.None? then Err(Reversed)
        else Ok(head + begin + "\n" + body + end + rest[k.value + |end|..])
  }

  // ---- markers --------------------------------------------------------------------

  /** A marker opens with `<` and has no other: no occurrence overlaps another one. */
  predicate Marker(m: string) {
    m != "" && m[0] == '<' && forall i :: 1 <= i < |m| ==> m[i] != '<'
  }

  /** The two markers of a region. */
  predicate Pair(begin: string, end: string) {
    Marker(begin) && Marker(end) && !(begin <= end) && !(end <= begin)
  }

  lemma TheMarkersPair()
    ensures Pair(ROUTING_BEGIN, ROUTING_END) && Pair(SOURCEMAP_BEGIN, SOURCEMAP_END)
  {
    assert ROUTING_BEGIN[5] == 'B' && ROUTING_END[5] == 'E';
    assert SOURCEMAP_BEGIN[5] == 'B' && SOURCEMAP_END[5] == 'E';
  }

  lemma {:induction false} CountSkips(w: string, y: string, m: string)
    requires Marker(m) && forall i :: 0 <= i < |w| ==> w[i] != '<'
    ensures Count(w + y, m) == Count(y, m)
    decreases |w|
  {
    if w == "" {
      assert w + y == y;
    } else {
      assert (w + y)[0] == w[0];
      assert (w + y)[1..] == w[1..] + y;
      CountSkips(w[1..], y, m);
    }
  }

  lemma PrefixAt(m: string, s: string, k: nat)
    requires k < |m|
    ensures m <= s ==> k < |s| && m[k] == s[k]
  {
  }

  lemma MarkerAhead(x: string, t: string, y: string, m: string)
    requires Marker(m) && Marker(t) && x != ""
    ensures m <= x + t + y <==> m <= x
  {
    var s := x + t + y;
    if |m| > |x| {
      PrefixAt(m, s, |x|);
      assert s[|x|] == t[0];
    } else {
      assert s[..|m|] == x[..|m|];
    }
  }

  lemma NeitherPrefix(m: string, t: string, s: string)
    requires t <= s && !(m <= t) && !(t <= m)
    ensures !(m <= s)
  {
    if |m| <= |t| {
      assert s[..|m|] == t[..|m|];
    } else {
      var k :| 0 <= k < |t| && m[k] != t[k];
      PrefixAt(m, s, k);
    }
  }

  /** Occurrences do not straddle a marker, so they can be counted piece by piece. */
  lemma {:induction false} CountJoin(x: string, t: string, y: string, m: string)
    requires Marker(m) && Marker(t) && (t == m || (!(m <= t) && !(t <= m)))
    ensures Count(x + t + y, m) == Count(x, m) + (if t == m then 1 else 0) + Count(y, m)
    decreases |x|
  {
    var s := x + t + y;
    if x == "" {
      assert s == t + y;
      if t == m {
        assert s[|m|..] == y;
      } else {
        assert s[..|t|] == t;
        NeitherPrefix(m, t, s);
        assert s[1..] == t[1..] + y;
        CountSkips(t[1..], y, m);
      }
    } else {
      MarkerAhead(x, t, y, m);
      var step := if m <= x then |m| else 1;
      assert s[step..] == x[step..] + t + y;
      CountJoin(x[step..], t, y, m);
    }
  }

  lemma {:induction false} FirstExists(text: string, m: string)
    requires m != ""
    ensures First(text, m).Some? <==> Count(text, m) > 0
    decreases |text|
  {
    if text != "" && !(m <= text) {
      FirstExists(text[1..], m);
    }
  }

  /** An absent marker is first found where it is put. */
  lemma {:induction false} FirstJoin(x: string, m: string, y: string)
    requires Marker(m) && Count(x, m) == 0
    ensures First(x + m + y, m) == Some(|x|)
    decreases |x|
  {
    var s := x + m + y;
    if x == "" {
      assert s == m + y;
    } else {
      MarkerAhead(x, m, y, m);
      assert s[1..] == x[1..] + m + y;
      FirstJoin(x[1..], m, y);
    }
  }

  lemma CutAt(text: string, m: string, i: nat)
    requires i + |m| <= |text| && text[i..i + |m|] == m
    ensures text == text[..i] + m + text[i + |m|..]
  {
  }

  lemma Pieces(x: string, m: string, y: string)
    ensures (x + m + y)[..|x|] == x && (x + m + y)[|x| + |m|..] == y && |x + m + y| == |x| + |m| + |y|
  {
  }

  lemma Regroup(head: string, begin: string, mid: string, end: string, tail: string)
    ensures head + begin + mid + end + tail == head + begin + (mid + end + tail)
  {
  }

  // ---- what splicing does -----------------------------------------------------------

  /** `text` is a head, one region and a tail, with no other marker anywhere. */
  predicate Region(text: string, begin: string, end: string, head: string, mid: string, tail: string)
    requires begin != "" && end != ""
  {
    && text == head + begin + mid + end + tail
    && Free(head, begin, end) && Free(mid, begin, end) && Free(tail, begin, end)
  }

  predicate Free(s: string, begin: string, end: string)
    requires begin != "" && end != ""
  {
    Count(s, begin) == 0 && Count(s, end) == 0
  }

  lemma RegionCounts(begin: string, end: string, head: string, mid: string, tail: string)
    requires Pair(begin, end)
    ensures var text := head + begin + mid + end + tail;
      && Count(text, begin) == Count(head, begin) + 1 + Count(mid, begin) + Count(tail, begin)
      && Count(text, end) == Count(head, end) + Count(mid, end) + 1 + Count(tail, end)
  {
    hide Count, Marker;
    var rest := mid + end + tail;
    Regroup(head, begin, mid, end, tail);
    CountJoin(head, begin, rest, begin);
    CountJoin(head, begin, rest, end);
    CountJoin(mid, end, tail, begin);
    CountJoin(mid, end, tail, end);
  }

  /** Where the markers of a region are found. */
  lemma RegionFinds(begin: string, end: string, head: string, mid: string, tail: string)
    requires Pair(begin, end) && Free(head, begin, end) && Free(mid, begin, end)
    ensures First(head + begin + (mid + end + tail), begin) == Some(|head|)
    ensures First(head + begin + mid + end + tail, end) == Some(|head + begin + mid|)
    ensures First(mid + end + tail, end) == Some(|mid|)
  {
    hide Count, First, Marker;
    FirstJoin(head, begin, mid + end + tail);
    FirstJoin(mid, end, tail);
    CountJoin(head, begin, mid, end);
    FirstJoin(head + begin + mid, end, tail);
  }

  /** In a region the body is replaced, and nothing else. */
  lemma SpliceInRegion(text: string, begin: string, end: string, head: string, mid: string, tail: string, body: string)
    requires Pair(begin, end) && Region(text, begin, end, head, mid, tail)
    ensures Splice(text, begin, end, body) == Ok(head + begin + "\n" + body + end + tail)
  {
    RegionCounts(begin, end, head, mid, tail);
    RegionFinds(begin, end, head, mid, tail);
    hide Count, First, Pair, Free, Splice;
    var rest := mid + end + tail;
    Regroup(head, begin, mid, end, tail);
    Pieces(head, begin, rest);
    Pieces(mid, end, tail);
    Pieces(head, begin, mid);
    SpliceResult(text, begin, end, body, head, rest, tail, |head + begin + mid|, |mid|);
  }

  lemma SpliceResult(text: string, begin: string, end: string, body: string,
                     head: string, rest: string, tail: string, j: nat, k: nat)
    requires begin != "" && end != "" && Count(text, begin) == 1 && Count(text, end) == 1
    requires First(text, begin) == Some(|head|) && First(text, end) == Some(j) && |head| <= j
    requires text[..|head|] == head && text[|head| + |begin|..] == rest
    requires First(rest, end) == Some(k) && rest[k + |end|..] == tail
    ensures Splice(text, begin, end, body) == Ok(head + begin + "\n" + body + end + tail)
  {
    hide Count, First;
  }

  /** Splicing succeeds only in a region. */
  lemma SpliceFindsRegion(text: string, begin: string, end: string, body: string)
    returns (head: string, mid: string, tail: string)
    requires Pair(begin, end) && Splice(text, begin, end, body).Ok?
    ensures Region(text, begin, end, head, mid, tail)
  {
    hide Count, First, Marker;
    var i := First(text, begin).value;
    CutAt(text, begin, i);
    head := text[..i];
    var rest := text[i + |begin|..];
    var k := First(rest, end).value;
    CutAt(rest, end, k);
    mid, tail := rest[..k], rest[k + |end|..];
    Regroup(head, begin, mid, end, tail);
    RegionCounts(begin, end, head, mid, tail);
  }

  lemma CountAfterFeed(body: string, m: string)
    requires Marker(m)
    ensures Count("\n" + body, m) == Count(body, m)
  {
    CountSkips("\n", body, m);
  }

  /** Splicing again replaces what was spliced before, as long as that holds no marker; a body with a
      marker in it makes every later splice fail. */
  lemma LastSpliceWins(text: string, begin: string, end: string, body1: string, body2: string)
    requires Pair(begin, end) && Splice(text, begin, end, body1).Ok?
    ensures var once := Splice(text, begin, end, body1).text;
      Splice(once, begin, end, body2) ==
        if Free(body1, begin, end) then Splice(text, begin, end, body2) else Err(NotOnePair)
  {
    hide Count, First, Marker, Splice;
    var once := Splice(text, begin, end, body1).text;
    var head, mid, tail := SpliceFindsRegion(text, begin, end, body1);
    SpliceInRegion(text, begin, end, head, mid, tail, body1);
    SpliceInRegion(text, begin, end, head, mid, tail, body2);
    var fed := "\n" + body1;
    FedRegroup(head, begin, body1, end, tail);
    CountAfterFeed(body1, begin);
    CountAfterFeed(body1, end);
    if Free(body1, begin, end) {
      SpliceInRegion(once, begin, end, head, fed, tail, body2);
    } else {
      RegionCounts(begin, end, head, fed, tail);
      SpliceNeedsOnePair(once, begin, end, body2);
    }
  }

  lemma FedRegroup(head: string, begin: string, body: string, end: string, tail: string)
    ensures head + begin + "\n" + body + end + tail == head + begin + ("\n" + body) + end + tail
  {
  }

  lemma SpliceNeedsOnePair(text: string, begin: string, end: string, body: string)
    requires begin != "" && end != "" && (Count(text, begin) != 1 || Count(text, end) != 1)
    ensures Splice(text, begin, end, body) == Err(NotOnePair)
  {
  }

  /** What is outside the markers is kept to the character. */
  lemma SpliceKeepsTheRest(text: string, begin: string, end: string, body: string)
    returns (head: string, mid: string, tail: string)
    requires Pair(begin, end) && Splice(text, begin, end, body).Ok?
    ensures text == head + begin + mid + end + tail
    ensures Splice(text, begin, end, body).text == head + begin + "\n" + body + end + tail
  {
    hide Count, First, Marker, Splice;
    head, mid, tail := SpliceFindsRegion(text, begin, end, body);
    SpliceInRegion(text, begin, end, head, mid, tail, body);
  }
}
