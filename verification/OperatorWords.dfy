/**
 * The bounded, expiring cache of the operator's words, and the plain history it must agree with.
 *
 * The cache is an ordered dictionary that forgets: a new record of a key moves it to the end,
 * expired entries are swept out, and the oldest are evicted past 500.  The history is every
 * accepted record in order.  With a clock that never goes back the cache is at every sweep a
 * function of the history alone, so no order of sweeps and evictions can lose or keep too much.
 */
module OperatorWordsModule {
  import opened Prelude

  const MAX_WORDS_CHARS := 4000
  const MAX_ENTRIES := 500
  const KEEP_SECONDS := 86400.0

  datatype Key = Key(plugin: string, operator: int, digest: string)
  datatype Item = Item(key: Key, words: string, expires: real)

  function Cut(words: string): string {
    if |words| > MAX_WORDS_CHARS then words[..MAX_WORDS_CHARS] else words
  }

  // ---- the specification ----------------------------------------------------

  function Without(s: seq<Item>, k: Key): seq<Item> {
    if s == [] then [] else Without(s[..|s| - 1], k) + (if s[|s| - 1].key == k then [] else [s[|s| - 1]])
  }

  function Unexpired(s: seq<Item>, now: real): seq<Item> {
    if s == [] then [] else Unexpired(s[..|s| - 1], now) + (if s[|s| - 1].expires <= now then [] else [s[|s| - 1]])
  }

  function LastN(s: seq<Item>, n: nat): seq<Item> {
    if |s| > n then s[|s| - n..] else s
  }

  /** The latest record of each key, in the order they were recorded. */
  function Latest(h: seq<Item>): seq<Item> {
    if h == [] then [] else Without(Latest(h[..|h| - 1]), h[|h| - 1].key) + [h[|h| - 1]]
  }

  /** What a cache with nothing to forget early would hold: of the latest records, the last 500,
      of these the unexpired. */
  function Spec(h: seq<Item>, now: real): seq<Item> {
    Unexpired(LastN(Latest(h), MAX_ENTRIES), now)
  }

  predicate Sorted(s: seq<Item>) {
    forall i, j :: 0 <= i < j < |s| ==> s[i].expires <= s[j].expires
  }

  predicate Unique(s: seq<Item>) {
    forall i, j :: 0 <= i < j < |s| ==> s[i].key != s[j].key
  }

  predicate Has(s: seq<Item>, k: Key) {
    exists i :: 0 <= i < |s| && s[i].key == k
  }

  // ---- the three operations commute -----------------------------------------

  lemma {:induction false} WithoutJoin(a: seq<Item>, b: seq<Item>, k: Key)
    ensures Without(a + b, k) == Without(a, k) + Without(b, k)
  {
    if b == [] {
      assert a + b == a;
    } else {
      assert (a + b)[..|a + b| - 1] == a + b[..|b| - 1];
      WithoutJoin(a, b[..|b| - 1], k);
    }
  }

  lemma {:induction false} UnexpiredJoin(a: seq<Item>, b: seq<Item>, now: real)
    ensures Unexpired(a + b, now) == Unexpired(a, now) + Unexpired(b, now)
  {
    if b == [] {
      assert a + b == a;
    } else {
      assert (a + b)[..|a + b| - 1] == a + b[..|b| - 1];
      UnexpiredJoin(a, b[..|b| - 1], now);
    }
  }

  lemma {:induction false} WithoutMembers(s: seq<Item>, k: Key)
    ensures forall x :: x in Without(s, k) <==> x in s && x.key != k
  {
    if s != [] {
      WithoutMembers(s[..|s| - 1], k);
      assert s == s[..|s| - 1] + [s[|s| - 1]];
    }
  }

  lemma {:induction false} WithoutSorted(s: seq<Item>, k: Key)
    requires Sorted(s)
    ensures Sorted(Without(s, k))
  {
    if s != [] {
      var front := s[..|s| - 1];
      WithoutSorted(front, k);
      WithoutMembers(front, k);
      var w := Without(front, k);
      forall i | 0 <= i < |w| ensures w[i].expires <= s[|s| - 1].expires {
        assert w[i] in front;
      }
    }
  }

  lemma {:induction false} WithoutUnique(s: seq<Item>, k: Key)
    requires Unique(s)
    ensures Unique(Without(s, k))
  {
    if s != [] {
      var front := s[..|s| - 1];
      WithoutUnique(front, k);
      WithoutMembers(front, k);
      var w := Without(front, k);
      forall i | 0 <= i < |w| ensures w[i].key != s[|s| - 1].key {
        assert w[i] in front;
      }
    }
  }

  lemma {:induction false} WithoutAbsent(s: seq<Item>, k: Key)
    requires forall i :: 0 <= i < |s| ==> s[i].key != k
    ensures Without(s, k) == s
  {
    if s != [] {
      WithoutAbsent(s[..|s| - 1], k);
      assert s == s[..|s| - 1] + [s[|s| - 1]];
    }
  }

  /** Of distinct keys at most one is removed. */
  lemma {:induction false} WithoutLength(s: seq<Item>, k: Key)
    requires Unique(s)
    ensures |Without(s, k)| == if Has(s, k) then |s| - 1 else |s|
  {
    if s != [] {
      var front, x := s[..|s| - 1], s[|s| - 1];
      WithoutLength(front, k);
      if x.key == k {
        assert !Has(front, k);
      } else {
        assert Has(front, k) ==> Has(s, k);
        if Has(s, k) {
          var i :| 0 <= i < |s| && s[i].key == k;
          assert front[i].key == k;
        }
      }
    }
  }

  lemma {:induction false} UnexpiredMembers(s: seq<Item>, now: real)
    ensures forall x :: x in Unexpired(s, now) <==> x in s && x.expires > now
    ensures Unique(s) ==> Unique(Unexpired(s, now))
  {
    if s != [] {
      var front, x := s[..|s| - 1], s[|s| - 1];
      assert s == front + [x];
      UnexpiredMembers(front, now);
      forall y | y in Unexpired(front, now) ensures Unique(s) ==> y.key != x.key {
        assert y in front;
      }
    }
  }

  lemma {:induction false} UnexpiredLater(s: seq<Item>, t: real, now: real)
    requires t <= now
    ensures Unexpired(Unexpired(s, t), now) == Unexpired(s, now)
  {
    if s != [] {
      UnexpiredLater(s[..|s| - 1], t, now);
      var x := s[|s| - 1];
      UnexpiredJoin(Unexpired(s[..|s| - 1], t), if x.expires <= t then [] else [x], now);
    }
  }

  lemma {:induction false} UnexpiredWithout(s: seq<Item>, k: Key, now: real)
    ensures Unexpired(Without(s, k), now) == Without(Unexpired(s, now), k)
  {
    if s != [] {
      var front, x := s[..|s| - 1], s[|s| - 1];
      UnexpiredWithout(front, k, now);
      UnexpiredJoin(Without(front, k), if x.key == k then [] else [x], now);
      WithoutJoin(Unexpired(front, now), if x.expires <= now then [] else [x], k);
    }
  }

  lemma {:induction false} AllExpired(s: seq<Item>, now: real)
    requires forall j :: 0 <= j < |s| ==> s[j].expires <= now
    ensures Unexpired(s, now) == []
  {
    if s != [] {
      AllExpired(s[..|s| - 1], now);
    }
  }

  /** In time order the expired entries are the first ones, so sweeping and keeping the last commute. */
  lemma {:induction false} UnexpiredIsSuffix(s: seq<Item>, now: real)
    requires Sorted(s)
    ensures |Unexpired(s, now)| <= |s| && Unexpired(s, now) == s[|s| - |Unexpired(s, now)|..]
  {
    if s != [] {
      var front, x := s[..|s| - 1], s[|s| - 1];
      UnexpiredIsSuffix(front, now);
      var u := Unexpired(front, now);
      if x.expires <= now {
        AllExpired(front, now);
      } else {
        assert s[|s| - (|u| + 1)..] == front[|front| - |u|..] + [x];
      }
    }
  }

  lemma UnexpiredLastN(s: seq<Item>, n: nat, now: real)
    requires Sorted(s)
    ensures Unexpired(LastN(s, n), now) == LastN(Unexpired(s, now), n)
  {
    UnexpiredIsSuffix(s, now);
    if |s| > n {
      var cut, kept := s[..|s| - n], s[|s| - n..];
      assert s == cut + kept;
      UnexpiredJoin(cut, kept, now);
      assert Sorted(kept);
      UnexpiredIsSuffix(kept, now);
      if Unexpired(cut, now) != [] {
        SuffixReaches(s, cut, kept, now);
      }
      hide Unexpired, Sorted;
      LastOfJoin(Unexpired(cut, now), Unexpired(kept, now), n);
    }
  }

  lemma LastOfJoin(a: seq<Item>, b: seq<Item>, n: nat)
    requires |b| <= n && (a != [] ==> |b| == n)
    ensures LastN(a + b, n) == b
  {
  }

  /** Once some entry of the front is unexpired, all that follow it are. */
  lemma SuffixReaches(s: seq<Item>, cut: seq<Item>, kept: seq<Item>, now: real)
    requires Sorted(s) && s == cut + kept && Unexpired(cut, now) != []
    ensures Unexpired(kept, now) == kept
  {
    UnexpiredMembers(cut, now);
    var x := Unexpired(cut, now)[0];
    assert x in cut;
    var i :| 0 <= i < |cut| && cut[i] == x;
    assert s[i] == x;
    forall j | 0 <= j < |kept| ensures kept[j].expires > now {
      assert kept[j] == s[|cut| + j];
    }
    AllUnexpired(kept, now);
  }

  lemma {:induction false} AllUnexpired(s: seq<Item>, now: real)
    requires forall j :: 0 <= j < |s| ==> s[j].expires > now
    ensures Unexpired(s, now) == s
  {
    if s != [] {
      AllUnexpired(s[..|s| - 1], now);
      assert s == s[..|s| - 1] + [s[|s| - 1]];
    }
  }

  /** Forgetting the oldest before or after a new record of `x.key` comes to the same. */
  lemma RecordLastN(s: seq<Item>, n: nat, x: Item)
    requires Unique(s) && n >= 1
    ensures LastN(Without(LastN(s, n), x.key) + [x], n) == LastN(Without(s, x.key) + [x], n)
  {
    if |s| > n {
      var cut, kept := s[..|s| - n], s[|s| - n..];
      assert s == cut + kept;
      WithoutJoin(cut, kept, x.key);
      WithoutLength(kept, x.key);
      hide Without, Unique, Has;
      LastOfLonger(Without(cut, x.key), Without(kept, x.key), x, n);
    }
  }

  lemma LastOfLonger(a: seq<Item>, b: seq<Item>, x: Item, n: nat)
    requires |b| + 1 >= n >= 1
    ensures LastN(b + [x], n) == LastN((a + b) + [x], n)
  {
    assert (a + b) + [x] == a + (b + [x]);
  }

  lemma {:induction false} LatestIsOrdered(h: seq<Item>)
    requires Sorted(h)
    ensures Sorted(Latest(h)) && Unique(Latest(h))
    ensures forall x :: x in Latest(h) ==> x in h
  {
    if h != [] {
      var front, x := h[..|h| - 1], h[|h| - 1];
      assert forall y :: y in front ==> y.expires <= x.expires && y in h;
      LatestIsOrdered(front);
      AppendIsOrdered(Latest(front), x);
      WithoutMembers(Latest(front), x.key);
    }
  }

  lemma AppendIsOrdered(l: seq<Item>, x: Item)
    requires Sorted(l) && Unique(l) && forall y :: y in l ==> y.expires <= x.expires
    ensures Sorted(Without(l, x.key) + [x]) && Unique(Without(l, x.key) + [x])
  {
    WithoutMembers(l, x.key);
    WithoutSorted(l, x.key);
    UniqueAfter(l, x);
    var w := Without(l, x.key);
    hide Without, Unique;
    forall i | 0 <= i < |w| ensures w[i].expires <= x.expires {
      assert w[i] in w;
    }
  }

  /** What `record` makes of the cache: swept, the key moved to the end, the oldest evicted. */
  function Recorded(s: seq<Item>, x: Item, t: real): seq<Item> {
    LastN(Without(Unexpired(s, t), x.key) + [x], MAX_ENTRIES)
  }

  /** The cache after `record` is the specification of the longer history, swept at `t`. */
  lemma RecordMeetsSpec(h: seq<Item>, s: real, t: real, x: Item)
    requires Sorted(h + [x]) && s <= t < x.expires
    ensures Recorded(Spec(h, s), x, t) == Spec(h + [x], t)
  {
    assert forall i :: 0 <= i < |h| ==> h[i] == (h + [x])[i];
    var l := Latest(h);
    assert (h + [x])[..|h|] == h;
    LatestIsOrdered(h);
    LatestIsOrdered(h + [x]);
    var u := Unexpired(l, t);
    UnexpiredMembers(l, t);
    UnexpiredLater(LastN(l, MAX_ENTRIES), s, t);
    UnexpiredLastN(l, MAX_ENTRIES, t);
    RecordLastN(u, MAX_ENTRIES, x);
    UnexpiredLastN(Latest(h + [x]), MAX_ENTRIES, t);
    UnexpiredJoin(Without(l, x.key), [x], t);
    assert Unexpired([x], t) == [x] by {
      assert [x][..0] == [];
    }
    UnexpiredWithout(l, x.key, t);
  }

  lemma SweepMeetsSpec(h: seq<Item>, s: real, t: real)
    requires s <= t
    ensures Unexpired(Spec(h, s), t) == Spec(h, t)
  {
    UnexpiredLater(LastN(Latest(h), MAX_ENTRIES), s, t);
  }

  lemma SpecIsBounded(h: seq<Item>, t: real)
    requires Sorted(h)
    ensures |Spec(h, t)| <= MAX_ENTRIES && Unique(Spec(h, t))
  {
    LatestIsOrdered(h);
    UnexpiredLastN(Latest(h), MAX_ENTRIES, t);
    var l := LastN(Latest(h), MAX_ENTRIES);
    assert Unique(l);
    UnexpiredMembers(l, t);
  }

  // ---- reading the history directly ------------------------------------------

  function KeysOf(h: seq<Item>): set<Key> {
    if h == [] then {} else KeysOf(h[..|h| - 1]) + {h[|h| - 1].key}
  }

  lemma KeysSnoc(h: seq<Item>, x: Item)
    ensures KeysOf(h + [x]) == KeysOf(h) + {x.key}
  {
    assert (h + [x])[..|h|] == h;
  }

  lemma LatestSnoc(h: seq<Item>, x: Item)
    ensures Latest(h + [x]) == Without(Latest(h), x.key) + [x]
  {
    assert (h + [x])[..|h|] == h;
  }

  lemma WithoutOne(x: Item, k: Key)
    ensures Without([x], k) == if x.key == k then [] else [x]
  {
    assert [x][..0] == [];
  }

  /** `h[i]` is the last record of its key. */
  predicate IsLast(h: seq<Item>, i: int) {
    0 <= i < |h| && h[i].key !in KeysOf(h[i + 1..])
  }

  /** The hit the history promises: the key's last record, unexpired, with fewer than 500 other
      keys recorded after it. */
  predicate Promised(h: seq<Item>, i: int, now: real) {
    IsLast(h, i) && |KeysOf(h[i + 1..])| < 500 && h[i].expires > now
  }

  lemma JoinAssoc(a: seq<Item>, b: seq<Item>, c: seq<Item>)
    ensures (a + b) + c == a + (b + c)
  {
  }

  lemma WithoutAround(q: seq<Item>, x: Item, l: seq<Item>, k: Key)
    requires x.key != k
    ensures Without(q + [x] + l, k) == Without(q, k) + [x] + Without(l, k)
  {
    WithoutOne(x, k);
    hide Without;
    WithoutJoin(q + [x], l, k);
    WithoutJoin(q, [x], k);
  }

  /** After a key's last record, the latest records are those of the keys recorded since. */
  lemma {:induction false} LatestSplits(a: seq<Item>, x: Item, b: seq<Item>) returns (p: seq<Item>)
    requires x.key !in KeysOf(b)
    ensures Latest(a + [x] + b) == p + [x] + Latest(b)
    decreases |b|
  {
    if b == [] {
      assert a + [x] + b == a + [x];
      LatestSnoc(a, x);
      p := Without(Latest(a), x.key);
    } else {
      var c, y := b[..|b| - 1], b[|b| - 1];
      assert b == c + [y];
      KeysSnoc(c, y);
      hide Latest, Without, KeysOf;
      var q := LatestSplits(a, x, c);
      p := SplitsSnoc(a, x, c, y, q);
    }
  }

  lemma SplitsSnoc(a: seq<Item>, x: Item, c: seq<Item>, y: Item, q: seq<Item>) returns (p: seq<Item>)
    requires x.key != y.key && Latest(a + [x] + c) == q + [x] + Latest(c)
    ensures Latest(a + [x] + (c + [y])) == p + [x] + Latest(c + [y])
  {
    hide Latest, Without;
    p := Without(q, y.key);
    JoinAssoc(a + [x], c, [y]);
    LatestSnoc(a + [x] + c, y);
    LatestSnoc(c, y);
    WithoutAround(q, x, Latest(c), y.key);
    JoinAssoc(p + [x], Without(Latest(c), y.key), [y]);
  }

  lemma {:induction false} LatestCountsKeys(h: seq<Item>)
    ensures |Latest(h)| == |KeysOf(h)| && Unique(Latest(h))
    ensures forall k :: Has(Latest(h), k) <==> k in KeysOf(h)
  {
    if h != [] {
      var front, x := h[..|h| - 1], h[|h| - 1];
      LatestCountsKeys(front);
      var l := Latest(front);
      WithoutLength(l, x.key);
      UniqueAfter(l, x);
      assert x.key in KeysOf(front) ==> KeysOf(h) == KeysOf(front);
      forall k ensures Has(Latest(h), k) <==> k in KeysOf(h) {
        HasWithout(l, x, k);
      }
    }
  }

  lemma UniqueAfter(l: seq<Item>, x: Item)
    requires Unique(l)
    ensures Unique(Without(l, x.key) + [x])
  {
    WithoutUnique(l, x.key);
    WithoutMembers(l, x.key);
    var w := Without(l, x.key);
    hide Without;
    forall i | 0 <= i < |w| ensures w[i].key != x.key {
      assert w[i] in w;
    }
  }

  lemma HasIsMember(s: seq<Item>, k: Key)
    ensures Has(s, k) <==> exists y :: y in s && y.key == k
  {
    if Has(s, k) {
      var i :| 0 <= i < |s| && s[i].key == k;
      assert s[i] in s;
    }
  }

  lemma HasWithout(l: seq<Item>, x: Item, k: Key)
    ensures Has(Without(l, x.key) + [x], k) <==> Has(l, k) || k == x.key
  {
    WithoutMembers(l, x.key);
    HasIsMember(l, k);
    HasIsMember(Without(l, x.key) + [x], k);
    var w := Without(l, x.key);
    assert forall y :: y in w + [x] <==> y in w || y == x;
  }

  /** An item is in the specification exactly when the history promises it. */
  lemma SpecHoldsWhatIsPromised(h: seq<Item>, i: int, now: real)
    requires Sorted(h) && IsLast(h, i)
    ensures h[i] in Spec(h, now) <==> Promised(h, i, now)
  {
    var a, x, b := h[..i], h[i], h[i + 1..];
    assert h == a + [x] + b;
    hide Latest, Unexpired, KeysOf, LastN, Sorted, Unique;
    var p := LatestSplits(a, x, b);
    LatestCountsKeys(b);
    LatestCountsKeys(h);
    UnexpiredMembers(LastN(Latest(h), MAX_ENTRIES), now);
    UniqueInLast(p, x, Latest(b), MAX_ENTRIES);
  }

  lemma UniqueInLast(p: seq<Item>, x: Item, b: seq<Item>, n: nat)
    requires Unique(p + [x] + b)
    ensures x in LastN(p + [x] + b, n) <==> |b| < n
  {
    var l := p + [x] + b;
    var kept := LastN(l, n);
    assert l[|p|] == x;
    if |b| < n {
      assert kept[|p| - (|l| - |kept|)] == x;
    } else {
      forall j | 0 <= j < |kept| ensures kept[j] != x {
        assert kept[j] == l[j + (|l| - |kept|)];
      }
    }
  }

  predicate Absent(s: seq<Item>, k: Key) {
    forall i :: 0 <= i < |s| ==> s[i].key != k
  }

  lemma AbsentWithin(s: seq<Item>, t: seq<Item>, k: Key)
    requires (forall x :: x in s ==> x in t) && Absent(t, k)
    ensures Absent(s, k)
  {
    forall i | 0 <= i < |s| ensures s[i].key != k {
      assert s[i] in t;
    }
  }

  lemma DeleteBetween(u: seq<Item>, x: Item, rest: seq<Item>)
    requires Absent(u, x.key) && Absent(rest, x.key)
    ensures Without(u + ([x] + rest), x.key) == u + rest
  {
    WithoutAbsent(u, x.key);
    WithoutAbsent(rest, x.key);
    WithoutOne(x, x.key);
    WithoutJoin(u, [x] + rest, x.key);
    WithoutJoin([x], rest, x.key);
  }

  lemma UnexpiredSnoc(s: seq<Item>, x: Item, now: real)
    ensures Unexpired(s + [x], now) == Unexpired(s, now) + (if x.expires <= now then [] else [x])
  {
    assert (s + [x])[..|s|] == s;
  }

  /** Keys are distinct, so deleting entry `i` leaves the others. */
  lemma SweepStep(all: seq<Item>, i: nat, now: real)
    requires Unique(all) && i < |all|
    ensures Unexpired(all[..i + 1], now) ==
      Unexpired(all[..i], now) + (if all[i].expires <= now then [] else [all[i]])
    ensures all[i..] == [all[i]] + all[i + 1..]
    ensures Without(Unexpired(all[..i], now) + all[i..], all[i].key) == Unexpired(all[..i], now) + all[i + 1..]
  {
    assert Absent(all[..i], all[i].key) && Absent(all[i + 1..], all[i].key);
    hide Unique, Without, Unexpired, Absent;
    var front, x, rest := all[..i], all[i], all[i + 1..];
    assert all[..i + 1] == front + [x];
    UnexpiredSnoc(front, x, now);
    UnexpiredMembers(front, now);
    AbsentWithin(Unexpired(front, now), front, x.key);
    DeleteBetween(Unexpired(front, now), x, rest);
  }

  lemma StillLast(h: seq<Item>, i: int, y: Item)
    requires IsLast(h, i) && h[i].key != y.key
    ensures IsLast(h + [y], i) && (h + [y])[i] == h[i]
  {
    assert (h + [y])[i + 1..] == h[i + 1..] + [y];
    KeysSnoc(h[i + 1..], y);
  }

  // ---- the cache -----------------------------------------------------------

  predicate Within(h: seq<Item>, bound: real) {
    forall i :: 0 <= i < |h| ==> h[i].expires <= bound
  }

  lemma SortedSnoc(h: seq<Item>, x: Item, bound: real)
    requires Sorted(h) && Within(h, bound) && bound <= x.expires
    ensures Sorted(h + [x]) && Within(h + [x], x.expires)
  {
  }

  /** The dictionary's lookup. */
  method Find(items: seq<Item>, k: Key) returns (r: Option<string>)
    ensures r.None? ==> Absent(items, k)
    ensures r.Some? ==> exists j :: 0 <= j < |items| && items[j].key == k && r == Some(items[j].words)
  {
    r := None;
    for i := 0 to |items|
      invariant r.None? ==> forall j :: 0 <= j < i ==> items[j].key != k
      invariant r.Some? ==> exists j :: 0 <= j < i && items[j].key == k && r == Some(items[j].words)
    {
      if items[i].key == k {
        r := Some(items[i].words);
      }
    }
  }

  class OperatorWords {
    /** An ordered dictionary: keys are distinct, oldest record first. */
    var items: seq<Item>

    ghost var history: seq<Item>
    ghost var sweptAt: real
    ghost var clock: real

    /** The cache is the specification of the history at the last sweep. */
    ghost predicate Valid()
      reads this
    {
      && Sorted(history)
      && items == Spec(history, sweptAt)
      && sweptAt <= clock
      && Within(history, clock + KEEP_SECONDS)
    }

    constructor ()
      ensures Valid() && history == [] && clock == 0.0
    {
      items, history, sweptAt, clock := [], [], 0.0, 0.0;
    }

    /** `del items[key]` for each expired entry of a snapshot. */
    method Sweep(now: real)
      requires Unique(items)
      modifies this`items
      ensures items == Unexpired(old(items), now)
    {
      hide Without, Unique;
      var all := items;
      for i := 0 to |all|
        invariant items == Unexpired(all[..i], now) + all[i..]
      {
        SweepStep(all, i, now);
        if all[i].expires <= now {
          items := Without(items, all[i].key);
        }
      }
      assert all[..|all|] == all && all[|all|..] == [];
    }

    /** The oldest go first. */
    method Evict()
      modifies this`items
      ensures items == LastN(old(items), MAX_ENTRIES)
    {
      ghost var full := items;
      while |items| > MAX_ENTRIES
        invariant |items| >= MAX_ENTRIES || items == full
        invariant |items| <= |full| && items == full[|full| - |items|..]
      {
        items := items[1..];
      }
    }

    method Remember(x: Item, t: real)
      requires Unique(items)
      modifies this`items
      ensures items == Recorded(old(items), x, t)
    {
      hide Without, Unexpired, LastN, Unique;
      Sweep(t);
      items := Without(items, x.key);
      items := items + [x];
      Evict();
    }

    /** Sweep, move the key to the end with its new words, evict. */
    method Put(x: Item, t1: real, t2: real)
      requires Valid() && clock <= t1 <= t2 && x.expires == t2 + KEEP_SECONDS
      modifies this
      ensures Valid() && history == old(history) + [x] && sweptAt == t1 && clock == t2
    {
      SortedSnoc(history, x, clock + KEEP_SECONDS);
      hide Recorded, Spec, Sorted, Within;
      SpecIsBounded(history, sweptAt);
      RecordMeetsSpec(history, sweptAt, t1, x);
      Remember(x, t1);
      history := history + [x];
      sweptAt, clock := t1, t2;
    }

    /** Words that are not text, or without a digest, are ignored.  The clock is read twice:
        for the sweep and for the expiry. */
    method Record(plugin: string, operator: int, digest: Option<string>, words: Option<string>, t1: real, t2: real)
      requires Valid() && clock <= t1 <= t2
      modifies this
      ensures Valid()
      ensures var accepted := words.Some? && digest.Some? && digest.value != "";
        && (!accepted ==> history == old(history))
        && (accepted ==>
              var kept := if |words.value| <= 4000 then words.value else words.value[..4000];
              history == old(history) + [Item(Key(plugin, operator, digest.value), kept, t2 + 24.0 * 3600.0)])
        && (accepted ==> sweptAt == t1 && clock == t2)
    {
      if words.None? || digest.None? || digest.value == "" {
        return;
      }
      var x := Item(Key(plugin, operator, digest.value), Cut(words.value), t2 + KEEP_SECONDS);
      Put(x, t1, t2);
    }

    /** A hit is exactly what the history promises at the time of the call. */
    method Get(plugin: string, operator: int, digest: Option<string>, t: real) returns (r: Option<string>)
      requires Valid() && clock <= t
      modifies this
      ensures Valid() && history == old(history)
      ensures digest.None? || digest.value == "" ==> r == None
      ensures digest.Some? && digest.value != "" ==>
        var k := Key(plugin, operator, digest.value);
        && (r.Some? <==> exists i :: Promised(history, i, t) && history[i].key == k)
        && (forall i :: Promised(history, i, t) && history[i].key == k ==> r == Some(history[i].words))
    {
      if digest.None? || digest.value == "" {
        return None;
      }
      var k := Key(plugin, operator, digest.value);
      hide Unexpired, Spec, Unique, Sorted, Promised;
      SpecIsBounded(history, sweptAt);
      Sweep(t);
      SweepMeetsSpec(history, sweptAt, t);
      sweptAt, clock := t, t;
      r := Find(items, k);
      HitsAreThePromised(history, items, t, k, r);
    }
  }

  lemma HitsAreThePromised(h: seq<Item>, items: seq<Item>, t: real, k: Key, r: Option<string>)
    requires Sorted(h) && items == Spec(h, t)
    requires r.None? ==> Absent(items, k)
    requires r.Some? ==> exists j :: 0 <= j < |items| && items[j].key == k && r == Some(items[j].words)
    ensures r.Some? <==> exists i :: Promised(h, i, t) && h[i].key == k
    ensures forall i :: Promised(h, i, t) && h[i].key == k ==> r == Some(h[i].words)
  {
    SpecIsBounded(h, t);
    forall i | Promised(h, i, t) && h[i].key == k ensures r == Some(h[i].words) {
      SpecHoldsWhatIsPromised(h, i, t);
      assert h[i] in items;
    }
    if r.Some? {
      var j :| 0 <= j < |items| && items[j].key == k;
      LatestIsOrdered(h);
      UnexpiredMembers(LastN(Latest(h), MAX_ENTRIES), t);
      assert items[j] in items;
      assert items[j] in Latest(h);
      LatestRecordIsLast(h, items[j]);
      var i :| IsLast(h, i) && h[i] == items[j];
      SpecHoldsWhatIsPromised(h, i, t);
    }
  }

  lemma EarlierRecordIsLast(front: seq<Item>, x: Item, y: Item)
    requires x.key != y.key && exists i :: IsLast(front, i) && front[i] == x
    ensures exists i :: IsLast(front + [y], i) && (front + [y])[i] == x
  {
    var i :| IsLast(front, i) && front[i] == x;
    StillLast(front, i, y);
  }

  lemma NewestIsLast(front: seq<Item>, y: Item)
    ensures exists i :: IsLast(front + [y], i) && (front + [y])[i] == y
  {
    var h := front + [y];
    assert KeysOf(h[|front| + 1..]) == {};
    assert IsLast(h, |front|);
  }

  lemma {:induction false} LatestRecordIsLast(h: seq<Item>, x: Item)
    requires x in Latest(h)
    ensures exists i :: IsLast(h, i) && h[i] == x
    decreases |h|
  {
    if h != [] {
      var front, y := h[..|h| - 1], h[|h| - 1];
      assert h == front + [y];
      WithoutMembers(Latest(front), y.key);
      assert x == y || x in Without(Latest(front), y.key);
      hide *;
      if x == y {
        NewestIsLast(front, y);
      } else {
        LatestRecordIsLast(front, x);
        EarlierRecordIsLast(front, x, y);
      }
    }
  }
}
