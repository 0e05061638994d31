/**
 * The invariant index: rows sorted by id, cut into seven files by the letters of the id's family.
 */
module DocsShards {
  import opened Prelude

  // ---- string order ---------------------------------------------------------

  /** Python's `a <= b` on strings. */
  predicate StrLe(a: string, b: string) {
    a == "" || (b != "" && (a[0] < b[0] || (a[0] == b[0] && StrLe(a[1..], b[1..]))))
  }

  predicate StrLt(a: string, b: string) { a != b && StrLe(a, b) }

  lemma {:induction false} StrRefl(a: string)
    ensures StrLe(a, a)
  {
    if a != "" {
      StrRefl(a[1..]);
    }
  }

  lemma {:induction false} StrTotal(a: string, b: string)
    ensures StrLe(a, b) || StrLe(b, a)
  {
    if a != "" && b != "" {
      StrTotal(a[1..], b[1..]);
    }
  }

  lemma {:induction false} StrAntisym(a: string, b: string)
    requires StrLe(a, b) && StrLe(b, a)
    ensures a == b
  {
    if a != "" && b != "" {
      StrAntisym(a[1..], b[1..]);
      assert a == [a[0]] + a[1..] && b == [b[0]] + b[1..];
    }
  }

  lemma {:induction false} StrTrans(a: string, b: string, c: string)
    requires StrLe(a, b) && StrLe(b, c)
    ensures StrLe(a, c)
  {
    if a != "" && a[0] == b[0] && b[0] == c[0] {
      StrTrans(a[1..], b[1..], c[1..]);
    }
  }

  // ---- rows -------------------------------------------------------------------

  datatype Row = Row(id: string, statement: string, home: string)

  /** Tuples compare by their first difference. */
  predicate RowLe(x: Row, y: Row) {
    if x.id != y.id then StrLe(x.id, y.id)
    else if x.statement != y.statement then StrLe(x.statement, y.statement)
    else StrLe(x.home, y.home)
  }

  lemma RowTotal(x: Row, y: Row)
    ensures RowLe(x, y) || RowLe(y, x)
  {
    StrTotal(x.id, y.id);
    StrTotal(x.statement, y.statement);
    StrTotal(x.home, y.home);
  }

  lemma RowAntisym(x: Row, y: Row)
    requires RowLe(x, y) && RowLe(y, x)
    ensures x == y
  {
    if x.id != y.id {
      StrAntisym(x.id, y.id);
    } else if x.statement != y.statement {
      StrAntisym(x.statement, y.statement);
    } else {
      StrAntisym(x.home, y.home);
    }
  }

  lemma RowTrans(x: Row, y: Row, z: Row)
    requires RowLe(x, y) && RowLe(y, z)
    ensures RowLe(x, z)
  {
    hide StrLe;
    if x.id != y.id && y.id != z.id {
      StrTrans(x.id, y.id, z.id);
      if x.id == z.id {
        StrAntisym(x.id, y.id);
      }
    } else if x.id == y.id == z.id {
      if x.statement != y.statement && y.statement != z.statement {
        StrTrans(x.statement, y.statement, z.statement);
        if x.statement == z.statement {
          StrAntisym(x.statement, y.statement);
        }
      } else if x.statement == y.statement == z.statement {
        StrTrans(x.home, y.home, z.home);
      }
    }
  }

  predicate SortedRows(s: seq<Row>) { forall i, j :: 0 <= i < j < |s| ==> RowLe(s[i], s[j]) }

  function PlaceRow(s: seq<Row>, x: Row): seq<Row> {
    if s == [] || RowLe(s[|s| - 1], x) then s + [x] else PlaceRow(s[..|s| - 1], x) + [s[|s| - 1]]
  }

  /** `sorted(found)`. */
  function SortRows(s: seq<Row>): seq<Row> {
    if s == [] then [] else PlaceRow(SortRows(s[..|s| - 1]), s[|s| - 1])
  }

  lemma {:induction false} PlaceRowKeeps(s: seq<Row>, x: Row)
    ensures multiset(PlaceRow(s, x)) == multiset(s) + multiset{x}
  {
    if s != [] {
      assert s == s[..|s| - 1] + [s[|s| - 1]];
      if !RowLe(s[|s| - 1], x) {
        PlaceRowKeeps(s[..|s| - 1], x);
      }
    }
  }

  lemma {:induction false} PlaceRowSorts(s: seq<Row>, x: Row)
    requires SortedRows(s)
    ensures SortedRows(PlaceRow(s, x))
  {
    if s != [] {
      var front, y := s[..|s| - 1], s[|s| - 1];
      if RowLe(y, x) {
        forall i | 0 <= i < |s| ensures RowLe(s[i], x) {
          if i < |front| {
            RowTrans(s[i], y, x);
          }
        }
      } else {
        PlaceRowSorts(front, x);
        RowTotal(x, y);
        PlaceRowKeeps(front, x);
        hide RowLe;
        BelowAll(front, PlaceRow(front, x), x, y);
      }
    }
  }

  lemma BelowAll(front: seq<Row>, p: seq<Row>, x: Row, y: Row)
    requires multiset(p) == multiset(front) + multiset{x} && RowLe(x, y)
    requires forall i :: 0 <= i < |front| ==> RowLe(front[i], y)
    ensures forall i :: 0 <= i < |p| ==> RowLe(p[i], y)
  {
    hide RowLe;
    forall i | 0 <= i < |p| ensures RowLe(p[i], y) {
      assert p[i] in multiset(p);
      assert p[i] == x || p[i] in front;
    }
  }

  lemma {:induction false} SortRowsSorts(s: seq<Row>)
    ensures SortedRows(SortRows(s)) && multiset(SortRows(s)) == multiset(s)
  {
    if s != [] {
      var front, x := s[..|s| - 1], s[|s| - 1];
      SortRowsSorts(front);
      PlaceRowSorts(SortRows(front), x);
      PlaceRowKeeps(SortRows(front), x);
      assert s == front + [x];
    }
  }

  /** There is one sorted arrangement, so the rows depend on the definitions only as a multiset. */
  lemma {:induction false} SortedIsUnique(s: seq<Row>, t: seq<Row>)
    requires SortedRows(s) && SortedRows(t) && multiset(s) == multiset(t)
    ensures s == t
    decreases |s|
  {
    assert |s| == |multiset(s)| && |t| == |multiset(t)|;
    if s != [] {
      LastIsGreatest(s, t);
      LastIsGreatest(t, s);
      RowAntisym(s[|s| - 1], t[|t| - 1]);
      hide RowLe;
      DropLast(s);
      DropLast(t);
      SortedIsUnique(s[..|s| - 1], t[..|t| - 1]);
    }
  }

  lemma DropLast(s: seq<Row>)
    requires s != []
    ensures s == s[..|s| - 1] + [s[|s| - 1]]
    ensures multiset(s[..|s| - 1]) == multiset(s) - multiset{s[|s| - 1]}
  {
    assert s == s[..|s| - 1] + [s[|s| - 1]];
  }

  lemma LastIsGreatest(s: seq<Row>, t: seq<Row>)
    requires SortedRows(s) && multiset(s) == multiset(t) && t != [] && s != []
    ensures RowLe(t[|t| - 1], s[|s| - 1])
  {
    var y := t[|t| - 1];
    assert y in multiset(t);
    var i :| 0 <= i < |s| && s[i] == y;
    if i == |s| - 1 {
      StrRefl(y.home);
    }
  }

  // ---- families and shards ----------------------------------------------------------

  predicate HasDash(s: string) { exists i :: 0 <= i < |s| && s[i] == '-' }

  function BeforeDash(s: string): string {
    if s == "" || s[0] == '-' then "" else [s[0]] + BeforeDash(s[1..])
  }

  function AfterDash(s: string): string {
    if s == "" then "" else if s[0] == '-' then s[1..] else AfterDash(s[1..])
  }

  /** The second of at least three parts between dashes. */
  function Family(id: string): string {
    if HasDash(id) && HasDash(AfterDash(id)) then BeforeDash(AfterDash(id)) else ""
  }

  const PATHS := [
    "doctrine/invariants.md", "doctrine/invariants-e.md", "doctrine/invariants-f-m.md",
    "doctrine/invariants-n-pk.md", "doctrine/invariants-pl-r.md", "doctrine/invariants-s.md",
    "doctrine/invariants-t-z.md"]

  /** The exclusive upper bounds of all shards but the last. */
  const BOUNDS := ["E", "F", "N", "PL", "S", "T"]

  function FirstBelow(family: string, bounds: seq<string>): (k: nat)
    ensures k <= |bounds|
  {
    if bounds == [] || StrLt(family, bounds[0]) then 0 else 1 + FirstBelow(family, bounds[1..])
  }

  function ShardOf(family: string): (k: nat)
    ensures k < |PATHS|
  {
    FirstBelow(family, BOUNDS)
  }

  function RowShard(r: Row): nat { ShardOf(Family(r.id)) }

  predicate Letters(s: string) { s != "" && forall i :: 0 <= i < |s| ==> 'A' <= s[i] <= 'Z' }

  /** The shape of what the definition pattern matches; the number may be in the digits of any script,
      and nothing here depends on it. */
  predicate IsId(id: string, family: string, number: string) {
    Letters(family) && number != "" && id == "INV-" + family + "-" + number
  }

  lemma {:induction false} DashCuts(a: string, b: string)
    requires forall i :: 0 <= i < |a| ==> a[i] != '-'
    ensures HasDash(a + "-" + b) && BeforeDash(a + "-" + b) == a && AfterDash(a + "-" + b) == b
    decreases |a|
  {
    var s := a + "-" + b;
    assert s[|a|] == '-';
    if a != "" {
      assert s[1..] == a[1..] + "-" + b;
      DashCuts(a[1..], b);
      assert a == [a[0]] + a[1..];
    }
  }

  lemma FamilyOfId(id: string, family: string, number: string)
    requires IsId(id, family, number)
    ensures Family(id) == family
  {
    var rest := family + "-" + number;
    assert id == "INV" + "-" + rest;
    DashCuts("INV", rest);
    DashCuts(family, number);
  }

  /** `-` sorts below every letter, so ids in order have their families in order. */
  lemma {:induction false} FamiliesFollow(f: string, m: string, g: string, n: string)
    requires forall i :: 0 <= i < |f| ==> f[i] > '-'
    requires StrLe(f + "-" + m, g + "-" + n)
    ensures StrLe(f, g)
    decreases |f|
  {
    if f != "" {
      var a, b := f + "-" + m, g + "-" + n;
      assert a[0] == f[0] && b[0] == if g == "" then '-' else g[0];
      if g != "" {
        assert a[1..] == f[1..] + "-" + m && b[1..] == g[1..] + "-" + n;
        if f[0] == g[0] {
          FamiliesFollow(f[1..], m, g[1..], n);
        }
      }
    }
  }

  lemma {:induction false} PrefixOrder(p: string, a: string, b: string)
    ensures StrLe(p + a, p + b) <==> StrLe(a, b)
    decreases |p|
  {
    if p == "" {
      assert p + a == a && p + b == b;
    } else {
      assert (p + a)[1..] == p[1..] + a && (p + b)[1..] == p[1..] + b;
      PrefixOrder(p[1..], a, b);
    }
  }

  lemma FamilyOrder(i: string, f: string, m: string, j: string, g: string, n: string)
    requires IsId(i, f, m) && IsId(j, g, n) && StrLe(i, j)
    ensures StrLe(f, g)
  {
    assert i == "INV-" + (f + "-" + m) && j == "INV-" + (g + "-" + n);
    PrefixOrder("INV-", f + "-" + m, g + "-" + n);
    FamiliesFollow(f, m, g, n);
  }

  /** Each shard's families are consecutive. */
  lemma {:induction false} ShardsInOrder(f: string, g: string, bounds: seq<string>)
    requires StrLe(f, g)
    ensures FirstBelow(f, bounds) <= FirstBelow(g, bounds)
    decreases |bounds|
  {
    if bounds != [] {
      ShardsInOrder(f, g, bounds[1..]);
      if StrLt(g, bounds[0]) {
        StrTrans(f, g, bounds[0]);
        if f == bounds[0] {
          StrAntisym(f, g);
        }
      }
    }
  }

  // ---- the shards together are the index ---------------------------------------------

  function Shard(rows: seq<Row>, k: nat): seq<Row> {
    if rows == [] then []
    else Shard(rows[..|rows| - 1], k) + if RowShard(rows[|rows| - 1]) == k then [rows[|rows| - 1]] else []
  }

  /** Shards `0 .. k` one after the other. */
  function Shards(rows: seq<Row>, k: nat): seq<Row> {
    if k == 0 then [] else Shards(rows, k - 1) + Shard(rows, k - 1)
  }

  predicate InShardOrder(rows: seq<Row>) {
    forall i, j :: 0 <= i < j < |rows| ==> RowShard(rows[i]) <= RowShard(rows[j])
  }

  lemma {:induction false} NotInShard(rows: seq<Row>, k: nat)
    requires forall i :: 0 <= i < |rows| ==> RowShard(rows[i]) < k
    ensures Shard(rows, k) == []
  {
    hide RowShard;
    if rows != [] {
      NotInShard(rows[..|rows| - 1], k);
    }
  }

  /** One more row of the last shard so far, or none of the first `k`. */
  lemma {:induction false} ShardsSnoc(rows: seq<Row>, x: Row, k: nat)
    requires InShardOrder(rows + [x])
    ensures Shards(rows + [x], k) == if RowShard(x) < k then Shards(rows, k) + [x] else Shards(rows, k)
    decreases k
  {
    hide RowShard, Shard, InShardOrder;
    if k > 0 {
      var more := rows + [x];
      assert Shards(more, k) == Shards(more, k - 1) + Shard(more, k - 1);
      assert Shards(rows, k) == Shards(rows, k - 1) + Shard(rows, k - 1);
      ShardSnoc(rows, x, k - 1);
      ShardsSnoc(rows, x, k - 1);
      hide Shards;
      JoinSnoc(Shards(rows, k - 1), Shard(rows, k - 1), Shards(more, k - 1), Shard(more, k - 1), x, RowShard(x), k - 1);
    }
  }

  lemma JoinSnoc(a: seq<Row>, b: seq<Row>, a': seq<Row>, b': seq<Row>, x: Row, key: nat, k: nat)
    requires a' == if key < k then a + [x] else a
    requires b' == if key == k then b + [x] else b
    requires key < k ==> b == []
    ensures a' + b' == if key < k + 1 then (a + b) + [x] else a + b
  {
  }

  lemma ShardSnoc(rows: seq<Row>, x: Row, k: nat)
    requires InShardOrder(rows + [x])
    ensures RowShard(x) == k ==> Shard(rows + [x], k) == Shard(rows, k) + [x]
    ensures RowShard(x) != k ==> Shard(rows + [x], k) == Shard(rows, k)
    ensures RowShard(x) < k ==> Shard(rows, k) == []
  {
    hide RowShard;
    assert (rows + [x])[..|rows|] == rows;
    if RowShard(x) < k {
      forall i | 0 <= i < |rows| ensures RowShard(rows[i]) < k {
        assert RowShard((rows + [x])[i]) <= RowShard((rows + [x])[|rows|]);
      }
      NotInShard(rows, k);
    }
  }

  lemma {:induction false} ShardsRejoin(rows: seq<Row>)
    requires InShardOrder(rows)
    ensures Shards(rows, |PATHS|) == rows
  {
    if rows == [] {
      NoShards(|PATHS|);
    } else {
      var front, x := rows[..|rows| - 1], rows[|rows| - 1];
      assert rows == front + [x];
      ShardsRejoin(front);
      ShardsSnoc(front, x, |PATHS|);
    }
  }

  lemma {:induction false} NoShards(k: nat)
    ensures Shards([], k) == []
  {
    if k > 0 {
      NoShards(k - 1);
    }
  }

  ghost predicate SomeId(id: string) { exists f, n :: IsId(id, f, n) }

  ghost predicate Ids(rows: seq<Row>) { forall i :: 0 <= i < |rows| ==> SomeId(rows[i].id) }

  /** The seven files in table order hold the whole sorted index, each row once and in its place. */
  lemma ShardsAreTheIndex(found: seq<Row>)
    requires Ids(found)
    ensures Shards(SortRows(found), |PATHS|) == SortRows(found)
    ensures multiset(Shards(SortRows(found), |PATHS|)) == multiset(found)
  {
    var rows := SortRows(found);
    SortRowsSorts(found);
    hide SortRows, Shards, IsId, ShardOf, RowLe;
    forall i, j | 0 <= i < j < |rows| ensures RowShard(rows[i]) <= RowShard(rows[j]) {
      assert rows[i] in multiset(found) && rows[j] in multiset(found);
      assert rows[i] in found && rows[j] in found;
      var f, m :| IsId(rows[i].id, f, m);
      var g, n :| IsId(rows[j].id, g, n);
      RowsInShardOrder(rows[i], rows[j], f, m, g, n);
    }
    ShardsRejoin(rows);
  }

  lemma RowsInShardOrder(x: Row, y: Row, f: string, m: string, g: string, n: string)
    requires RowLe(x, y) && IsId(x.id, f, m) && IsId(y.id, g, n)
    ensures RowShard(x) <= RowShard(y)
  {
    StrRefl(x.id);
    FamilyOrder(x.id, f, m, y.id, g, n);
    FamilyOfId(x.id, f, m);
    FamilyOfId(y.id, g, n);
    hide IsId, StrLe, Family;
    ShardsInOrder(f, g, BOUNDS);
  }
}
