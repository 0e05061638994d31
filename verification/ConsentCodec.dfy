/**
 * The store's assumption on its file format can be met: a format that reads back every map of
 * consents, written out.
 */
module ConsentCodec {
  import opened Prelude
  import opened ConsentStore

  // ---- a prefix-free way to write each part ------------------------------------

  function WriteStr(s: string): string {
    if s == "" then "0" else "1" + [s[0]] + WriteStr(s[1..])
  }

  function WriteNat(n: nat): string {
    if n == 0 then "0" else "1" + WriteNat(n - 1)
  }

  function WriteInt(n: int): string {
    [if n < 0 then '-' else '+'] + WriteNat(if n < 0 then -n else n)
  }

  function Tag(v: Val): char {
    match v
    case Str(_) => 's'
    case Int(_) => 'i'
    case Float(x) => if x.None? then 'n' else 'f'
    case Bool(b) => if b then 't' else 'u'
    case Other => 'o'
  }

  function Body(v: Val): string {
    match v
    case Str(s) => WriteStr(s)
    case Int(n) => WriteInt(n)
    case Float(x) => if x.None? then "" else WriteInt(x.value.0) + WriteInt(x.value.1)
    case Bool(_) => ""
    case Other => ""
  }

  function WriteVal(v: Val): string { [Tag(v)] + Body(v) }

  function WriteAck(a: Ack): string {
    WriteStr(a.plugin) + (WriteStr(a.effective) + (WriteStr(a.digest) + (WriteStr(a.gen) + WriteVal(a.ts))))
  }

  lemma {:induction false} StrReads(a: string, x: string, b: string, y: string)
    requires WriteStr(a) + x == WriteStr(b) + y
    ensures a == b && x == y
    decreases |a|
  {
    var s, t := WriteStr(a) + x, WriteStr(b) + y;
    assert s[0] == (if a == "" then '0' else '1') && t[0] == (if b == "" then '0' else '1');
    if a == "" {
      assert s[1..] == x && t[1..] == y;
    } else {
      assert s[1] == a[0] && t[1] == b[0];
      assert s[2..] == WriteStr(a[1..]) + x && t[2..] == WriteStr(b[1..]) + y;
      StrReads(a[1..], x, b[1..], y);
      assert a == [a[0]] + a[1..] && b == [b[0]] + b[1..];
    }
  }

  lemma {:induction false} NatReads(a: nat, x: string, b: nat, y: string)
    requires WriteNat(a) + x == WriteNat(b) + y
    ensures a == b && x == y
    decreases a
  {
    var s, t := WriteNat(a) + x, WriteNat(b) + y;
    assert s[0] == (if a == 0 then '0' else '1') && t[0] == (if b == 0 then '0' else '1');
    if a == 0 {
      assert s[1..] == x && t[1..] == y;
    } else {
      assert s[1..] == WriteNat(a - 1) + x && t[1..] == WriteNat(b - 1) + y;
      NatReads(a - 1, x, b - 1, y);
    }
  }

  lemma TagReads(c: char, u: string, x: string, d: char, w: string, y: string)
    requires [c] + u + x == [d] + w + y
    ensures c == d && u + x == w + y
  {
    var s, t := [c] + u + x, [d] + w + y;
    assert s[0] == c && t[0] == d;
    assert s[1..] == u + x && t[1..] == w + y;
  }

  lemma IntReads(a: int, x: string, b: int, y: string)
    requires WriteInt(a) + x == WriteInt(b) + y
    ensures a == b && x == y
  {
    hide WriteNat;
    var m, n := if a < 0 then -a else a, if b < 0 then -b else b;
    TagReads(if a < 0 then '-' else '+', WriteNat(m), x, if b < 0 then '-' else '+', WriteNat(n), y);
    NatReads(m, x, n, y);
  }

  lemma BodyReads(v: Val, x: string, w: Val, y: string)
    requires Tag(v) == Tag(w) && Body(v) + x == Body(w) + y
    ensures v == w && x == y
  {
    hide WriteStr, WriteInt;
    match v {
      case Str(a) => StrReads(a, x, w.s, y);
      case Int(a) => IntReads(a, x, w.n, y);
      case Float(a) =>
        if a.Some? {
          PairReads(a.value, x, w.x.value, y);
        } else {
          assert "" + x == x && "" + y == y;
        }
      case Bool(_) => assert "" + x == x && "" + y == y;
      case Other => assert "" + x == x && "" + y == y;
    }
  }

  lemma PairReads(a: (int, int), x: string, b: (int, int), y: string)
    requires WriteInt(a.0) + WriteInt(a.1) + x == WriteInt(b.0) + WriteInt(b.1) + y
    ensures a == b && x == y
  {
    hide WriteInt;
    Regroup(WriteInt(a.0), WriteInt(a.1), x);
    Regroup(WriteInt(b.0), WriteInt(b.1), y);
    IntReads(a.0, WriteInt(a.1) + x, b.0, WriteInt(b.1) + y);
    IntReads(a.1, x, b.1, y);
  }

  lemma ValReads(v: Val, x: string, w: Val, y: string)
    requires WriteVal(v) + x == WriteVal(w) + y
    ensures v == w && x == y
  {
    hide Tag, Body;
    TagReads(Tag(v), Body(v), x, Tag(w), Body(w), y);
    BodyReads(v, x, w, y);
  }

  lemma Regroup(a: string, b: string, x: string)
    ensures (a + b) + x == a + (b + x)
  {
  }

  lemma AckReads(a: Ack, x: string, b: Ack, y: string)
    requires WriteAck(a) + x == WriteAck(b) + y
    ensures a == b && x == y
  {
    hide WriteStr, WriteVal;
    var a3, b3 := WriteStr(a.gen) + WriteVal(a.ts), WriteStr(b.gen) + WriteVal(b.ts);
    var a2, b2 := WriteStr(a.digest) + a3, WriteStr(b.digest) + b3;
    var a1, b1 := WriteStr(a.effective) + a2, WriteStr(b.effective) + b2;
    Regroup(WriteStr(a.plugin), a1, x);
    Regroup(WriteStr(b.plugin), b1, y);
    StrReads(a.plugin, a1 + x, b.plugin, b1 + y);
    Regroup(WriteStr(a.effective), a2, x);
    Regroup(WriteStr(b.effective), b2, y);
    StrReads(a.effective, a2 + x, b.effective, b2 + y);
    Regroup(WriteStr(a.digest), a3, x);
    Regroup(WriteStr(b.digest), b3, y);
    StrReads(a.digest, a3 + x, b.digest, b3 + y);
    Regroup(WriteStr(a.gen), WriteVal(a.ts), x);
    Regroup(WriteStr(b.gen), WriteVal(b.ts), y);
    StrReads(a.gen, WriteVal(a.ts) + x, b.gen, WriteVal(b.ts) + y);
    ValReads(a.ts, x, b.ts, y);
  }

  // ---- a map, entry by entry -----------------------------------------------------

  ghost function WriteAcks(m: Acks): string {
    if m == map[] then "0"
    else
      var k :| k in m;
      "1" + (WriteStr(k) + (WriteAck(m[k]) + WriteAcks(m - {k})))
  }

  lemma FirstEntry(m: Acks) returns (k: string)
    requires m != map[]
    ensures k in m && WriteAcks(m) == "1" + (WriteStr(k) + (WriteAck(m[k]) + WriteAcks(m - {k})))
  {
    k :| k in m && WriteAcks(m) == "1" + (WriteStr(k) + (WriteAck(m[k]) + WriteAcks(m - {k})));
  }

  lemma OneReads(x: string, y: string)
    requires "1" + x == "1" + y
    ensures x == y
  {
    assert ("1" + x)[1..] == x && ("1" + y)[1..] == y;
  }

  lemma {:induction false} AcksRead(m: Acks, n: Acks)
    requires WriteAcks(m) == WriteAcks(n)
    ensures m == n
    decreases |m|
  {
    if m != map[] && n != map[] {
      hide WriteStr, WriteAck;
      var i := FirstEntry(m);
      var j := FirstEntry(n);
      var x, y := WriteAcks(m - {i}), WriteAcks(n - {j});
      EntryReads(i, m[i], x, j, n[j], y);
      hide WriteAcks;
      AcksRead(m - {i}, n - {j});
      SameEntry(m, n, i);
    }
  }

  lemma EntryReads(i: string, a: Ack, x: string, j: string, b: Ack, y: string)
    requires "1" + (WriteStr(i) + (WriteAck(a) + x)) == "1" + (WriteStr(j) + (WriteAck(b) + y))
    ensures i == j && a == b && x == y
  {
    hide WriteStr, WriteAck;
    OneReads(WriteStr(i) + (WriteAck(a) + x), WriteStr(j) + (WriteAck(b) + y));
    StrReads(i, WriteAck(a) + x, j, WriteAck(b) + y);
    AckReads(a, x, b, y);
  }

  lemma SameEntry(m: Acks, n: Acks, k: string)
    requires k in m && k in n && m[k] == n[k] && m - {k} == n - {k}
    ensures m == n
  {
    assert m == (m - {k})[k := m[k]] && n == (n - {k})[k := n[k]];
  }

  // ---- the codec -------------------------------------------------------------------

  ghost predicate IsDump(j: Json) { exists m: Acks :: j == DocumentOf(m) }

  ghost function Dumps(j: Json): string {
    if IsDump(j) then var m: Acks :| j == DocumentOf(m); WriteAcks(m) else ""
  }

  ghost predicate IsFile(s: string) { exists m: Acks :: s == WriteAcks(m) }

  ghost function Loads(s: string): Option<Json> {
    if IsFile(s) then var m: Acks :| s == WriteAcks(m); Some(DocumentOf(m)) else None
  }

  ghost function Written(identity: (string, string, string) -> string): Codec {
    Codec(j => Dumps(j), s => Loads(s), identity)
  }

  /** With any identity there is a format the store may assume. */
  lemma FaithfulCodec(identity: (string, string, string) -> string)
    ensures Faithful(Written(identity))
  {
    forall m: Acks ensures Loads(Dumps(DocumentOf(m))) == Some(DocumentOf(m)) {
      var d := DocumentOf(m);
      assert IsDump(d);
      var n: Acks :| d == DocumentOf(n) && Dumps(d) == WriteAcks(n);
      assert IsFile(WriteAcks(n));
      var k: Acks :| WriteAcks(n) == WriteAcks(k) && Loads(WriteAcks(n)) == Some(DocumentOf(k));
      AcksRead(n, k);
    }
  }
}
