/**
 * What the written index holds: for every line of every document that defines an invariant one row,
 * with its id, its statement and its document, and no other row.
 */
module DocsDefinitions {
  import opened Prelude
  import opened Silence
  import opened DocsSplice
  import opened DocsShards
  import opened DocsIndex
  import opened DocsNav
  import opened DocsFixpoint

  // ---- a line that defines an invariant -------------------------------------

  predicate Trimmed(s: string) { s != "" ==> !IsSpace(s[0]) && !IsSpace(s[|s| - 1]) }

  /** `statement` is what follows the first colon of the line, without the whitespace around it. */
  ghost predicate States(line: string, statement: string) {
    exists a, l, r :: Splits(line, a, l, statement, r)
  }

  predicate Splits(line: string, a: string, l: string, statement: string, r: string) {
    line == a + (":" + (l + (statement + r))) && Without(a, ':') && AllSpace(l) && AllSpace(r) && Trimmed(statement)
  }

  /** The first match of the pattern gives the id, the first colon the statement. */
  ghost predicate Defines(line: string, id: string, statement: string) {
    (exists k :: 0 <= k <= |line| && FirstReads(line, k, id)) && States(line, statement)
  }

  lemma {:induction false} AfterColonIs(a: string, b: string)
    requires Without(a, ':')
    ensures AfterColon(a + (":" + b)) == b
  {
    var s := a + (":" + b);
    if a == "" {
      assert s == ":" + b && s[1..] == b;
    } else {
      assert s[0] == a[0] && s[1..] == a[1..] + (":" + b);
      AfterColonIs(a[1..], b);
    }
  }

  lemma {:induction false} FirstColon(line: string) returns (a: string)
    requires !Without(line, ':')
    ensures Without(a, ':') && line == a + (":" + AfterColon(line))
  {
    if line[0] == ':' {
      a := "";
    } else {
      assert !Without(line[1..], ':') by {
        var i :| 0 <= i < |line| && line[i] == ':';
        assert line[1..][i - 1] == ':';
      }
      a := FirstColon(line[1..]);
      a := [line[0]] + a;
    }
  }

  lemma {:induction false} LStripOff(l: string, s: string)
    requires AllSpace(l) && (s != "" ==> !IsSpace(s[0]))
    ensures LStrip(l + s) == s
  {
    hide IsSpace;
    if l == "" {
      assert l + s == s;
    } else {
      assert (l + s)[0] == l[0] && (l + s)[1..] == l[1..] + s;
      LStripOff(l[1..], s);
    }
  }

  lemma {:induction false} RStripOff(s: string, r: string)
    requires AllSpace(r) && (s != "" ==> !IsSpace(s[|s| - 1]))
    ensures RStrip(s + r) == s
  {
    hide IsSpace;
    if r == "" {
      assert s + r == s;
    } else {
      var t := s + r;
      assert t[|t| - 1] == r[|r| - 1] && t[..|t| - 1] == s + r[..|r| - 1];
      RStripOff(s, r[..|r| - 1]);
    }
  }

  lemma StripIs(l: string, s: string, r: string)
    requires AllSpace(l) && AllSpace(r) && Trimmed(s)
    ensures Strip(l + (s + r)) == s
  {
    if s == "" {
      AllSpaceJoin(l, r);
      assert l + (s + r) == l + r;
      StripEmpty(l + r);
    } else {
      hide LStrip, RStrip;
      LStripOff(l, s + r);
      RStripOff(s, r);
    }
  }

  lemma {:induction false} RStripEnds(s: string) returns (r: string)
    ensures AllSpace(r) && s == RStrip(s) + r && (RStrip(s) != "" ==> !IsSpace(RStrip(s)[|RStrip(s)| - 1]))
  {
    hide IsSpace;
    r := "";
    if s != "" && IsSpace(s[|s| - 1]) {
      r := RStripEnds(s[..|s| - 1]);
      r := r + [s[|s| - 1]];
    }
  }

  lemma StripSplits(t: string) returns (l: string, r: string)
    ensures AllSpace(l) && AllSpace(r) && Trimmed(Strip(t)) && t == l + (Strip(t) + r)
  {
    LStripIsSuffix(t);
    var k :| 0 <= k <= |t| && AllSpace(t[..k]) && LStrip(t) == t[k..];
    l := t[..k];
    r := RStripEnds(LStrip(t));
    hide LStrip, RStrip;
    assert t == l + LStrip(t);
    assert Strip(t) != "" ==> Strip(t)[0] == LStrip(t)[0];
  }

  lemma ReadingHasColon(line: string, k: nat, id: string)
    requires k <= |line| && ReadsAt(line, k, id)
    ensures !Without(line, ':')
  {
    var f, n, gap, rest :| Reads(line[k..], f, n, gap, rest) && id == "INV-" + f + "-" + n;
    var before := OPEN + (f + ("-" + (n + ("**" + gap))));
    ColonAt(line[k..], OPEN, f, n, gap, rest);
    assert line[k..][|before|] == line[k + |before|];
  }

  lemma ColonAt(s: string, o: string, f: string, n: string, gap: string, rest: string)
    requires s == o + (f + ("-" + (n + ("**" + (gap + (":" + rest))))))
    ensures var before := o + (f + ("-" + (n + ("**" + gap)))); |before| < |s| && s[|before|] == ':'
  {
    assert s == o + (f + ("-" + (n + ("**" + gap)))) + (":" + rest);
  }

  /** The tool finds exactly these definitions. */
  lemma DefinitionIffDefines(line: string, id: string, statement: string)
    ensures Definition(line) == Some((id, statement)) <==> Defines(line, id, statement)
  {
    if Definition(line) == Some((id, statement)) {
      var k := SearchFindsReading(line);
      ReadingHasColon(line, k, id);
      var a := FirstColon(line);
      var l, r := StripSplits(AfterColon(line));
      hide Search, AfterColon, Strip, FirstReads, Without, AllSpace, Trimmed;
      assert Splits(line, a, l, statement, r);
    }
    if Defines(line, id, statement) {
      var k :| 0 <= k <= |line| && FirstReads(line, k, id);
      var a, l, r :| Splits(line, a, l, statement, r);
      SearchIsLeftmost(line, k, id);
      hide Search, AfterColon, Strip;
      AfterColonIs(a, l + (statement + r));
      StripIs(l, statement, r);
    }
  }

  /** Line feed, vertical tab, form feed, the three separators, next line, and the two Unicode ones. */
  lemma BreaksAre(c: char)
    ensures IsBreak(c) <==> c as int in {10, 11, 12, 28, 29, 30, 133, 8232, 8233}
  {
  }

  // ---- the lines of a text ------------------------------------------------------

  /** The lines with the breaks put back. */
  function Unsplit(lines: seq<string>, breaks: string): string {
    if lines == [] then ""
    else if breaks == "" then lines[0] + Unsplit(lines[1..], "")
    else lines[0] + [breaks[0]] + Unsplit(lines[1..], breaks[1..])
  }

  predicate Unbroken(s: string) { forall i :: 0 <= i < |s| ==> !IsBreak(s[i]) }

  /** Splitting loses nothing but the breaks: one after each line, or none after a last line that is not
      empty. */
  lemma {:induction false} LinesUnsplit(line: string, t: string) returns (breaks: string)
    requires Unbroken(line)
    ensures var lines := LinesFrom(line, t);
      && Unsplit(lines, breaks) == line + t
      && (forall i :: 0 <= i < |breaks| ==> IsBreak(breaks[i])) && (forall i :: 0 <= i < |lines| ==> Unbroken(lines[i]))
      && (|lines| == |breaks| || (|lines| == |breaks| + 1 && lines[|lines| - 1] != ""))
    decreases |t|
  {
    hide IsBreak;
    breaks := "";
    if t != "" {
      if IsBreak(t[0]) {
        breaks := LinesUnsplit("", t[1..]);
        assert "" + t[1..] == t[1..] && line + t == line + [t[0]] + t[1..];
        var lines := LinesFrom("", t[1..]);
        assert ([line] + lines)[1..] == lines && ([t[0]] + breaks)[1..] == breaks;
        breaks := [t[0]] + breaks;
      } else {
        assert line + [t[0]] + t[1..] == line + t;
        breaks := LinesUnsplit(line + [t[0]], t[1..]);
      }
    } else {
      assert line + t == line;
      assert line != "" ==> [line][1..] == [] && Unsplit([line], "") == line + Unsplit([], "");
    }
  }

  // ---- the rows ---------------------------------------------------------------

  /** How many of the lines define `id` with `statement`. */
  ghost function Definers(lines: seq<string>, id: string, statement: string): nat {
    if lines == [] then 0
    else Definers(lines[..|lines| - 1], id, statement) + if Defines(lines[|lines| - 1], id, statement) then 1 else 0
  }

  ghost function DefinersOf(site: Site, files: Files, r: Row): nat {
    if r.home in site.documents && r.home in files then Definers(Lines(files[r.home]), r.id, r.statement) else 0
  }

  lemma {:induction false} LineRowsCount(lines: seq<string>, doc: string, r: Row)
    ensures multiset(LineRows(lines, doc))[r] == if r.home == doc then Definers(lines, r.id, r.statement) else 0
  {
    if lines != [] {
      var front, line := lines[..|lines| - 1], lines[|lines| - 1];
      LineRowsCount(front, doc, r);
      DefinitionIffDefines(line, r.id, r.statement);
      hide Definition, Defines;
      assert LineRows(lines, doc) == LineRows(front, doc) + RowOf(Definition(line), doc);
      RowOfCount(Definition(line), doc, r);
      hide LineRows, RowOf;
    }
  }

  lemma RowOfCount(d: Option<(string, string)>, doc: string, r: Row)
    ensures multiset(RowOf(d, doc))[r] == if r.home == doc && d == Some((r.id, r.statement)) then 1 else 0
  {
  }

  lemma RowsCount(site: Site, files: Files, r: Row)
    requires Distinct(site.documents)
    ensures multiset(Rows(site, files))[r] == DefinersOf(site, files, r)
  {
    SortRowsSorts(Found(files, site.documents));
    FoundAtHome(files, site.documents, r);
    if r.home in files {
      LineRowsCount(Lines(files[r.home]), r.home, r);
    }
    hide SortRows, Found, LineRows, Lines, Definers;
  }

  // ---- the shards -------------------------------------------------------------

  /** The first letters of the shards' ranges. */
  const FROM := ["", "E", "F", "N", "PL", "S", "T"]

  /** The family of the id lies in the `k`-th range. */
  ghost predicate Belongs(id: string, k: nat)
    requires k < 7
  {
    exists f, n :: IsId(id, f, n) && StrLe(FROM[k], f) && (k < 6 ==> StrLt(f, FROM[k + 1]))
  }

  lemma StrNotLt(a: string, b: string)
    ensures !StrLt(a, b) <==> StrLe(b, a)
  {
    StrTotal(a, b);
    StrRefl(a);
    if StrLe(a, b) && StrLe(b, a) {
      StrAntisym(a, b);
    }
  }

  lemma FirstBelowIs(f: string, k: nat)
    requires k <= 6
    ensures FirstBelow(f, BOUNDS) == k <==>
      (forall j :: 0 <= j < k ==> !StrLt(f, BOUNDS[j])) && (k < 6 ==> StrLt(f, BOUNDS[k]))
  {
    FirstBelowAt(f, BOUNDS, k);
  }

  lemma {:induction false} FirstBelowAt(f: string, bounds: seq<string>, k: nat)
    requires k <= |bounds|
    ensures FirstBelow(f, bounds) == k <==>
      (forall j :: 0 <= j < k ==> !StrLt(f, bounds[j])) && (k < |bounds| ==> StrLt(f, bounds[k]))
  {
    hide StrLt;
    if k > 0 {
      FirstBelowAt(f, bounds[1..], k - 1);
      assert forall j :: 0 <= j < k - 1 ==> bounds[1..][j] == bounds[j + 1];
      assert (forall j :: 0 <= j < k ==> !StrLt(f, bounds[j])) <==>
        !StrLt(f, bounds[0]) && forall j :: 0 <= j < k - 1 ==> !StrLt(f, bounds[1..][j]) by {
        if !StrLt(f, bounds[0]) && forall j :: 0 <= j < k - 1 ==> !StrLt(f, bounds[1..][j]) {
          forall j | 0 <= j < k ensures !StrLt(f, bounds[j]) {
            if j > 0 {
              assert bounds[1..][j - 1] == bounds[j];
            }
          }
        }
      }
    }
  }

  lemma BoundsAscend()
    ensures forall i, j :: 0 <= i < j < |BOUNDS| ==> StrLe(BOUNDS[i], BOUNDS[j])
    ensures forall i :: 0 <= i < |BOUNDS| ==> FROM[i + 1] == BOUNDS[i]
  {
  }

  lemma RangeIs(f: string, k: nat)
    requires k < 7
    ensures ShardOf(f) == k <==> StrLe(FROM[k], f) && (k < 6 ==> StrLt(f, FROM[k + 1]))
  {
    FirstBelowIs(f, k);
    BoundsAscend();
    hide StrLt, StrLe, FirstBelow;
    if k > 0 {
      StrNotLt(f, BOUNDS[k - 1]);
      if StrLe(FROM[k], f) {
        forall j | 0 <= j < k ensures !StrLt(f, BOUNDS[j]) {
          StrNotLt(f, BOUNDS[j]);
          if j < k - 1 {
            StrTrans(BOUNDS[j], BOUNDS[k - 1], f);
          }
        }
      }
    } else {
      NothingIsLeast(f);
    }
  }

  lemma NothingIsLeast(f: string)
    ensures StrLe(FROM[0], f)
  {
  }

  lemma BelongsIs(r: Row, k: nat)
    requires k < 7 && SomeId(r.id)
    ensures RowShard(r) == k <==> Belongs(r.id, k)
  {
    var f, n :| IsId(r.id, f, n);
    FamilyOfId(r.id, f, n);
    RangeIs(f, k);
    hide IsId, StrLe, StrLt, ShardOf;
    forall g, m | IsId(r.id, g, m) ensures g == f {
      FamilyOfId(r.id, g, m);
    }
  }

  lemma {:induction false} ShardCount(rows: seq<Row>, k: nat, r: Row)
    ensures multiset(Shard(rows, k))[r] == if RowShard(r) == k then multiset(rows)[r] else 0
  {
    hide RowShard;
    if rows != [] {
      var front, x := rows[..|rows| - 1], rows[|rows| - 1];
      ShardCount(front, k, r);
      assert rows == front + [x];
      assert Shard(rows, k) == Shard(front, k) + if RowShard(x) == k then [x] else [];
    }
  }

  // ---- what a write leaves in a shard ----------------------------------------------

  ghost predicate InOrder(rows: seq<Row>) {
    forall i, j :: 0 <= i < j < |rows| ==> StrLe(rows[i].id, rows[j].id)
  }

  /** The rows of a shard are the definitions of its range, each as often as it is made, in order. */
  ghost predicate HoldsTheDefinitions(site: Site, files: Files, k: nat, rows: seq<Row>)
    requires k < 7
  {
    && InOrder(rows)
    && forall r: Row :: multiset(rows)[r] == if Belongs(r.id, k) then DefinersOf(site, files, r) else 0
  }

  lemma RowsAreDefined(site: Site, files: Files, r: Row)
    requires Distinct(site.documents) && DefinersOf(site, files, r) > 0
    ensures SomeId(r.id)
  {
    DefinerHasId(Lines(files[r.home]), r);
  }

  lemma {:induction false} DefinerHasId(lines: seq<string>, r: Row)
    requires Definers(lines, r.id, r.statement) > 0
    ensures SomeId(r.id)
  {
    var line := lines[|lines| - 1];
    if Defines(line, r.id, r.statement) {
      DefinitionIffDefines(line, r.id, r.statement);
      IdOfSearch(line, r.id);
    } else {
      hide Defines, SomeId;
      DefinerHasId(lines[..|lines| - 1], r);
    }
  }

  lemma ShardHoldsTheDefinitions(site: Site, files: Files, k: nat)
    requires Distinct(site.documents) && k < 7
    ensures HoldsTheDefinitions(site, files, k, Shard(Rows(site, files), k))
  {
    var rows := Rows(site, files);
    SortRowsSorts(Found(files, site.documents));
    hide SortRows, Found, Shard, RowShard, DefinersOf, Belongs, Distinct, IsId;
    forall r: Row ensures multiset(Shard(rows, k))[r] == if Belongs(r.id, k) then DefinersOf(site, files, r) else 0 {
      ShardCount(rows, k, r);
      RowsCount(site, files, r);
      if DefinersOf(site, files, r) > 0 {
        RowsAreDefined(site, files, r);
        BelongsIs(r, k);
      }
    }
    ShardInOrder(rows, k);
  }

  lemma {:induction false} ShardInOrder(rows: seq<Row>, k: nat)
    requires SortedRows(rows)
    ensures InOrder(Shard(rows, k))
  {
    hide RowShard;
    if rows != [] {
      var front, x := rows[..|rows| - 1], rows[|rows| - 1];
      ShardInOrder(front, k);
      var s := Shard(front, k);
      forall i | 0 <= i < |s| ensures StrLe(s[i].id, x.id) {
        ShardCount(front, k, s[i]);
        assert s[i] in multiset(s) && s[i] in multiset(front);
        var j :| 0 <= j < |front| && front[j] == s[i];
        assert RowLe(rows[j], rows[|rows| - 1]);
        StrRefl(x.id);
      }
      hide StrLe;
    }
  }

  function RowLine(r: Row): string {
    "| `" + r.id + "` | " + r.statement + " | [`" + r.home + "`](../" + r.home + ") |\n"
  }

  lemma RowLineIs(r: Row)
    ensures RowText(r) + "\n" == RowLine(r)
  {
  }

  lemma Prepend(x: string, a: string, b: string, c: string)
    ensures x + (a + b + c) == (x + a) + b + c && "" + b + c == b + c
  {
  }

  /** The table is one line for each row, in their order, and nothing else. */
  lemma {:induction false} TableIsTheRows(rows: seq<Row>, i: nat)
    requires i < |rows|
    ensures TableText([]) == ""
    ensures TableText(rows) == TableText(rows[..i]) + RowLine(rows[i]) + TableText(rows[i + 1..])
  {
    RowLineIs(rows[0]);
    hide RowText, RowLine;
    if i == 0 {
      assert rows[..0] == [];
      Prepend("", "", RowLine(rows[0]), TableText(rows[1..]));
    } else {
      TableIsTheRows(rows[1..], i - 1);
      assert rows[1..][..i - 1] == rows[..i][1..] && rows[1..][i..] == rows[i + 1..];
      assert rows[..i][0] == rows[0];
      Prepend(RowLine(rows[0]), TableText(rows[..i][1..]), RowLine(rows[i]), TableText(rows[i + 1..]));
    }
  }

  /** After a write the file of the `k`-th range is its preamble and the table of exactly the definitions
      that the documents held: no definition is missing, none made up, none under another statement. */
  lemma WrittenShardHoldsTheDefinitions(site: Site, files: Files, k: nat)
    requires Sane(site) && Distinct(site.documents) && Targets(site, files).Some? && k < 7
    ensures var after := Written(site, files);
      && PATHS[k] in after
      && exists rows ::
           HoldsTheDefinitions(site, files, k, rows) && after[PATHS[k]] == site.preamble(PATHS[k]) + TableText(rows)
  {
    WrittenAt(site, files, PATHS[k]);
    ReadmeIsNoShard();
    ShardHoldsTheDefinitions(site, files, k);
    ShardAtPath(Rows(site, files), k);
    hide Written, Targets, Rows, Shard, HoldsTheDefinitions, Splice, First, TableText, ShardAt, Distinct, Free;
    var path := PATHS[k];
    assert path in PATHS && path !in site.documents;
  }
}
