/**
 * Where invariants are defined, and how the index shows them: the definition pattern, the rows of
 * the documents, and the rendered shards, which together tell any two lists of rows apart.
 */
module DocsIndex {
  import opened Prelude
  import opened Silence
  import opened DocsShards
  import InboxNames

  type Files = map<string, string>

  // ---- lines ------------------------------------------------------------------

  /** The characters `splitlines` breaks at, in a text whose line ends have been read as feeds. */
  predicate IsBreak(c: char) {
    var n := c as int;
    0x0a <= n <= 0x0c || 0x1c <= n <= 0x1e || n == 0x85 || n == 0x2028 || n == 0x2029
  }

  /** `splitlines`, `line` being what has been read of the present line. */
  function LinesFrom(line: string, t: string): seq<string>
    decreases |t|
  {
    if t == "" then if line == "" then [] else [line]
    else if IsBreak(t[0]) then [line] + LinesFrom("", t[1..])
    else LinesFrom(line + [t[0]], t[1..])
  }

  function Lines(t: string): seq<string> { LinesFrom("", t) }

  // ---- the definition pattern ---------------------------------------------------

  predicate IsDigit(c: char) { InboxNames.Digit(c).Some? }

  function LetterRun(s: string): (n: nat)
    ensures n <= |s| && forall i :: 0 <= i < n ==> 'A' <= s[i] <= 'Z'
  {
    if s != "" && 'A' <= s[0] <= 'Z' then 1 + LetterRun(s[1..]) else 0
  }

  function DigitRun(s: string): (n: nat)
    ensures n <= |s| && forall i :: 0 <= i < n ==> IsDigit(s[i])
  {
    if s != "" && IsDigit(s[0]) then 1 + DigitRun(s[1..]) else 0
  }

  function SkipSpace(s: string): string {
    if s != "" && IsSpace(s[0]) then SkipSpace(s[1..]) else s
  }

  const OPEN := "**INV-"

  /** The id that the pattern finds at the very start: bold, and followed by a colon. */
  function MatchHere(s: string): Option<string> {
    if !(OPEN <= s) then None
    else
      var t := s[|OPEN|..];
      var n := LetterRun(t);
      if n == 0 || n == |t| || t[n] != '-' then None
      else
        var u := t[n + 1..];
        var m := DigitRun(u);
        if m == 0 || !("**" <= u[m..]) then None
        else
          var rest := SkipSpace(u[m + 2..]);
          if rest != "" && rest[0] == ':' then Some("INV-" + t[..n] + "-" + u[..m]) else None
  }

  /** The leftmost match. */
  function Search(line: string): Option<string> {
    if line == "" then None
    else if MatchHere(line).Some? then MatchHere(line)
    else Search(line[1..])
  }

  function AfterColon(line: string): string {
    if line == "" then "" else if line[0] == ':' then line[1..] else AfterColon(line[1..])
  }

  /** Id and statement of a line that defines an invariant. */
  function Definition(line: string): Option<(string, string)> {
    match Search(line)
    case None => None
    case Some(id) => Some((id, Strip(AfterColon(line))))
  }

  // ---- the rows of the documents --------------------------------------------------

  function RowOf(definition: Option<(string, string)>, doc: string): seq<Row> {
    if definition.None? then [] else [Row(definition.value.0, definition.value.1, doc)]
  }

  function LineRows(lines: seq<string>, doc: string): seq<Row> {
    if lines == [] then []
    else LineRows(lines[..|lines| - 1], doc) + RowOf(Definition(lines[|lines| - 1]), doc)
  }

  function DocRows(text: string, doc: string): seq<Row> { LineRows(Lines(text), doc) }

  function Found(files: Files, docs: seq<string>): seq<Row> {
    if docs == [] then []
    else
      var d := docs[|docs| - 1];
      Found(files, docs[..|docs| - 1]) + if d in files then DocRows(files[d], d) else []
  }

  // ---- the rendered shards ----------------------------------------------------------

  function RowText(r: Row): string {
    "| `" + r.id + "` | " + r.statement + " | [`" + r.home + "`](../" + r.home + ") |"
  }

  function TableText(rows: seq<Row>): string {
    if rows == [] then "" else RowText(rows[0]) + "\n" + TableText(rows[1..])
  }

  /** The rows whose family the shard table assigns to `path`. */
  function ShardAt(rows: seq<Row>, path: string): seq<Row> {
    if rows == [] then []
    else
      var last := rows[|rows| - 1];
      ShardAt(rows[..|rows| - 1], path) + if PATHS[RowShard(last)] == path then [last] else []
  }

  // ---- characters -------------------------------------------------------------------

  predicate Without(s: string, c: char) { forall i :: 0 <= i < |s| ==> s[i] != c }

  lemma {:induction false} FirstSep(c: char, a: string, x: string, b: string, y: string)
    requires Without(a, c) && Without(b, c) && a + [c] + x == b + [c] + y
    ensures a == b && x == y
    decreases |a|
  {
    var s, t := a + [c] + x, b + [c] + y;
    assert s[0] == (if a == "" then c else a[0]) && t[0] == (if b == "" then c else b[0]);
    if a == "" {
      assert s[1..] == x;
      assert b == "" ==> t[1..] == y;
    } else {
      assert b != "";
      assert s[1..] == a[1..] + [c] + x && t[1..] == b[1..] + [c] + y;
      FirstSep(c, a[1..], x, b[1..], y);
      assert a == [a[0]] + a[1..] && b == [b[0]] + b[1..];
    }
  }

  lemma {:induction false} LastSep(c: char, x: string, a: string, y: string, b: string)
    requires Without(a, c) && Without(b, c) && x + [c] + a == y + [c] + b
    ensures a == b && x == y
    decreases |a|
  {
    var s, t := x + [c] + a, y + [c] + b;
    var n := |s| - 1;
    assert s[n] == (if a == "" then c else a[|a| - 1]) && t[n] == (if b == "" then c else b[|b| - 1]);
    if a == "" {
      assert s[..n] == x;
      assert b == "" ==> t[..n] == y;
    } else {
      assert b != "";
      var a', b' := a[..|a| - 1], b[..|b| - 1];
      assert s[..n] == x + [c] + a' && t[..n] == y + [c] + b';
      LastSep(c, x, a', y, b');
      assert a == a' + [a[|a| - 1]] && b == b' + [b[|b| - 1]];
    }
  }

  lemma WithoutJoin(a: string, b: string, c: char)
    ensures Without(a + b, c) <==> Without(a, c) && Without(b, c)
  {
    var s := a + b;
    assert s[..|a|] == a && s[|a|..] == b;
    if Without(s, c) {
      assert forall i :: 0 <= i < |a| ==> a[i] == s[i];
      assert forall i :: 0 <= i < |b| ==> b[i] == s[|a| + i];
    }
  }

  lemma {:induction false} TooLow(zeros: seq<int>, c: char)
    requires forall i :: 0 <= i < |zeros| ==> zeros[i] > c as int
    ensures InboxNames.DigitIn(zeros, c).None?
  {
    if zeros != [] {
      TooLow(zeros[1..], c);
    }
  }

  lemma LowZeros()
    ensures forall i :: 0 <= i < |InboxNames.FURTHER_ZEROS| ==> InboxNames.FURTHER_ZEROS[i] > 0x60
  {
    LowerHalf();
    HigherHalf();
    var a, b := InboxNames.LOWER_ZEROS, InboxNames.HIGHER_ZEROS;
    assert forall i :: 0 <= i < |a| ==> (a + b)[i] == a[i];
    assert forall i :: 0 <= i < |b| ==> b[i] > 0x60;
  }

  lemma LowerHalf()
    ensures forall i :: 0 <= i < |InboxNames.LOWER_ZEROS| ==> InboxNames.LOWER_ZEROS[i] > 0x60
  {
  }

  lemma HigherHalf()
    ensures forall i :: 0 <= i < |InboxNames.HIGHER_ZEROS| ==> InboxNames.HIGHER_ZEROS[i] > 0x60
  {
  }

  /** No ASCII character but the ten figures is a digit (those above the back-tick never come up). */
  lemma LowIsNoDigit(c: char)
    requires c <= '`' && !('0' <= c <= '9')
    ensures !IsDigit(c)
  {
    LowZeros();
    TooLow(InboxNames.FURTHER_ZEROS, c);
    AfterTwo(InboxNames.FURTHER_ZEROS, c);
  }

  lemma AfterTwo(rest: seq<int>, c: char)
    requires InboxNames.DigitIn(rest, c).None? && !('0' <= c <= '9') && c as int < 0x0660
    ensures InboxNames.DigitIn([0x0030] + ([0x0660] + rest), c).None?
  {
    assert ([0x0660] + rest)[1..] == rest;
    assert ([0x0030] + ([0x0660] + rest))[1..] == [0x0660] + rest;
  }

  // ---- joining texts at a line end -------------------------------------------------------------------------

  /** A text splits into lines at any break. */
  lemma {:induction false} LinesJoinFrom(line: string, a: string, b: string)
    requires a != "" && IsBreak(a[|a| - 1])
    ensures LinesFrom(line, a + b) == LinesFrom(line, a) + Lines(b)
    decreases |a|
  {
    hide IsBreak;
    assert (a + b)[0] == a[0] && (a + b)[1..] == a[1..] + b;
    if |a| == 1 {
      assert a[1..] == "" && "" + b == b;
      assert LinesFrom(line, a) == [line];
    } else {
      var next := if IsBreak(a[0]) then "" else line + [a[0]];
      LinesJoinFrom(next, a[1..], b);
    }
  }

  lemma LinesJoin(a: string, b: string)
    requires a != "" && IsBreak(a[|a| - 1])
    ensures Lines(a + b) == Lines(a) + Lines(b)
  {
    LinesJoinFrom("", a, b);
  }

  lemma {:induction false} LineRowsJoin(a: seq<string>, b: seq<string>, doc: string)
    ensures LineRows(a + b, doc) == LineRows(a, doc) + LineRows(b, doc)
    decreases |b|
  {
    if b == [] {
      assert a + b == a;
    } else {
      assert (a + b)[..|a + b| - 1] == a + b[..|b| - 1];
      LineRowsJoin(a, b[..|b| - 1], doc);
      hide RowOf;
    }
  }

  /** Empty, or closed by a line break. */
  predicate Closed(t: string) { t == "" || IsBreak(t[|t| - 1]) }

  lemma RowsJoin(a: string, b: string, doc: string)
    requires Closed(a)
    ensures DocRows(a + b, doc) == DocRows(a, doc) + DocRows(b, doc)
  {
    if a == "" {
      assert a + b == b;
      assert Lines("") == [];
    } else {
      LinesJoin(a, b);
      LineRowsJoin(Lines(a), Lines(b), doc);
    }
  }

  lemma {:induction false} OneLineFrom(line: string, t: string)
    requires line + t != "" && forall i :: 0 <= i < |t| ==> !IsBreak(t[i])
    ensures LinesFrom(line, t + "\n") == [line + t]
    decreases |t|
  {
    hide IsBreak;
    if t == "" {
      assert line + t == line && t + "\n" == "\n" && "\n"[1..] == "";
      FeedBreaks();
    } else {
      assert (t + "\n")[0] == t[0] && (t + "\n")[1..] == t[1..] + "\n";
      assert line + [t[0]] + t[1..] == line + t;
      OneLineFrom(line + [t[0]], t[1..]);
    }
  }

  lemma FeedBreaks()
    ensures IsBreak('\n')
  {
  }

  lemma OneLine(t: string)
    requires t != "" && forall i :: 0 <= i < |t| ==> ' ' <= t[i] <= '~'
    ensures Lines(t + "\n") == [t]
  {
    assert "" + t == t;
    OneLineFrom("", t);
  }

  // ---- texts that define nothing ----------------------------------------------------------

  lemma OpensWithInv(line: string)
    requires OPEN <= line
    ensures !Without(line, 'I')
  {
    assert line[2] == OPEN[2] == 'I';
  }

  lemma {:induction false} NoSearch(line: string)
    requires Without(line, 'I')
    ensures Search(line).None?
  {
    if line != "" {
      if OPEN <= line {
        OpensWithInv(line);
      }
      NoSearch(line[1..]);
    }
  }

  lemma {:induction false} LinesKeepOut(line: string, t: string, c: char)
    requires Without(line, c) && (Without(t, c) || IsBreak(c))
    ensures forall i :: 0 <= i < |LinesFrom(line, t)| ==> Without(LinesFrom(line, t)[i], c)
    decreases |t|
  {
    if t != "" {
      if IsBreak(t[0]) {
        LinesKeepOut("", t[1..], c);
      } else {
        WithoutJoin(line, [t[0]], c);
        LinesKeepOut(line + [t[0]], t[1..], c);
      }
    }
  }

  lemma {:induction false} NoDefinitionLines(lines: seq<string>, doc: string)
    requires forall i :: 0 <= i < |lines| ==> Without(lines[i], 'I')
    ensures LineRows(lines, doc) == []
  {
    if lines != [] {
      NoDefinitionLines(lines[..|lines| - 1], doc);
      NoSearch(lines[|lines| - 1]);
      hide Search;
    }
  }

  lemma NoDefinitions(text: string, doc: string)
    requires Without(text, 'I')
    ensures DocRows(text, doc) == []
  {
    LinesKeepOut("", text, 'I');
    NoDefinitionLines(Lines(text), doc);
  }

  // ---- the pattern ------------------------------------------------------------------------

  predicate Digits(n: string) { n != "" && forall i :: 0 <= i < |n| ==> IsDigit(n[i]) }

  /** What the pattern matches, read as a regular expression is. */
  predicate Reads(s: string, family: string, number: string, gap: string, rest: string) {
    && s == OPEN + (family + ("-" + (number + ("**" + (gap + (":" + rest))))))
    && Letters(family) && Digits(number) && AllSpace(gap)
  }

  lemma {:induction false} LetterRunStops(f: string, t: string)
    requires (forall i :: 0 <= i < |f| ==> 'A' <= f[i] <= 'Z') && (t != "" ==> !('A' <= t[0] <= 'Z'))
    ensures LetterRun(f + t) == |f|
  {
    if f == "" {
      assert f + t == t;
    } else {
      assert (f + t)[1..] == f[1..] + t;
      LetterRunStops(f[1..], t);
    }
  }

  lemma {:induction false} DigitRunStops(n: string, t: string)
    requires (forall i :: 0 <= i < |n| ==> IsDigit(n[i])) && (t != "" ==> !IsDigit(t[0]))
    ensures DigitRun(n + t) == |n|
  {
    hide IsDigit;
    if n == "" {
      assert n + t == t;
    } else {
      assert (n + t)[1..] == n[1..] + t;
      DigitRunStops(n[1..], t);
    }
  }

  lemma {:induction false} SkipSpaceStops(gap: string, t: string)
    requires AllSpace(gap) && (t != "" ==> !IsSpace(t[0]))
    ensures SkipSpace(gap + t) == t
  {
    hide IsSpace;
    if gap == "" {
      assert gap + t == t;
    } else {
      assert (gap + t)[1..] == gap[1..] + t;
      SkipSpaceStops(gap[1..], t);
    }
  }

  lemma {:induction false} SkipSpaceSplits(s: string) returns (gap: string)
    ensures AllSpace(gap) && s == gap + SkipSpace(s)
  {
    hide IsSpace;
    gap := "";
    if s != "" && IsSpace(s[0]) {
      gap := SkipSpaceSplits(s[1..]);
      gap := [s[0]] + gap;
    }
  }

  lemma After(a: string, b: string)
    ensures a <= a + b && (a + b)[|a|..] == b && (a + b)[..|a|] == a
  {
  }

  lemma ColonIsNoSpace()
    ensures !IsSpace(':')
  {
  }

  /** Taking the longest runs, the matcher misses nothing the expression matches. */
  lemma MatchOfReading(s: string, f: string, n: string, gap: string, rest: string)
    requires Reads(s, f, n, gap, rest)
    ensures MatchHere(s) == Some("INV-" + f + "-" + n)
  {
    var c := ":" + rest;
    var u := n + ("**" + (gap + c));
    var t := f + ("-" + u);
    After(OPEN, t);
    LetterRunStops(f, "-" + u);
    After(f, "-" + u);
    assert t[|f| + 1..] == u;
    LowIsNoDigit('*');
    DigitRunStops(n, "**" + (gap + c));
    After(n, "**" + (gap + c));
    assert u[|n| + 2..] == gap + c;
    ColonIsNoSpace();
    SkipSpaceStops(gap, c);
    hide LetterRun, DigitRun, SkipSpace, IsDigit, IsSpace, OPEN;
  }

  lemma Rejoin(s: string, i: nat, mid: string)
    requires i + |mid| <= |s| && mid <= s[i..]
    ensures s == s[..i] + (mid + s[i + |mid|..])
  {
    assert s[i..] == mid + s[i..][|mid|..];
    assert s == s[..i] + s[i..];
  }

  lemma ReadingOfMatch(s: string)
    returns (f: string, n: string, gap: string, rest: string)
    requires MatchHere(s).Some?
    ensures Reads(s, f, n, gap, rest) && MatchHere(s).value == "INV-" + f + "-" + n
  {
    hide IsSpace, IsDigit, SkipSpace, OPEN;
    var t := s[|OPEN|..];
    var k := LetterRun(t);
    var u := t[k + 1..];
    var m := DigitRun(u);
    var v := SkipSpace(u[m + 2..]);
    f, n, rest := t[..k], u[..m], v[1..];
    gap := SkipSpaceSplits(u[m + 2..]);
    assert s == OPEN + t && v == ":" + rest;
    Rejoin(t, k, "-");
    Rejoin(u, m, "**");
    hide LetterRun, DigitRun, MatchHere;
    ReadingIs(s, t, u, f, n, gap, rest);
  }

  lemma ReadingIs(s: string, t: string, u: string, f: string, n: string, gap: string, rest: string)
    requires s == OPEN + t && t == f + ("-" + u) && u == n + ("**" + (gap + (":" + rest)))
    requires Letters(f) && Digits(n) && AllSpace(gap)
    ensures Reads(s, f, n, gap, rest)
  {
  }

  ghost predicate ReadsAt(line: string, k: nat, id: string)
    requires k <= |line|
  {
    exists f, n, gap, rest :: Reads(line[k..], f, n, gap, rest) && id == "INV-" + f + "-" + n
  }

  /** The search finds the first place where the expression matches, if there is one. */
  lemma {:induction false} SearchIsLeftmost(line: string, k: nat, id: string)
    requires k <= |line| && ReadsAt(line, k, id)
    requires forall j, other :: 0 <= j < k ==> !ReadsAt(line, j, other)
    ensures Search(line) == Some(id)
    decreases |line|
  {
    var f, n, gap, rest :| Reads(line[k..], f, n, gap, rest) && id == "INV-" + f + "-" + n;
    hide Reads, MatchHere, OPEN;
    if k == 0 {
      assert line[0..] == line;
      MatchOfReading(line, f, n, gap, rest);
      ReadsSomething(line, f, n, gap, rest);
    } else {
      if MatchHere(line).Some? {
        MatchReads(line);
      }
      forall j, other | 0 <= j < k - 1 ensures !ReadsAt(line[1..], j, other) {
        assert line[1..][j..] == line[j + 1..];
        assert !ReadsAt(line, j + 1, other);
      }
      assert line[1..][k - 1..] == line[k..];
      SearchIsLeftmost(line[1..], k - 1, id);
    }
  }

  lemma ReadsSomething(s: string, f: string, n: string, gap: string, rest: string)
    requires Reads(s, f, n, gap, rest)
    ensures s != ""
  {
    assert OPEN != "";
  }

  lemma MatchReads(line: string)
    requires MatchHere(line).Some?
    ensures ReadsAt(line, 0, MatchHere(line).value)
  {
    var f, n, gap, rest := ReadingOfMatch(line);
    hide Reads, MatchHere;
    assert line[0..] == line;
  }

  /** Nothing before it reads. */
  ghost predicate FirstReads(line: string, k: nat, id: string)
    requires k <= |line|
  {
    ReadsAt(line, k, id) && forall j, other :: 0 <= j < k ==> !ReadsAt(line, j, other)
  }

  lemma {:induction false} SearchFindsReading(line: string) returns (k: nat)
    requires Search(line).Some?
    ensures k <= |line| && FirstReads(line, k, Search(line).value)
  {
    hide Reads;
    if MatchHere(line).Some? {
      MatchReads(line);
      k := 0;
    } else {
      k := SearchFindsReading(line[1..]);
      assert line[1..][k..] == line[k + 1..];
      forall j, other | 0 <= j < k + 1 ensures !ReadsAt(line, j, other) {
        if j == 0 {
          NothingReadsHere(line, other);
        } else {
          assert line[1..][j - 1..] == line[j..];
          assert !ReadsAt(line[1..], j - 1, other);
        }
      }
      k := k + 1;
    }
  }

  lemma NothingReadsHere(line: string, id: string)
    requires MatchHere(line).None?
    ensures !ReadsAt(line, 0, id)
  {
    assert line[0..] == line;
    forall f, n, gap, rest ensures !Reads(line, f, n, gap, rest) {
      if Reads(line, f, n, gap, rest) {
        MatchOfReading(line, f, n, gap, rest);
      }
    }
    hide Reads, MatchHere;
  }

  // ---- what a row of the documents looks like -----------------------------------------

  lemma {:induction false} IdOfMatch(line: string, id: string)
    requires MatchHere(line) == Some(id)
    ensures SomeId(id) && Without(id, '`') && Without(id, '\n')
  {
    var t := line[|OPEN|..];
    var n := LetterRun(t);
    var u := t[n + 1..];
    var m := DigitRun(u);
    assert id == "INV-" + t[..n] + "-" + u[..m];
    LowIsNoDigit('`');
    LowIsNoDigit('\n');
    assert Letters(t[..n]) && IsId(id, t[..n], u[..m]);
    hide LetterRun, DigitRun, IsDigit, OPEN, MatchHere;
    forall c: char | c == '`' || c == '\n' ensures Without(id, c) {
      WithoutJoin("INV-", t[..n], c);
      WithoutJoin("INV-" + t[..n], "-", c);
      WithoutJoin("INV-" + t[..n] + "-", u[..m], c);
    }
  }

  lemma {:induction false} IdOfSearch(line: string, id: string)
    requires Search(line) == Some(id)
    ensures SomeId(id) && Without(id, '`') && Without(id, '\n')
  {
    if MatchHere(line).Some? {
      IdOfMatch(line, id);
    } else {
      IdOfSearch(line[1..], id);
    }
  }

  lemma {:induction false} AfterColonIsPart(line: string, c: char)
    requires Without(line, c)
    ensures Without(AfterColon(line), c)
  {
    if line != "" && line[0] != ':' {
      AfterColonIsPart(line[1..], c);
    }
  }

  lemma StripIsPart(s: string, c: char)
    requires Without(s, c)
    ensures Without(Strip(s), c)
  {
    LStripIsSuffix(s);
    RStripEmpty(LStrip(s));
    hide LStrip, RStrip;
  }

  predicate Spaceless(path: string) { forall i :: 0 <= i < |path| ==> !IsSpace(path[i]) }

  /** A row of the index can be shown in a line of a table, and can be told apart there. */
  ghost predicate Showable(r: Row) {
    && SomeId(r.id)
    && Without(r.id, '`') && Without(r.id, '\n') && Without(r.statement, '\n') && Spaceless(r.home)
  }

  ghost predicate AllShowable(rows: seq<Row>) { forall i :: 0 <= i < |rows| ==> Showable(rows[i]) }

  lemma {:induction false} LineRowsShowable(lines: seq<string>, doc: string)
    requires (forall i :: 0 <= i < |lines| ==> Without(lines[i], '\n')) && Spaceless(doc)
    ensures AllShowable(LineRows(lines, doc))
  {
    if lines != [] {
      var line := lines[|lines| - 1];
      LineRowsShowable(lines[..|lines| - 1], doc);
      if Definition(line).Some? {
        IdOfSearch(line, Search(line).value);
        AfterColonIsPart(line, '\n');
        StripIsPart(AfterColon(line), '\n');
      }
      hide Definition, Search, AfterColon, Strip, SomeId, Without, Spaceless;
    }
  }

  lemma DocRowsShowable(text: string, doc: string)
    requires Spaceless(doc)
    ensures AllShowable(DocRows(text, doc))
  {
    LinesKeepOut("", text, '\n');
    LineRowsShowable(Lines(text), doc);
  }

  lemma {:induction false} FoundShowable(files: Files, docs: seq<string>)
    requires forall d :: d in docs ==> Spaceless(d)
    ensures AllShowable(Found(files, docs))
  {
    if docs != [] {
      var d := docs[|docs| - 1];
      FoundShowable(files, docs[..|docs| - 1]);
      if d in files {
        DocRowsShowable(files[d], d);
      }
      hide Showable, DocRows;
    }
  }

  // ---- a table tells rows apart ---------------------------------------------------------

  function Link(home: string): string { "[`" + home + "`](../" + home }

  lemma RowTextIs(r: Row)
    ensures RowText(r) == "| `" + (r.id + "`" + (" | " + r.statement + " |" + " " + Link(r.home) + ") |"))
  {
  }

  lemma LinkTells(a: string, b: string)
    requires Link(a) == Link(b)
    ensures a == b
  {
    assert |Link(a)| == 2 * |a| + |"[`"| + |"`](../"|;
    assert |Link(b)| == 2 * |b| + |"[`"| + |"`](../"|;
    assert Link(a)[|"[`"|..|"[`"| + |a|] == a;
    assert Link(b)[|"[`"|..|"[`"| + |b|] == b;
  }

  lemma LinkIsSpaceless(home: string)
    requires Spaceless(home)
    ensures Without(Link(home), ' ')
  {
    assert IsSpace(' ');
    WithoutJoin("[`", home, ' ');
    WithoutJoin("[`" + home, "`](../", ' ');
    WithoutJoin("[`" + home + "`](../", home, ' ');
  }

  lemma CutEnds(p: string, x: string, y: string, q: string)
    requires p + x + q == p + y + q
    ensures x == y
  {
    assert |p + x + q| == |p| + |x| + |q| && |p + y + q| == |p| + |y| + |q|;
    assert (p + x + q)[|p|..|p| + |x|] == x;
    assert (p + y + q)[|p|..|p| + |y|] == y;
  }

  lemma RowTextTells(x: Row, y: Row)
    requires Showable(x) && Showable(y) && RowText(x) == RowText(y)
    ensures x == y
  {
    RowTextIs(x);
    RowTextIs(y);
    LinkIsSpaceless(x.home);
    LinkIsSpaceless(y.home);
    hide RowText, Link, SomeId, Spaceless, Without;
    var a, b := " | " + x.statement + " |" + " " + Link(x.home) + ") |", " | " + y.statement + " |" + " " + Link(y.home) + ") |";
    assert "| `" + (x.id + "`" + a) + "" == RowText(x) && "| `" + (y.id + "`" + b) + "" == RowText(y);
    CutEnds("| `", x.id + "`" + a, y.id + "`" + b, "");
    FirstSep('`', x.id, a, y.id, b);
    RestTells(x.statement, Link(x.home), y.statement, Link(y.home));
    LinkTells(x.home, y.home);
  }

  lemma RestTells(s: string, l: string, t: string, m: string)
    requires Without(l, ' ') && Without(m, ' ')
    requires " | " + s + " |" + " " + l + ") |" == " | " + t + " |" + " " + m + ") |"
    ensures s == t && l == m
  {
    hide Without;
    var a, b := " | " + s + " |", " | " + t + " |";
    CutEnds("", a + " " + l, b + " " + m, ") |") by {
      assert "" + (a + " " + l) == a + " " + l && "" + (b + " " + m) == b + " " + m;
    }
    LastSep(' ', a, l, b, m);
    CutEnds(" | ", s, t, " |");
  }

  lemma RowTextIsALine(r: Row)
    requires Showable(r)
    ensures Without(RowText(r), '\n')
  {
    assert IsSpace('\n');
    assert Without(r.home, '\n');
    hide SomeId, Spaceless, IsSpace;
    WithoutJoin("| `", r.id, '\n');
    WithoutJoin("| `" + r.id, "` | ", '\n');
    WithoutJoin("| `" + r.id + "` | ", r.statement, '\n');
    WithoutJoin("| `" + r.id + "` | " + r.statement, " | [`", '\n');
    WithoutJoin("| `" + r.id + "` | " + r.statement + " | [`", r.home, '\n');
    WithoutJoin("| `" + r.id + "` | " + r.statement + " | [`" + r.home, "`](../", '\n');
    WithoutJoin("| `" + r.id + "` | " + r.statement + " | [`" + r.home + "`](../", r.home, '\n');
    WithoutJoin("| `" + r.id + "` | " + r.statement + " | [`" + r.home + "`](../" + r.home, ") |", '\n');
  }

  /** Nothing of the rows is lost in a table. */
  lemma {:induction false} TableTells(a: seq<Row>, b: seq<Row>)
    requires AllShowable(a) && AllShowable(b) && TableText(a) == TableText(b)
    ensures a == b
    decreases |a|
  {
    hide Showable, RowText;
    if a != [] && b != [] {
      RowTextIsALine(a[0]);
      RowTextIsALine(b[0]);
      FirstSep('\n', RowText(a[0]), TableText(a[1..]), RowText(b[0]), TableText(b[1..]));
      RowTextTells(a[0], b[0]);
      TableTells(a[1..], b[1..]);
      assert a == [a[0]] + a[1..] && b == [b[0]] + b[1..];
    }
  }

  // ---- the shards tell rows apart ---------------------------------------------------------

  lemma PathsDiffer()
    ensures forall i, j :: 0 <= i < j < |PATHS| ==> PATHS[i] != PATHS[j]
  {
    assert PATHS[0][19] == '.' && forall i :: 1 <= i < |PATHS| ==> PATHS[i][19] == '-';
    assert PATHS[1][20] == 'e' && PATHS[2][20] == 'f' && PATHS[3][20] == 'n' && PATHS[4][20] == 'p'
      && PATHS[5][20] == 's' && PATHS[6][20] == 't';
  }

  lemma {:induction false} ShardAtPath(rows: seq<Row>, k: nat)
    requires k < |PATHS|
    ensures ShardAt(rows, PATHS[k]) == Shard(rows, k)
    decreases |rows|
  {
    if rows != [] {
      ShardAtPath(rows[..|rows| - 1], k);
      PathsDiffer();
      hide RowShard, PATHS;
      var j := RowShard(rows[|rows| - 1]);
      assert j < k || j == k || k < j;
    }
  }

  lemma {:induction false} SameShards(a: seq<Row>, b: seq<Row>, k: nat)
    requires forall i :: 0 <= i < k ==> Shard(a, i) == Shard(b, i)
    ensures Shards(a, k) == Shards(b, k)
  {
    hide Shard;
    if k > 0 {
      SameShards(a, b, k - 1);
    }
  }

  lemma ShardShowable(rows: seq<Row>, path: string)
    requires AllShowable(rows)
    ensures AllShowable(ShardAt(rows, path))
  {
    hide Showable, RowShard;
    if rows != [] {
      ShardShowable(rows[..|rows| - 1], path);
    }
  }

  lemma ShowableIds(found: seq<Row>)
    requires AllShowable(found)
    ensures Ids(found)
  {
    hide SomeId, Without, Spaceless;
  }

  lemma SortShowable(found: seq<Row>)
    requires AllShowable(found)
    ensures AllShowable(SortRows(found))
  {
    var rows := SortRows(found);
    SortRowsSorts(found);
    hide Showable, SortRows;
    forall i | 0 <= i < |rows| ensures Showable(rows[i]) {
      assert rows[i] in multiset(found);
    }
  }

  /** The seven rendered tables determine the index: two lists of rows that differ at all differ in
      the table of some shard. */
  lemma TablesTellIndexesApart(found: seq<Row>, found': seq<Row>)
    requires AllShowable(found) && AllShowable(found')
    requires forall p :: p in PATHS ==> TableText(ShardAt(SortRows(found), p)) == TableText(ShardAt(SortRows(found'), p))
    ensures SortRows(found) == SortRows(found')
  {
    var a, b := SortRows(found), SortRows(found');
    hide SortRows, Showable, Shard, Shards, PATHS, TableText, ShardAt, Ids, AllShowable;
    ShowableIds(found);
    ShowableIds(found');
    ShardsAreTheIndex(found);
    ShardsAreTheIndex(found');
    SortShowable(found);
    SortShowable(found');
    forall k | 0 <= k < |PATHS| ensures Shard(a, k) == Shard(b, k) {
      ShardAtPath(a, k);
      ShardAtPath(b, k);
      ShardShowable(a, PATHS[k]);
      ShardShowable(b, PATHS[k]);
      assert PATHS[k] in PATHS;
      TableTells(ShardAt(a, PATHS[k]), ShardAt(b, PATHS[k]));
    }
    SameShards(a, b, |PATHS|);
  }
}
