/**
 * When writing the navigation leaves nothing stale.
 *
 * The spliced regions settle at the first write.  The invariant shards are rendered from the
 * documents as they were before it, so they settle at the first write exactly when splicing has
 * not changed the definitions, and in any case at the second.
 */
module DocsFixpoint {
  import opened Prelude
  import opened DocsSplice
  import opened DocsShards
  import opened DocsIndex
  import opened DocsNav
  import InboxNames

  /** No document is also another artifact, and no generated body holds the markers it goes between. */
  predicate Sane(site: Site) {
    && (forall d :: d in site.documents ==> d != LLMS && d != README && d !in PATHS)
    && Free(site.routing, ROUTING_BEGIN, ROUTING_END)
    && (forall d :: d in site.documents ==> Free(site.sourcemap(d), SOURCEMAP_BEGIN, SOURCEMAP_END))
  }

  lemma SplicedAgain(text: string, begin: string, end: string, body: string)
    requires Pair(begin, end) && Splice(text, begin, end, body).Ok? && Free(body, begin, end)
    ensures var once := Splice(text, begin, end, body).text;
      Splice(once, begin, end, body) == Ok(once) && First(once, begin).Some?
  {
    LastSpliceWins(text, begin, end, body, body);
    var once := Splice(text, begin, end, body).text;
    assert Count(once, begin) == 1;
    FirstExists(once, begin);
    hide Splice, First, Count;
  }

  /** What a write leaves at a path. */
  lemma WrittenAt(site: Site, files: Files, rel: string)
    requires Targets(site, files).Some?
    ensures var after := Written(site, files);
      if IsTarget(site, files, rel) then Expected(site, files, rel).Ok? && rel in after && after[rel] == Expected(site, files, rel).text
      else (rel in after <==> rel in files) && (rel in files ==> after[rel] == files[rel])
  {
    hide Splice, First, Rows;
    var t := Targets(site, files).value;
    assert rel in TargetNames(site, files) <==> IsTarget(site, files, rel);
  }

  /** A document's own region settles at the first write. */
  lemma DocumentSettles(site: Site, files: Files, d: string)
    requires Sane(site) && Targets(site, files).Some? && d in site.documents
    ensures var after := Written(site, files);
      && (Mapped(site, after, d) <==> Mapped(site, files, d))
      && (Mapped(site, files, d) ==> Expected(site, after, d) == Expected(site, files, d) && Expected(site, files, d).Ok?)
      && (!Mapped(site, files, d) ==> (d in after <==> d in files) && (d in files ==> after[d] == files[d]))
  {
    WrittenAt(site, files, d);
    TheMarkersPair();
    if Mapped(site, files, d) {
      SplicedAgain(files[d], SOURCEMAP_BEGIN, SOURCEMAP_END, site.sourcemap(d));
    }
    hide Splice, First, Rows, Written, Targets;
  }

  lemma ReadmeSettles(site: Site, files: Files)
    requires Sane(site) && Targets(site, files).Some?
    ensures var after := Written(site, files);
      && (README in after <==> README in files)
      && (README in files ==> Expected(site, after, README) == Expected(site, files, README) && Expected(site, files, README).Ok?)
  {
    WrittenAt(site, files, README);
    TheMarkersPair();
    ReadmeIsNoShard();
    if README in files {
      SplicedAgain(files[README], ROUTING_BEGIN, ROUTING_END, site.routing);
    }
    hide Splice, First, Rows, Written, Targets;
  }

  lemma ReadmeIsNoShard()
    ensures README !in PATHS && LLMS !in PATHS && README != LLMS
  {
    forall i | 0 <= i < |PATHS| ensures PATHS[i] != README && PATHS[i] != LLMS {
      assert |PATHS[i]| > 10;
    }
    assert README[0] == 'R' && LLMS[0] == 'l';
  }

  /** After one write every artifact but the shards is as it should be, and a shard is stale exactly
      when it renders differently from the documents as written. */
  lemma StaleAfterOneWrite(site: Site, files: Files)
    requires Sane(site) && Targets(site, files).Some?
    ensures var after := Written(site, files);
      && Targets(site, after).Some?
      && Stale(after, Targets(site, after).value) ==
           set p | p in PATHS && ShardText(site, Rows(site, after), p) != ShardText(site, Rows(site, files), p)
  {
    var after := Written(site, files);
    ReadmeSettles(site, files);
    ReadmeIsNoShard();
    forall d | d in site.documents
      ensures Mapped(site, after, d) <==> Mapped(site, files, d)
      ensures Mapped(site, files, d) ==> Expected(site, after, d) == Expected(site, files, d) && Expected(site, files, d).Ok?
    {
      DocumentSettles(site, files, d);
    }
    SettledSplices(site, files, after);
    hide Splice, First, Rows, Written, ShardText;
    forall rel ensures rel in Stale(after, Targets(site, after).value) <==>
      rel in PATHS && ShardText(site, Rows(site, after), rel) != ShardText(site, Rows(site, files), rel)
    {
      StaleAt(site, files, rel);
    }
  }

  lemma SettledSplices(site: Site, files: Files, after: Files)
    requires AllSplice(site, files) && (README in after <==> README in files)
    requires README in files ==> Expected(site, after, README).Ok?
    requires !Mapped(site, after, README)
    requires forall d :: d in site.documents ==> (Mapped(site, after, d) <==> Mapped(site, files, d))
    requires forall d :: d in site.documents && Mapped(site, files, d) ==> Expected(site, after, d).Ok?
    ensures AllSplice(site, after)
  {
    hide Splice, First, Rows, Mapped;
  }

  /** A target is stale when it does not hold what is expected. */
  lemma StaleWhen(site: Site, files: Files, rel: string)
    requires Targets(site, files).Some?
    ensures rel in Stale(files, Targets(site, files).value) <==>
      IsTarget(site, files, rel) && !(rel in files && files[rel] == Expected(site, files, rel).text)
  {
    hide Splice, First, Rows, ShardText, Mapped, Expected;
    assert rel in TargetNames(site, files) <==> IsTarget(site, files, rel) by {
      if Mapped(site, files, rel) {
        MappedIsDocument(site, files, rel);
      }
    }
  }

  lemma StaleAt(site: Site, files: Files, rel: string)
    requires Sane(site) && Targets(site, files).Some? && Targets(site, Written(site, files)).Some?
    ensures var after := Written(site, files);
      rel in Stale(after, Targets(site, after).value) <==>
        rel in PATHS && ShardText(site, Rows(site, after), rel) != ShardText(site, Rows(site, files), rel)
  {
    var after := Written(site, files);
    hide Splice, First, Rows, Written, ShardText, Targets, Stale, PATHS;
    WrittenAt(site, files, rel);
    StaleWhen(site, after, rel);
    ReadmeSettles(site, files);
    ReadmeIsNoShard();
    if rel in site.documents {
      DocumentSettles(site, files, rel);
    }
  }

  // ---- what "nothing stale" means ------------------------------------------------------

  /** The body stands between the markers, on the line after the first. */
  ghost predicate Holds(text: string, begin: string, end: string, body: string) {
    exists head, tail :: text == head + begin + "\n" + body + end + tail
  }

  lemma CurrentSplice(text: string, begin: string, end: string, body: string)
    requires Pair(begin, end) && Splice(text, begin, end, body).Ok?
    ensures Splice(text, begin, end, body) == Ok(text) <==> Holds(text, begin, end, body)
  {
    hide Splice, Count, First, Pair;
    var head, mid, tail := SpliceKeepsTheRest(text, begin, end, body);
    if Holds(text, begin, end, body) {
      var h, t :| text == h + begin + "\n" + body + end + t;
      OnlyRegion(text, begin, end, h, body, t);
      SpliceInRegion(text, begin, end, h, "\n" + body, t, body);
    }
  }

  lemma OnlyRegion(text: string, begin: string, end: string, head: string, body: string, tail: string)
    requires Pair(begin, end) && text == head + begin + "\n" + body + end + tail && Splice(text, begin, end, body).Ok?
    ensures Region(text, begin, end, head, "\n" + body, tail)
  {
    assert Count(text, begin) == 1 && Count(text, end) == 1;
    hide Splice, Count, First, Pair;
    FedRegroup(head, begin, body, end, tail);
    RegionCounts(begin, end, head, "\n" + body, tail);
  }

  /** What a reader finds when the check is content: the text of the manifest alone, each shard of the
      index of the documents as they are, and in every region the body generated for it. */
  ghost predicate Current(site: Site, files: Files) {
    && LLMS in files && files[LLMS] == site.llms
    && (forall p :: p in PATHS ==> p in files && files[p] == ShardText(site, Rows(site, files), p))
    && (README in files ==> Holds(files[README], ROUTING_BEGIN, ROUTING_END, site.routing))
    && (forall d :: d in site.documents && Mapped(site, files, d) ==>
          Holds(files[d], SOURCEMAP_BEGIN, SOURCEMAP_END, site.sourcemap(d)))
  }

  /** The check passes exactly when that is so. */
  lemma NothingStaleMeansCurrent(site: Site, files: Files)
    requires Sane(site) && Targets(site, files).Some?
    ensures Stale(files, Targets(site, files).value) == {} <==> Current(site, files)
  {
    var t := Targets(site, files).value;
    TheMarkersPair();
    ReadmeIsNoShard();
    forall rel ensures rel in t ==> Expected(site, files, rel).Ok? && t[rel] == Expected(site, files, rel).text {
      WrittenAt(site, files, rel);
    }
    forall d | d in site.documents && Mapped(site, files, d)
      ensures d in t && Expected(site, files, d).Ok?
      ensures Expected(site, files, d) == Ok(files[d]) <==> Holds(files[d], SOURCEMAP_BEGIN, SOURCEMAP_END, site.sourcemap(d))
    {
      CurrentSplice(files[d], SOURCEMAP_BEGIN, SOURCEMAP_END, site.sourcemap(d));
    }
    if README in files {
      CurrentSplice(files[README], ROUTING_BEGIN, ROUTING_END, site.routing);
    }
    CurrentTargets(site, files, t);
  }

  lemma CurrentTargets(site: Site, files: Files, t: Files)
    requires Sane(site) && Targets(site, files) == Some(t) && README !in PATHS && LLMS !in PATHS && README != LLMS
    requires forall rel :: rel in t ==> Expected(site, files, rel).Ok? && t[rel] == Expected(site, files, rel).text
    requires forall d :: d in site.documents && Mapped(site, files, d) ==>
      d in t && Expected(site, files, d).Ok? && (Expected(site, files, d) == Ok(files[d]) <==> Holds(files[d], SOURCEMAP_BEGIN, SOURCEMAP_END, site.sourcemap(d)))
    requires README in files ==>
      (Splice(files[README], ROUTING_BEGIN, ROUTING_END, site.routing) == Ok(files[README]) <==>
       Holds(files[README], ROUTING_BEGIN, ROUTING_END, site.routing))
    ensures Stale(files, t) == {} <==> Current(site, files)
  {
    hide Splice, First, Rows, Holds, ShardText;
    forall rel ensures rel in t <==> IsTarget(site, files, rel) {
      assert rel in t <==> rel in TargetNames(site, files);
    }
    if Stale(files, t) == {} {
      forall rel | rel in t ensures rel in files && files[rel] == t[rel] {
        assert rel !in Stale(files, t);
      }
    } else {
      var rel :| rel in Stale(files, t);
      assert IsTarget(site, files, rel) && Differs(files, t, rel);
    }
  }

  // ---- two writes always suffice ----------------------------------------------------

  predicate SameAt(f: Files, g: Files, d: string) {
    (d in f <==> d in g) && (d in f ==> f[d] == g[d])
  }

  lemma {:induction false} FoundDependsOnDocuments(f: Files, g: Files, docs: seq<string>)
    requires forall d :: d in docs ==> SameAt(f, g, d)
    ensures Found(f, docs) == Found(g, docs)
    decreases |docs|
  {
    if docs != [] {
      assert SameAt(f, g, docs[|docs| - 1]);
      hide DocRows;
      FoundDependsOnDocuments(f, g, docs[..|docs| - 1]);
    }
  }

  /** The second write leaves nothing stale, whatever the documents hold; a third changes nothing. */
  lemma TwoWritesSuffice(site: Site, files: Files)
    requires Sane(site) && Targets(site, files).Some?
    ensures var once := Written(site, files); var twice := Written(site, once);
      && Targets(site, twice).Some? && Stale(twice, Targets(site, twice).value) == {}
      && Written(site, twice) == twice
  {
    var once := Written(site, files);
    StaleAfterOneWrite(site, files);
    var twice := Written(site, once);
    forall d | d in site.documents ensures SameAt(once, twice, d) {
      SettledDocument(site, files, d);
    }
    FoundDependsOnDocuments(once, twice, site.documents);
    StaleAfterOneWrite(site, once);
    NothingStale(site, twice);
  }

  lemma SettledDocument(site: Site, files: Files, d: string)
    requires Sane(site) && Targets(site, files).Some? && d in site.documents
    requires Targets(site, Written(site, files)).Some?
    ensures SameAt(Written(site, files), Written(site, Written(site, files)), d)
  {
    var once := Written(site, files);
    DocumentSettles(site, files, d);
    WrittenAt(site, files, d);
    DocumentSettles(site, once, d);
    WrittenAt(site, once, d);
    hide Splice, First, Rows, Written, Mapped, Targets;
  }

  /** With nothing stale a write changes nothing. */
  lemma NothingStale(site: Site, files: Files)
    requires Targets(site, files).Some? && Stale(files, Targets(site, files).value) == {}
    ensures Written(site, files) == files
  {
    var t := Targets(site, files).value;
    forall rel | rel in t ensures rel in files && files[rel] == t[rel] {
      assert rel !in Stale(files, t);
    }
    hide Targets;
  }

  // ---- one write suffices when the definitions stay ---------------------------------

  /** Nothing is stale after one write if the invariant rows are the same before and after it. */
  lemma OneWriteSuffices(site: Site, files: Files)
    requires Sane(site) && Targets(site, files).Some?
    requires Rows(site, Written(site, files)) == Rows(site, files)
    ensures var after := Written(site, files);
      && Targets(site, after).Some? && Stale(after, Targets(site, after).value) == {}
      && Written(site, after) == after
  {
    StaleAfterOneWrite(site, files);
    NothingStale(site, Written(site, files));
  }

  // ---- a region and what is around it ----------------------------------------------------

  lemma RegionText(head: string, begin: string, inner: string, end: string, tail: string)
    ensures head + begin + ("\n" + inner) + end + tail == (head + begin + "\n") + (inner + (end + tail))
    ensures head + begin + "\n" + inner + end + tail == (head + begin + "\n") + (inner + (end + tail))
  {
  }

  /** The definitions of a document are those before its region, in it, and after it. */
  lemma RegionRows(head: string, begin: string, inner: string, end: string, tail: string, doc: string)
    requires Closed(inner)
    ensures DocRows(head + begin + "\n" + inner + end + tail, doc) ==
      DocRows(head + begin + "\n", doc) + (DocRows(inner, doc) + DocRows(end + tail, doc))
  {
    RegionText(head, begin, inner, end, tail);
    var first := head + begin + "\n";
    assert first[|first| - 1] == '\n';
    hide DocRows, Lines;
    RowsJoin(first, inner + (end + tail), doc);
    RowsJoin(inner, end + tail, doc);
  }

  // ---- definitions in and out of regions ------------------------------------------------

  /** A document's region as a write leaves it: `inner` on lines of its own. */
  predicate RegionOf(text: string, head: string, inner: string, tail: string) {
    && Region(text, SOURCEMAP_BEGIN, SOURCEMAP_END, head, "\n" + inner, tail)
    && Closed(inner)
  }

  /** Splicing changes a document's definitions only by those inside the region. */
  lemma SplicedRows(text: string, body: string, d: string, head: string, inner: string, tail: string)
    requires RegionOf(text, head, inner, tail) && Closed(body)
    ensures var after := Splice(text, SOURCEMAP_BEGIN, SOURCEMAP_END, body);
      && after.Ok?
      && (multiset(DocRows(after.text, d)) == multiset(DocRows(text, d)) <==>
            multiset(DocRows(inner, d)) == multiset(DocRows(body, d)))
  {
    TheMarkersPair();
    SpliceInRegion(text, SOURCEMAP_BEGIN, SOURCEMAP_END, head, "\n" + inner, tail, body);
    RegionText(head, SOURCEMAP_BEGIN, inner, SOURCEMAP_END, tail);
    hide Splice, DocRows, Region, Pair;
    RegionRows(head, SOURCEMAP_BEGIN, inner, SOURCEMAP_END, tail, d);
    RegionRows(head, SOURCEMAP_BEGIN, body, SOURCEMAP_END, tail, d);
    MiddleDecides(DocRows(head + SOURCEMAP_BEGIN + "\n", d), DocRows(inner, d), DocRows(body, d),
      DocRows(SOURCEMAP_END + tail, d));
  }

  lemma MiddleDecides(a: seq<Row>, b: seq<Row>, c: seq<Row>, z: seq<Row>)
    ensures multiset(a + (b + z)) == multiset(a + (c + z)) <==> multiset(b) == multiset(c)
  {
    if multiset(a + (b + z)) == multiset(a + (c + z)) {
      forall r: Row ensures multiset(b)[r] == multiset(c)[r] {
        assert multiset(a + (b + z))[r] == multiset(a)[r] + multiset(b)[r] + multiset(z)[r];
        assert multiset(a + (c + z))[r] == multiset(a)[r] + multiset(c)[r] + multiset(z)[r];
      }
    }
  }

  predicate Distinct(docs: seq<string>) { forall i, j :: 0 <= i < j < |docs| ==> docs[i] != docs[j] }

  function RowsIn(files: Files, d: string): seq<Row> {
    if d in files then DocRows(files[d], d) else []
  }

  lemma {:induction false} HomeOfLines(lines: seq<string>, d: string, r: Row)
    requires r in LineRows(lines, d)
    ensures r.home == d
  {
    if lines != [] && r in LineRows(lines[..|lines| - 1], d) {
      HomeOfLines(lines[..|lines| - 1], d, r);
    }
  }

  lemma HomeOfRow(files: Files, d: string, r: Row)
    ensures multiset(RowsIn(files, d))[r] > 0 ==> r.home == d
  {
    if r in RowsIn(files, d) {
      HomeOfLines(Lines(files[d]), d, r);
    }
  }

  /** A row is found exactly in its home document. */
  lemma {:induction false} FoundAtHome(files: Files, docs: seq<string>, r: Row)
    requires Distinct(docs)
    ensures multiset(Found(files, docs))[r] == if r.home in docs then multiset(RowsIn(files, r.home))[r] else 0
    decreases |docs|
  {
    if docs != [] {
      var front, d := docs[..|docs| - 1], docs[|docs| - 1];
      assert docs == front + [d];
      FoundAtHome(files, front, r);
      HomeOfRow(files, d, r);
      assert Found(files, docs) == Found(files, front) + RowsIn(files, d);
      hide DocRows, Found, RowsIn;
    }
  }

  /** The index stays the same exactly when every document keeps its own definitions. */
  lemma RowsStayIff(site: Site, f: Files, g: Files)
    requires Distinct(site.documents)
    ensures Rows(site, f) == Rows(site, g) <==>
      forall d :: d in site.documents ==> multiset(RowsIn(f, d)) == multiset(RowsIn(g, d))
  {
    var a, b := Found(f, site.documents), Found(g, site.documents);
    SortRowsSorts(a);
    SortRowsSorts(b);
    if multiset(a) == multiset(b) {
      SortedIsUnique(SortRows(a), SortRows(b));
    }
    assert Rows(site, f) == Rows(site, g) <==> multiset(a) == multiset(b);
    hide SortRows, Found, RowsIn, Rows, SortedRows;
    forall r: Row
      ensures multiset(a)[r] == if r.home in site.documents then multiset(RowsIn(f, r.home))[r] else 0
      ensures multiset(b)[r] == if r.home in site.documents then multiset(RowsIn(g, r.home))[r] else 0
    {
      FoundAtHome(f, site.documents, r);
      FoundAtHome(g, site.documents, r);
    }
    ByHome(site.documents, f, g, multiset(a), multiset(b));
  }

  lemma ByHome(docs: seq<string>, f: Files, g: Files, a: multiset<Row>, b: multiset<Row>)
    requires forall r: Row :: a[r] == if r.home in docs then multiset(RowsIn(f, r.home))[r] else 0
    requires forall r: Row :: b[r] == if r.home in docs then multiset(RowsIn(g, r.home))[r] else 0
    ensures a == b <==> forall d :: d in docs ==> multiset(RowsIn(f, d)) == multiset(RowsIn(g, d))
  {
    hide RowsIn;
    if a == b {
      forall d | d in docs ensures multiset(RowsIn(f, d)) == multiset(RowsIn(g, d)) {
        forall r: Row ensures multiset(RowsIn(f, d))[r] == multiset(RowsIn(g, d))[r] {
          HomeOfRow(f, d, r);
          HomeOfRow(g, d, r);
          assert a[r] == b[r];
        }
      }
    }
    if forall d :: d in docs ==> multiset(RowsIn(f, d)) == multiset(RowsIn(g, d)) {
      forall r: Row ensures a[r] == b[r] {}
    }
  }

  // ---- the exact condition ------------------------------------------------------------

  /** Every region is on lines of its own, `inner` being what each holds now. */
  predicate Regular(site: Site, files: Files, inner: string -> string, head: string -> string, tail: string -> string) {
    forall d :: d in site.documents && Mapped(site, files, d) ==>
      RegionOf(files[d], head(d), inner(d), tail(d)) && Closed(site.sourcemap(d))
  }

  /** The index is the same before and after a write exactly when each region held the definitions that
      its new body holds: a definition belongs outside the generated regions. */
  lemma IndexStaysIff(site: Site, files: Files, inner: string -> string, head: string -> string, tail: string -> string)
    requires Sane(site) && Distinct(site.documents) && Targets(site, files).Some?
    requires Regular(site, files, inner, head, tail)
    ensures Rows(site, Written(site, files)) == Rows(site, files) <==>
      forall d :: d in site.documents && Mapped(site, files, d) ==>
        multiset(DocRows(inner(d), d)) == multiset(DocRows(site.sourcemap(d), d))
  {
    var after := Written(site, files);
    RowsStayIff(site, after, files);
    forall d | d in site.documents
      ensures multiset(RowsIn(after, d)) == multiset(RowsIn(files, d)) <==>
        (Mapped(site, files, d) ==> multiset(DocRows(inner(d), d)) == multiset(DocRows(site.sourcemap(d), d)))
    {
      DocumentRows(site, files, inner, head, tail, d);
    }
    hide Rows, Written, RowsIn, DocRows, Mapped, Targets;
  }

  lemma DocumentRows(site: Site, files: Files, inner: string -> string, head: string -> string, tail: string -> string,
                     d: string)
    requires Sane(site) && Targets(site, files).Some? && Regular(site, files, inner, head, tail) && d in site.documents
    ensures multiset(RowsIn(Written(site, files), d)) == multiset(RowsIn(files, d)) <==>
      (Mapped(site, files, d) ==> multiset(DocRows(inner(d), d)) == multiset(DocRows(site.sourcemap(d), d)))
  {
    DocumentSettles(site, files, d);
    WrittenAt(site, files, d);
    if Mapped(site, files, d) {
      SplicedRows(files[d], site.sourcemap(d), d, head(d), inner(d), tail(d));
    }
    hide Splice, First, Rows, Written, DocRows, Targets, RegionOf;
  }

  /** With no definition in a region or in a generated body, one write leaves nothing stale. */
  lemma WriteIsAFixpoint(site: Site, files: Files, inner: string -> string, head: string -> string, tail: string -> string)
    requires Sane(site) && Distinct(site.documents) && Targets(site, files).Some?
    requires Regular(site, files, inner, head, tail)
    requires forall d :: d in site.documents && Mapped(site, files, d) ==>
      DocRows(inner(d), d) == [] && DocRows(site.sourcemap(d), d) == []
    ensures var after := Written(site, files);
      && Targets(site, after).Some? && Stale(after, Targets(site, after).value) == {}
      && Written(site, after) == after
  {
    IndexStaysIff(site, files, inner, head, tail);
    hide Rows, Written, DocRows, Mapped, Targets;
    OneWriteSuffices(site, files);
  }

  // ---- what is stale after one write, exactly ---------------------------------------------

  /** The manifest refuses a path with whitespace in it. */
  predicate PlainPaths(site: Site) { forall d :: d in site.documents ==> Spaceless(d) }

  /** Different rows differ in the text of some shard. */
  lemma ShardsTellRowsApart(site: Site, f: Files, g: Files)
    requires PlainPaths(site)
    ensures (forall p :: p in PATHS ==> ShardText(site, Rows(site, f), p) == ShardText(site, Rows(site, g), p)) <==>
      Rows(site, f) == Rows(site, g)
  {
    FoundShowable(f, site.documents);
    FoundShowable(g, site.documents);
    hide SortRows, Found, AllShowable, PATHS, TableText, ShardAt;
    if forall p :: p in PATHS ==> ShardText(site, Rows(site, f), p) == ShardText(site, Rows(site, g), p) {
      forall p | p in PATHS ensures TableText(ShardAt(Rows(site, f), p)) == TableText(ShardAt(Rows(site, g), p)) {
        SamePreamble(site.preamble(p), TableText(ShardAt(Rows(site, f), p)), TableText(ShardAt(Rows(site, g), p)));
      }
      TablesTellIndexesApart(Found(f, site.documents), Found(g, site.documents));
    }
  }

  lemma SamePreamble(p: string, x: string, y: string)
    requires p + x == p + y
    ensures x == y
  {
    CutEnds(p, x, y, "");
  }

  /** One write suffices exactly when it leaves the index as it was. */
  lemma NothingStaleIffIndexStays(site: Site, files: Files)
    requires Sane(site) && PlainPaths(site) && Targets(site, files).Some?
    ensures var after := Written(site, files);
      && Targets(site, after).Some?
      && (Stale(after, Targets(site, after).value) == {} <==> Rows(site, after) == Rows(site, files))
  {
    var after := Written(site, files);
    StaleAfterOneWrite(site, files);
    ShardsTellRowsApart(site, after, files);
    hide ShardText, Rows, Written, PATHS, Targets, Stale, Sane;
    var stale := set p | p in PATHS && ShardText(site, Rows(site, after), p) != ShardText(site, Rows(site, files), p);
    if stale == {} {
      forall p | p in PATHS ensures ShardText(site, Rows(site, after), p) == ShardText(site, Rows(site, files), p) {
        assert p !in stale;
      }
    }
  }

  /** And that is so exactly when each region held the definitions that its new body holds. */
  lemma NothingStaleIff(site: Site, files: Files, inner: string -> string, head: string -> string, tail: string -> string)
    requires Sane(site) && Distinct(site.documents) && PlainPaths(site) && Targets(site, files).Some?
    requires Regular(site, files, inner, head, tail)
    ensures var after := Written(site, files);
      && Targets(site, after).Some?
      && (Stale(after, Targets(site, after).value) == {} <==>
            forall d :: d in site.documents && Mapped(site, files, d) ==>
              multiset(DocRows(inner(d), d)) == multiset(DocRows(site.sourcemap(d), d)))
  {
    hide Rows, Written, Mapped, Targets, Stale, Sane, DocRows, Regular;
    NothingStaleIffIndexStays(site, files);
    IndexStaysIff(site, files, inner, head, tail);
  }

  // ---- a definition inside a region -------------------------------------------------------

  const NOTE := "<!-- generated by " + ("scripts/verify_docs.py " + "--write-nav; do not hand-edit -->")

  /** The region generated for a document that covers one file. */
  const BODY := NOTE + "\n\n**Source**\n- `scripts/verify_docs.py`\n"

  const DEFINED := "**INV-A-1**: x"

  /** A document that is nothing but a region with a definition written into it. */
  const HANDMADE := "" + SOURCEMAP_BEGIN + ("\n" + (DEFINED + "\n")) + SOURCEMAP_END + "\n"

  function OneDocument(d: string, llms: string, preamble: string -> string): Site {
    Site([d], llms, "", _ => BODY, preamble)
  }

  lemma NoMarkerIn(w: string, begin: string, end: string)
    requires Pair(begin, end) && Without(w, '<')
    ensures Free(w, begin, end)
  {
    CountSkips(w, "", begin);
    CountSkips(w, "", end);
    assert w + "" == w;
  }

  lemma BodyIsOneMark()
    ensures Without(BODY[1..], '<')
  {
    var x, y, z := "<!-- generated by ", "scripts/verify_docs.py ", "--write-nav; do not hand-edit -->";
    var rest := "\n\n**Source**\n- `scripts/verify_docs.py`\n";
    assert Without(x[1..], '<') && Without(y, '<') && Without(z, '<') && Without(rest, '<');
    assert BODY == x + (y + z) + rest;
    hide Without, BODY;
    Joined(x[1..], y, z, rest, '<');
    TailOfJoin(x, y + z, rest);
  }

  lemma TailOfJoin(x: string, y: string, z: string)
    requires x != ""
    ensures (x + y + z)[1..] == x[1..] + y + z
  {
  }

  lemma BodyDefinesNothing(d: string)
    ensures DocRows(BODY, d) == []
  {
    var x, y, z := "<!-- generated by ", "scripts/verify_docs.py ", "--write-nav; do not hand-edit -->";
    var rest := "\n\n**Source**\n- `scripts/verify_docs.py`\n";
    assert Without(x, 'I') && Without(y, 'I') && Without(z, 'I') && Without(rest, 'I');
    hide Without, DocRows;
    Joined(x, y, z, rest, 'I');
    NoDefinitions(BODY, d);
  }

  lemma Joined(x: string, y: string, z: string, w: string, c: char)
    requires Without(x, c) && Without(y, c) && Without(z, c) && Without(w, c)
    ensures Without(x + (y + z) + w, c)
  {
    hide Without;
    WithoutJoin(y, z, c);
    WithoutJoin(x, y + z, c);
    WithoutJoin(x + (y + z), w, c);
  }

  lemma BodyIsFree()
    ensures Free(BODY, SOURCEMAP_BEGIN, SOURCEMAP_END)
  {
    TheMarkersPair();
    BodyIsOneMark();
    PrefixAt(SOURCEMAP_BEGIN, BODY, 5);
    PrefixAt(SOURCEMAP_END, BODY, 5);
    assert BODY[0] == '<' && BODY[5] == 'g' && SOURCEMAP_BEGIN[5] == 'B' && SOURCEMAP_END[5] == 'E';
    NoMarkerIn(BODY[1..], SOURCEMAP_BEGIN, SOURCEMAP_END);
  }

  lemma HandmadeRegion()
    ensures RegionOf(HANDMADE, "", DEFINED + "\n", "\n") && First(HANDMADE, SOURCEMAP_BEGIN).Some?
    ensures Splice(HANDMADE, SOURCEMAP_BEGIN, SOURCEMAP_END, BODY).Ok?
  {
    TheMarkersPair();
    NoMarkerIn("", SOURCEMAP_BEGIN, SOURCEMAP_END);
    NoMarkerIn("\n", SOURCEMAP_BEGIN, SOURCEMAP_END);
    NoMarkerIn("\n" + (DEFINED + "\n"), SOURCEMAP_BEGIN, SOURCEMAP_END);
    hide Splice, Count, First, Pair;
    SpliceInRegion(HANDMADE, SOURCEMAP_BEGIN, SOURCEMAP_END, "", "\n" + (DEFINED + "\n"), "\n", BODY);
    RegionCounts(SOURCEMAP_BEGIN, SOURCEMAP_END, "", "\n" + (DEFINED + "\n"), "\n");
    FirstExists(HANDMADE, SOURCEMAP_BEGIN);
  }

  lemma DefinedIsADefinition(d: string)
    ensures DocRows(DEFINED + "\n", d) != []
  {
    OneLine(DEFINED);
    DefinedMatches();
    hide Lines, Definition;
    assert [DEFINED][..0] == [];
  }

  lemma DefinedMatches()
    ensures Definition(DEFINED).Some?
  {
    InboxNames.DigitOfAscii('1');
    assert DEFINED == OPEN + ("A" + ("-" + ("1" + ("**" + ("" + (":" + " x"))))));
    assert Reads(DEFINED, "A", "1", "", " x");
    MatchOfReading(DEFINED, "A", "1", "", " x");
  }

  lemma OneDocumentIs(d: string, llms: string, preamble: string -> string)
    requires d != LLMS && d != README && d !in PATHS && Spaceless(d)
    requires Free(BODY, SOURCEMAP_BEGIN, SOURCEMAP_END) && Free("", ROUTING_BEGIN, ROUTING_END) && Closed(BODY)
    requires RegionOf(HANDMADE, "", DEFINED + "\n", "\n") && First(HANDMADE, SOURCEMAP_BEGIN).Some?
    requires Splice(HANDMADE, SOURCEMAP_BEGIN, SOURCEMAP_END, BODY).Ok?
    ensures var site := OneDocument(d, llms, preamble);
      var files := map[d := HANDMADE];
      && Sane(site) && Distinct(site.documents) && PlainPaths(site) && Targets(site, files).Some?
      && site.documents == [d] && Mapped(site, files, d) && site.sourcemap(d) == BODY
      && Regular(site, files, _ => DEFINED + "\n", _ => "", _ => "\n")
  {
    hide Splice, First, Count, Rows, HANDMADE, BODY, PATHS, RegionOf, Spaceless, Closed;
    assert d in [d];
  }

  /** A definition written into a region is in the index after the first write, though no document
      holds it any more: the write leaves a shard stale. */
  lemma DefinitionInsideARegion(d: string, llms: string, preamble: string -> string)
    requires d != LLMS && d != README && d !in PATHS && Spaceless(d)
    ensures var site := OneDocument(d, llms, preamble);
      var files := map[d := HANDMADE];
      var after := Written(site, files);
      && Sane(site) && Distinct(site.documents) && PlainPaths(site) && Targets(site, files).Some?
      && Targets(site, after).Some? && Stale(after, Targets(site, after).value) != {}
  {
    var site, files := OneDocument(d, llms, preamble), map[d := HANDMADE];
    TheMarkersPair();
    BodyIsFree();
    HandmadeRegion();
    NoMarkerIn("", ROUTING_BEGIN, ROUTING_END);
    BodyDefinesNothing(d);
    DefinedIsADefinition(d);
    assert Closed(BODY) && Closed(DEFINED + "\n");
    hide *;
    OneDocumentIs(d, llms, preamble);
    NothingStaleIff(site, files, _ => DEFINED + "\n", _ => "", _ => "\n");
    assert |multiset(DocRows(DEFINED + "\n", d))| > 0;
  }
}
