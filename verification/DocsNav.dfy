/**
 * The generated navigation: what every artifact should hold, which are stale, and writing them.
 */
module DocsNav {
  import opened Prelude
  import opened DocsSplice
  import opened DocsShards
  import opened DocsIndex

  const LLMS := "llms.txt"
  const README := "README.md"

  /** What the manifest gives: its documents, the texts rendered from it alone, and what stands above
      the table in each shard. */
  datatype Site = Site(
    documents: seq<string>,
    llms: string,
    routing: string,
    sourcemap: string -> string,
    preamble: string -> string)

  /** The sorted invariant rows. */
  function Rows(site: Site, files: Files): seq<Row> { SortRows(Found(files, site.documents)) }

  function ShardText(site: Site, rows: seq<Row>, path: string): string {
    site.preamble(path) + TableText(ShardAt(rows, path))
  }

  // ---- the targets --------------------------------------------------------------

  predicate Mapped(site: Site, files: Files, rel: string) {
    rel in site.documents && rel in files && First(files[rel], SOURCEMAP_BEGIN).Some?
  }

  predicate IsTarget(site: Site, files: Files, rel: string) {
    rel == LLMS || rel in PATHS || (rel == README && README in files) || Mapped(site, files, rel)
  }

  function TargetNames(site: Site, files: Files): set<string> {
    {LLMS} + (set p | p in PATHS) + (if README in files then {README} else {})
    + set d | d in site.documents && Mapped(site, files, d)
  }

  /** A document's own region is written last, so it has the last word on a path. */
  function Expected(site: Site, files: Files, rel: string): Spliced {
    if Mapped(site, files, rel) then Splice(files[rel], SOURCEMAP_BEGIN, SOURCEMAP_END, site.sourcemap(rel))
    else if rel == README && README in files then Splice(files[rel], ROUTING_BEGIN, ROUTING_END, site.routing)
    else if rel in PATHS then Ok(ShardText(site, Rows(site, files), rel))
    else Ok(site.llms)
  }

  predicate AllSplice(site: Site, files: Files) {
    && (README in files ==> Splice(files[README], ROUTING_BEGIN, ROUTING_END, site.routing).Ok?)
    && forall d :: d in site.documents && Mapped(site, files, d) ==> Expected(site, files, d).Ok?
  }

  /** Path to expected content; nothing at all when some file lacks its pair of markers. */
  function Targets(site: Site, files: Files): (t: Option<Files>)
    ensures t.Some? <==> AllSplice(site, files)
  {
    if AllSplice(site, files)
    then Some(map rel | rel in TargetNames(site, files) :: Expected(site, files, rel).text)
    else None
  }

  function ShardMap(site: Site, rows: seq<Row>, paths: seq<string>): Files {
    map rel | rel in paths :: ShardText(site, rows, rel)
  }

  function RegionMap(site: Site, files: Files, docs: seq<string>): Files
    requires forall d :: d in docs && Mapped(site, files, d) ==> Expected(site, files, d).Ok?
  {
    map d | d in docs && Mapped(site, files, d) :: Expected(site, files, d).text
  }

  /** The dictionary is built in this order, a later entry replacing an earlier one. */
  lemma TargetsCompose(site: Site, files: Files)
    requires AllSplice(site, files)
    ensures forall d :: d in site.documents && Mapped(site, files, d) ==> Expected(site, files, d).Ok?
    ensures var plain := map[LLMS := site.llms] + ShardMap(site, Rows(site, files), PATHS);
      var more := if README in files
        then plain[README := Splice(files[README], ROUTING_BEGIN, ROUTING_END, site.routing).text] else plain;
      Targets(site, files) == Some(more + RegionMap(site, files, site.documents))
  {
    hide Splice, First, Rows, Mapped;
    forall rel | Mapped(site, files, rel) ensures rel in site.documents {
      MappedIsDocument(site, files, rel);
    }
    var plain := map[LLMS := site.llms] + ShardMap(site, Rows(site, files), PATHS);
    var more := if README in files
      then plain[README := Splice(files[README], ROUTING_BEGIN, ROUTING_END, site.routing).text] else plain;
    var all := more + RegionMap(site, files, site.documents);
    assert all.Keys == TargetNames(site, files);
    forall rel | rel in all ensures Expected(site, files, rel).Ok? && all[rel] == Expected(site, files, rel).text {
      assert rel in RegionMap(site, files, site.documents) <==> Mapped(site, files, rel);
    }
    assert all == map rel | rel in TargetNames(site, files) :: Expected(site, files, rel).text;
  }

  lemma MappedIsDocument(site: Site, files: Files, rel: string)
    requires Mapped(site, files, rel)
    ensures rel in site.documents && rel in files
  {
  }

  predicate Differs(files: Files, targets: Files, rel: string) {
    rel in targets && !(rel in files && files[rel] == targets[rel])
  }

  function Stale(files: Files, targets: Files): set<string> {
    set rel | rel in targets && Differs(files, targets, rel)
  }

  /** The stale artifacts among those visited. */
  function StaleBut(files: Files, targets: Files, left: set<string>): set<string> {
    set rel | rel in targets && rel !in left && Differs(files, targets, rel)
  }

  /** The tree when the targets in `left` are still to be written. */
  function WrittenBut(files: Files, targets: Files, left: set<string>): Files {
    files + (map rel | rel in targets && rel !in left :: targets[rel])
  }

  lemma VisitBounds(files: Files, targets: Files)
    ensures StaleBut(files, targets, targets.Keys) == {} && StaleBut(files, targets, {}) == Stale(files, targets)
    ensures WrittenBut(files, targets, targets.Keys) == files && WrittenBut(files, targets, {}) == files + targets
  {
    hide Differs;
    assert (map rel | rel in targets && rel !in {} :: targets[rel]) == targets;
  }

  lemma Visit(files: Files, targets: Files, left: set<string>, rel: string)
    requires rel in left && rel in targets
    ensures Differs(files, targets, rel) ==> StaleBut(files, targets, left - {rel}) == StaleBut(files, targets, left) + {rel}
    ensures !Differs(files, targets, rel) ==> StaleBut(files, targets, left - {rel}) == StaleBut(files, targets, left)
  {
    hide Differs;
  }

  lemma VisitWrites(files: Files, targets: Files, left: set<string>, rel: string)
    requires rel in left && rel in targets
    ensures Differs(WrittenBut(files, targets, left), targets, rel) <==> Differs(files, targets, rel)
    ensures var half := WrittenBut(files, targets, left);
      WrittenBut(files, targets, left - {rel}) == if Differs(half, targets, rel) then half[rel := targets[rel]] else half
  {
    var half := WrittenBut(files, targets, left);
    assert rel in half <==> rel in files;
    assert rel in half ==> half[rel] == files[rel];
    var next := WrittenBut(files, targets, left - {rel});
    assert next == half[rel := targets[rel]];
    if !Differs(half, targets, rel) {
      assert half[rel := targets[rel]] == half;
    }
  }

  /** The tree after the targets have been written. */
  function Written(site: Site, files: Files): Files {
    match Targets(site, files)
    case None => files
    case Some(t) => files + t
  }

  // ---- the operations -------------------------------------------------------------

  class DocsTree {
    const site: Site
    var files: Files

    constructor (s: Site, f: Files)
      ensures site == s && files == f
    {
      site, files := s, f;
    }

    method ShardTargets(paths: seq<string>) returns (t: Files)
      ensures t == ShardMap(site, Rows(site, files), paths)
    {
      hide Rows;
      var rows := Rows(site, files);
      t := map[];
      for k := 0 to |paths|
        invariant t == ShardMap(site, rows, paths[..k])
      {
        assert paths[..k + 1] == paths[..k] + [paths[k]];
        t := t[paths[k] := ShardText(site, rows, paths[k])];
      }
      assert paths[..|paths|] == paths;
    }

    method RegionTargets(docs: seq<string>) returns (t: Option<Files>)
      requires forall d :: d in docs ==> d in site.documents
      ensures t == if (forall d :: d in docs && Mapped(site, files, d) ==> Expected(site, files, d).Ok?)
        then Some(RegionMap(site, files, docs)) else None
    {
      hide Splice, First, Rows;
      var done: Files := map[];
      for k := 0 to |docs|
        invariant forall d :: d in docs[..k] && Mapped(site, files, d) ==> Expected(site, files, d).Ok?
        invariant done == RegionMap(site, files, docs[..k])
      {
        var d := docs[k];
        assert docs[..k + 1] == docs[..k] + [d];
        if Mapped(site, files, d) {
          var spliced := Splice(files[d], SOURCEMAP_BEGIN, SOURCEMAP_END, site.sourcemap(d));
          assert spliced == Expected(site, files, d) && d in docs;
          if spliced.Err? {
            return None;
          }
          done := done[d := spliced.text];
        }
      }
      assert docs[..|docs|] == docs;
      return Some(done);
    }

    /** Every artifact is rendered from the tree as it is, before any is written. */
    method NavTargets() returns (t: Option<Files>)
      ensures t == Targets(site, files)
    {
      hide Splice, First, Rows, Expected, Mapped;
      var shards := ShardTargets(PATHS);
      var targets := map[LLMS := site.llms] + shards;
      if README in files {
        var spliced := Splice(files[README], ROUTING_BEGIN, ROUTING_END, site.routing);
        if spliced.Err? {
          return None;
        }
        targets := targets[README := spliced.text];
      }
      var regions := RegionTargets(site.documents);
      if regions == None {
        return None;
      }
      TargetsCompose(site, files);
      return Some(targets + regions.value);
    }

    method StaleNav() returns (stale: Option<set<string>>)
      ensures stale == match Targets(site, files) case None => None case Some(t) => Some(Stale(files, t))
    {
      hide Targets;
      var targets := NavTargets();
      if targets == None {
        return None;
      }
      var t := targets.value;
      hide StaleBut, Stale;
      VisitBounds(files, t);
      var left, found: set<string> := t.Keys, {};
      while left != {}
        invariant left <= t.Keys && found == StaleBut(files, t, left)
        decreases |left|
      {
        var rel :| rel in left;
        Visit(files, t, left, rel);
        if !(rel in files && files[rel] == t[rel]) {
          found := found + {rel};
        }
        left := left - {rel};
      }
      return Some(found);
    }

    /** Writes only what differs; fails before the first write or not at all. */
    method WriteNav() returns (changed: Option<set<string>>)
      modifies this
      ensures files == Written(site, old(files))
      ensures changed == match Targets(site, old(files)) case None => None case Some(t) => Some(Stale(old(files), t))
    {
      hide Targets;
      var targets := NavTargets();
      if targets == None {
        return None;
      }
      var t := targets.value;
      ghost var was := files;
      hide StaleBut, Stale, WrittenBut;
      VisitBounds(was, t);
      var left, found: set<string> := t.Keys, {};
      while left != {}
        invariant left <= t.Keys && files == WrittenBut(was, t, left) && found == StaleBut(was, t, left)
        decreases |left|
      {
        var rel :| rel in left;
        Visit(was, t, left, rel);
        VisitWrites(was, t, left, rel);
        if !(rel in files && files[rel] == t[rel]) {
          files := files[rel := t[rel]];
          found := found + {rel};
        }
        left := left - {rel};
      }
      return Some(found);
    }
  }
}
