/**
 * The size ratchet on the documentation: a change is judged against the commit it is based on.
 */
module DocsCeilings {
  import opened Prelude

  const CEILING_BYTES := 25_000
  const INDEX_CEILING_BYTES := 40_000

  /** What a path is in a commit; `blob` stands for content and mode. */
  datatype Node = File(size: nat, blob: int) | Link(size: nat, blob: int) | Directory

  /** A manifest row as parsed; `rest` stands for every other field. */
  datatype Row = Row(kind: Option<string>, rest: int)

  datatype Snapshot = Snapshot(nodes: map<string, Node>, rows: map<string, Row>)

  /** What can be read: the base commit, its manifest, the tree's manifest, the diff; and the paths
      whose size at the base cannot be. */
  datatype Reads = Reads(commit: bool, baseRows: bool, treeRows: bool, diff: bool, unreadable: set<string>)

  const ALL_READABLE := Reads(true, true, true, true, {})

  datatype Reason = UnreadableAtBase | BornOver | NoDiff | RowsUnreadable | TouchedOver
  datatype Problem = BaseUnresolved | ManifestUnreadable | Of(doc: string, reason: Reason)
  datatype Finding = Silent | Notice | Fails(reason: Reason)

  function Get<V>(m: map<string, V>, k: string): Option<V> { if k in m then Some(m[k]) else None }

  /** A row without a kind is a document's. */
  function BudgetOf(row: Row): nat {
    if row.kind == None || row.kind == Some("document") then CEILING_BYTES else INDEX_CEILING_BYTES
  }

  /** The ceiling of a path in a commit: 25 KB for a document, 40 KB for an index. */
  function CeilingIn(s: Snapshot, doc: string): nat {
    if doc !in s.rows then 0
    else if s.rows[doc].kind == None || s.rows[doc].kind == Some("document") then 25_000
    else 40_000
  }

  /** A manifested regular file larger than its kind allows. */
  predicate Over(s: Snapshot, doc: string) {
    doc in s.rows && doc in s.nodes && s.nodes[doc].File? && s.nodes[doc].size > CeilingIn(s, doc)
  }

  predicate Untouched(base: Snapshot, head: Snapshot, doc: string) {
    Get(base.nodes, doc) == Get(head.nodes, doc) && Get(base.rows, doc) == Get(head.rows, doc)
  }

  // ---- the check --------------------------------------------------------------

  /** One pass of the loop over the manifest's entries. */
  method Judge(base: Option<Snapshot>, head: Snapshot, doc: string, seen: Reads) returns (f: Finding)
    requires doc in head.rows
    ensures f == Verdict(base, head, doc, seen)
  {
    if doc !in head.nodes || !head.nodes[doc].File? {
      return Silent;
    }
    var budget := BudgetOf(head.rows[doc]);
    if head.nodes[doc].size <= budget {
      return Silent;
    }
    if base.None? {
      return Notice;
    }
    var b := base.value;
    if doc in seen.unreadable || (doc in b.nodes && b.nodes[doc].Directory?) {
      return Fails(UnreadableAtBase);
    }
    if doc !in b.nodes {
      return Fails(BornOver);
    }
    if b.nodes[doc].size <= budget {
      return Notice;
    }
    if !seen.diff {
      return Fails(NoDiff);
    }
    var rowTouched := true;
    if b.nodes[doc] == head.nodes[doc] {
      if !seen.treeRows {
        return Fails(RowsUnreadable);
      }
      rowTouched := Get(b.rows, doc) != Get(head.rows, doc);
    }
    return if rowTouched then Fails(TouchedOver) else Notice;
  }

  /** The verdict by what is the case: nothing for a document within its ceiling; otherwise refused
      unless it was within that ceiling at the base, or lies there untouched, both seen to be so. */
  function Verdict(base: Option<Snapshot>, head: Snapshot, doc: string, seen: Reads): Finding {
    if !Over(head, doc) then Silent
    else if base.None? then Notice
    else
      var node, budget := Get(base.value.nodes, doc), BudgetOf(head.rows[doc]);
      if doc in seen.unreadable || node == Some(Directory) then Fails(UnreadableAtBase)
      else if node == None then Fails(BornOver)
      else if node.value.size <= budget then Notice
      else if !seen.diff then Fails(NoDiff)
      else if Get(head.nodes, doc) == node && !seen.treeRows then Fails(RowsUnreadable)
      else if Untouched(base.value, head, doc) then Notice
      else Fails(TouchedOver)
  }

  method CheckCeilings(manifest: bool, base: Option<Snapshot>, head: Snapshot, entries: seq<string>, seen: Reads)
    returns (problems: seq<Problem>, notices: seq<string>)
    requires forall i :: 0 <= i < |entries| ==> entries[i] in head.rows
    ensures !manifest ==> problems == [] && notices == []
    ensures manifest && base.Some? && !seen.commit ==> problems == [BaseUnresolved] && notices == []
    ensures manifest && base.Some? && seen.commit && !seen.baseRows ==> problems == [ManifestUnreadable] && notices == []
    ensures manifest && (base.None? || (seen.commit && seen.baseRows)) ==>
      && (forall p :: p in problems <==>
            p.Of? && p.doc in entries && Verdict(base, head, p.doc, seen) == Fails(p.reason))
      && (forall d :: d in notices <==> d in entries && Verdict(base, head, d, seen) == Notice)
  {
    problems, notices := [], [];
    if !manifest {
      return;
    }
    if base.Some? && !seen.commit {
      return [BaseUnresolved], [];
    }
    if base.Some? && !seen.baseRows {
      return [ManifestUnreadable], [];
    }
    for i := 0 to |entries|
      invariant forall p :: p in problems <==>
        p.Of? && p.doc in entries[..i] && Verdict(base, head, p.doc, seen) == Fails(p.reason)
      invariant forall d :: d in notices <==> d in entries[..i] && Verdict(base, head, d, seen) == Notice
    {
      var f := Judge(base, head, entries[i], seen);
      hide Verdict;
      assert entries[..i + 1] == entries[..i] + [entries[i]];
      if f.Fails? {
        problems := problems + [Of(entries[i], f.reason)];
      } else if f.Notice? {
        notices := notices + [entries[i]];
      }
    }
    assert entries[..|entries|] == entries;
  }

  // ---- what an accepted change is -------------------------------------------------

  /** No entry fails, everything being readable. */
  predicate Accepted(base: Snapshot, head: Snapshot) {
    forall d :: d in head.rows ==> !Verdict(Some(base), head, d, ALL_READABLE).Fails?
  }

  /** A change is accepted exactly when each document over its ceiling was there before, and either
      fitted under that ceiling then or has neither its file nor its row changed. */
  lemma AcceptedMeans(base: Snapshot, head: Snapshot)
    ensures Accepted(base, head) <==> forall d :: Over(head, d) ==>
      && d in base.nodes && !base.nodes[d].Directory?
      && (base.nodes[d].size <= CeilingIn(head, d) || Untouched(base, head, d))
  {
    if Accepted(base, head) {
      forall d | Over(head, d)
        ensures d in base.nodes && !base.nodes[d].Directory?
        ensures base.nodes[d].size <= CeilingIn(head, d) || Untouched(base, head, d)
      {
        assert !Verdict(Some(base), head, d, ALL_READABLE).Fails?;
      }
    }
  }

  /** Why a document is refused, and when it is only noticed: each verdict by what is the case. */
  lemma VerdictsMean(base: Snapshot, head: Snapshot, doc: string, seen: Reads)
    requires doc in head.rows
    ensures var v := Verdict(Some(base), head, doc, seen); var over := Over(head, doc);
      var lost := doc in seen.unreadable || (doc in base.nodes && base.nodes[doc].Directory?);
      var was := over && !lost && doc in base.nodes && base.nodes[doc].size > CeilingIn(head, doc);
      var sameFile := doc in base.nodes && doc in head.nodes && base.nodes[doc] == head.nodes[doc];
      && (v == Silent <==> !over)
      && (v == Fails(UnreadableAtBase) <==> over && lost)
      && (v == Fails(BornOver) <==> over && !lost && doc !in base.nodes)
      && (v == Fails(NoDiff) <==> was && !seen.diff)
      && (v == Fails(RowsUnreadable) <==> was && seen.diff && sameFile && !seen.treeRows)
      && (v == Fails(TouchedOver) <==> was && seen.diff && (sameFile ==> seen.treeRows) && !Untouched(base, head, doc))
    ensures Verdict(None, head, doc, seen) == if Over(head, doc) then Notice else Silent
  {
  }

  /** Not being able to read is never taken for acceptance. */
  lemma UnreadableIsRefused(base: Snapshot, head: Snapshot, doc: string, seen: Reads)
    requires doc in head.rows && !Verdict(Some(base), head, doc, seen).Fails?
    ensures !Verdict(Some(base), head, doc, ALL_READABLE).Fails?
  {
  }

  predicate AcceptedRun(run: seq<Snapshot>) {
    forall i :: 0 <= i < |run| - 1 ==> Accepted(run[i], run[i + 1])
  }

  /** Between two commits that both have the document over its ceiling, it is left as it was exactly
      when its old size is over the new commit's ceiling for it. */
  lemma OverAndOverIsUntouched(base: Snapshot, head: Snapshot, d: string)
    requires Accepted(base, head) && Over(base, d) && Over(head, d)
    ensures Untouched(base, head, d) <==> base.nodes[d].size > CeilingIn(head, d)
  {
    AcceptedMeans(base, head);
  }

  /** While a document stays over a ceiling that is not raised for it, neither its file nor its row
      changes. */
  lemma {:induction false} OverStaysAsItWas(run: seq<Snapshot>, i: nat, j: nat, d: string)
    requires AcceptedRun(run) && i <= j < |run|
    requires forall k :: i <= k <= j ==> Over(run[k], d)
    requires forall k, l :: i <= k < l <= j ==> CeilingIn(run[l], d) <= CeilingIn(run[k], d)
    ensures Untouched(run[i], run[j], d)
    decreases j - i
  {
    if i < j {
      OverStaysAsItWas(run, i, j - 1, d);
      var k := j - 1;
      assert Accepted(run[k], run[k + 1]);
      assert CeilingIn(run[j], d) <= CeilingIn(run[k], d);
      hide CeilingIn, Accepted;
      OverAndOverIsUntouched(run[j - 1], run[j], d);
    }
  }

  /** No path is over its ceiling in the commit that first has it. */
  lemma NotBornOver(run: seq<Snapshot>, j: nat, d: string)
    requires AcceptedRun(run) && 0 < j < |run| && Over(run[j], d)
    ensures d in run[j - 1].nodes
  {
    var k := j - 1;
    assert Accepted(run[k], run[k + 1]);
    AcceptedMeans(run[j - 1], run[j]);
  }

  /** The ceiling is the tree's, so a row's change of kind lets an oversized document grow further. */
  lemma ChangeOfKindEscapes(d: string)
    ensures exists base, head ::
      Accepted(base, head) && Over(base, d) && Over(head, d) && base.nodes[d] != head.nodes[d]
  {
    var base := Snapshot(map[d := File(30_000, 0)], map[d := Row(Some("document"), 0)]);
    var head := Snapshot(map[d := File(45_000, 1)], map[d := Row(Some("index"), 0)]);
    assert Some("index") != Some("document") by {
      assert |"index"| != |"document"|;
    }
    assert BudgetOf(head.rows[d]) == INDEX_CEILING_BYTES;
    assert Accepted(base, head) && Over(base, d) && Over(head, d);
  }
}
