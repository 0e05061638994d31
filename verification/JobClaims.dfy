/**
 * Starting a background job: the two claim maps that close the window before the job's
 * record exists, and the check against the records that already occupy a plugin.
 */
module JobClaims {
  import opened Prelude

  /** One row of an engagement's pinned artifacts. */
  datatype Artifact = Artifact(name: string, manifestName: string)

  /** An engagement record as the job guards read it.  `qualified` is the job's qualified name
      (`None` for an engagement that is not a job); `recorded` is the registry identity a record
      of today carries, absent from the oldest ones. */
  datatype Record = Record(live: bool, terminalPending: bool, qualified: Option<string>,
                           recorded: Option<string>, artifacts: seq<Artifact>)

  datatype Claim = Claim(job: string, title: string)

  /** A record whose strict terminal write is pending still occupies: a failed write puts it back live. */
  predicate Occupies(r: Record) { r.live || r.terminalPending }

  predicate IsJob(r: Record) { Occupies(r) && r.qualified.Some? }

  /** The text before the first colon. */
  function ManifestName(qualified: string): string {
    if qualified == "" || qualified[0] == ':' then "" else [qualified[0]] + ManifestName(qualified[1..])
  }

  /** The declaration side of that name: no manifest name contains a colon, so it reads back. */
  lemma {:induction false} ManifestNameReadsBack(manifest: string, job: string)
    requires ':' !in manifest
    ensures ManifestName(manifest + ":" + job) == manifest
  {
    if manifest == "" {
      assert (manifest + ":" + job)[0] == ':';
    } else {
      ManifestNameReadsBack(manifest[1..], job);
      assert (manifest + ":" + job)[1..] == manifest[1..] + ":" + job;
    }
  }

  /** `manifest` is the side of `qualified` before its first colon, or all of it. */
  predicate IsManifestOf(manifest: string, qualified: string) {
    ':' !in manifest && (qualified == manifest || manifest + ":" <= qualified)
  }

  lemma {:induction false} ManifestNameIs(qualified: string, manifest: string)
    ensures ManifestName(qualified) == manifest <==> IsManifestOf(manifest, qualified)
  {
    if qualified != "" && qualified[0] != ':' {
      if manifest != "" {
        ManifestNameIs(qualified[1..], manifest[1..]);
        assert manifest == [manifest[0]] + manifest[1..] && qualified == [qualified[0]] + qualified[1..];
        assert (manifest + ":")[1..] == manifest[1..] + ":";
        if manifest[0] == qualified[0] {
          PrefixStep(manifest + ":", qualified);
        }
        FirstOfManifest(manifest, qualified);
      } else {
        assert !(manifest + ":" <= qualified);
      }
    } else if manifest != "" {
      FirstOfManifest(manifest, qualified);
    }
  }

  lemma FirstOfManifest(manifest: string, qualified: string)
    requires manifest != ""
    ensures IsManifestOf(manifest, qualified) ==> qualified != "" && manifest[0] == qualified[0] && manifest[0] != ':'
  {
  }

  lemma PrefixStep(p: string, s: string)
    requires p != "" && s != "" && p[0] == s[0]
    ensures p <= s <==> p[1..] <= s[1..]
  {
    if p[1..] <= s[1..] {
      assert s == [s[0]] + p[1..] + s[1..][|p| - 1..];
      assert p == [p[0]] + p[1..];
    }
  }

  predicate NamesPlugin(artifacts: seq<Artifact>, manifest: string, plugin: string) {
    exists i :: 0 <= i < |artifacts| && artifacts[i] == Artifact(plugin, manifest)
  }

  /** Whether `r` runs a job of the installed plugin. */
  predicate RunsPlugin(r: Record, plugin: string) {
    IsJob(r) &&
    match r.recorded
    case Some(name) => name == plugin
    case None =>
      var manifest := ManifestName(r.qualified.value);
      NamesPlugin(r.artifacts, manifest, plugin) || (manifest != "" && manifest == plugin && r.artifacts == [])
  }

  predicate RunsManifest(r: Record, manifest: string) {
    manifest != "" && IsJob(r) && ManifestName(r.qualified.value) == manifest
  }

  /** What the two guards look for: an engagement that is live or being ended, of a job, whose recorded
      identity is the plugin's; or, in the oldest records, whose pinned artifacts name the plugin under
      the job's manifest, or that pin none and whose manifest name is the plugin's own. */
  lemma GuardsMean(r: Record, plugin: string, manifest: string)
    ensures RunsPlugin(r, plugin) <==>
      && (r.live || r.terminalPending) && r.qualified.Some?
      && (r.recorded == Some(plugin)
          || (r.recorded == None && exists a :: a in r.artifacts && a.name == plugin && IsManifestOf(a.manifestName, r.qualified.value))
          || (r.recorded == None && r.artifacts == [] && plugin != "" && IsManifestOf(plugin, r.qualified.value)))
    ensures RunsManifest(r, manifest) <==>
      (r.live || r.terminalPending) && r.qualified.Some? && manifest != "" && IsManifestOf(manifest, r.qualified.value)
  {
    if r.qualified.Some? {
      var m := ManifestName(r.qualified.value);
      ManifestNameIs(r.qualified.value, m);
      ManifestNameIs(r.qualified.value, plugin);
      ManifestNameIs(r.qualified.value, manifest);
      forall a | a in r.artifacts ensures IsManifestOf(a.manifestName, r.qualified.value) <==> m == a.manifestName {
        ManifestNameIs(r.qualified.value, a.manifestName);
      }
      hide IsManifestOf, ManifestName;
      if a :| a in r.artifacts && a.name == plugin && IsManifestOf(a.manifestName, r.qualified.value) {
        assert a == Artifact(plugin, m);
      }
    }
  }

  /** Who is starting what, which record each start has created so far, and every record. */
  datatype Starts = Starts(
    plugins: map<string, Claim>,
    manifests: map<string, string>,
    created: map<string, Option<nat>>,
    records: seq<Record>)

  datatype Step =
    | Start(plugin: string, job: string, title: string)
    | CreateRecord(plugin: string, artifacts: seq<Artifact>)
    | Release(plugin: string)
    | OtherRecord(r: Record)
    | BeginTerminal(id: nat)
    | WriteSucceeded(id: nat)
    | WriteFailed(id: nat)
    | EndUnstrictly(id: nat)

  predicate Claimable(s: Starts, plugin: string, job: string) {
    plugin !in s.plugins && ManifestName(job) !in s.manifests
  }

  predicate Running(s: Starts, plugin: string, job: string) {
    exists i :: 0 <= i < |s.records| && (RunsPlugin(s.records[i], plugin) || RunsManifest(s.records[i], ManifestName(job)))
  }

  function DoClaim(s: Starts, plugin: string, job: string, title: string): Starts {
    s.(plugins := s.plugins[plugin := Claim(job, title)],
       manifests := s.manifests[ManifestName(job) := plugin],
       created := s.created[plugin := None])
  }

  function DoRelease(s: Starts, plugin: string): Starts {
    if plugin !in s.plugins then s else
    var m := ManifestName(s.plugins[plugin].job);
    s.(plugins := s.plugins - {plugin},
       manifests := if m in s.manifests && s.manifests[m] == plugin then s.manifests - {m} else s.manifests,
       created := s.created - {plugin})
  }

  function SetRecord(s: Starts, id: nat, r: Record): Starts
    requires id < |s.records|
  {
    s.(records := s.records[id := r])
  }

  /** A launch creates at most one record, naming its plugin; only the holder of a claim releases it. */
  ghost predicate Enabled(s: Starts, step: Step) {
    match step
    case Start(plugin, job, _) => !Running(s, plugin, job) && Claimable(s, plugin, job)
    case CreateRecord(plugin, _) => plugin in s.plugins && plugin in s.created && s.created[plugin].None?
    case Release(plugin) => plugin in s.plugins
    case OtherRecord(r) => r.qualified.None?
    case BeginTerminal(id) => id < |s.records| && s.records[id].live
    case WriteSucceeded(id) => id < |s.records| && s.records[id].terminalPending
    case WriteFailed(id) => id < |s.records| && s.records[id].terminalPending
    case EndUnstrictly(id) => id < |s.records| && s.records[id].live
  }

  ghost function Apply(s: Starts, step: Step): Starts {
    if !Enabled(s, step) then s else
    match step
    case Start(plugin, job, title) => DoClaim(s, plugin, job, title)
    case CreateRecord(plugin, artifacts) =>
      s.(created := s.created[plugin := Some(|s.records|)],
         records := s.records + [Record(true, false, Some(s.plugins[plugin].job), Some(plugin), artifacts)])
    case Release(plugin) => DoRelease(s, plugin)
    case OtherRecord(r) => s.(records := s.records + [r])
    case BeginTerminal(id) => SetRecord(s, id, s.records[id].(live := false, terminalPending := true))
    case WriteSucceeded(id) => SetRecord(s, id, s.records[id].(terminalPending := false))
    case WriteFailed(id) => SetRecord(s, id, s.records[id].(live := true, terminalPending := false))
    case EndUnstrictly(id) => SetRecord(s, id, s.records[id].(live := false))
  }

  ghost function Run(s: Starts, steps: seq<Step>): Starts
    decreases |steps|
  {
    if steps == [] then s else Apply(Run(s, steps[..|steps| - 1]), steps[|steps| - 1])
  }

  // ---- the invariant ------------------------------------------------------

  /** The two claim maps are each other's inverse. */
  ghost predicate Inverse(plugins: map<string, Claim>, manifests: map<string, string>) {
    && (forall p :: p in plugins ==> ManifestName(plugins[p].job) in manifests && manifests[ManifestName(plugins[p].job)] == p)
    && (forall m :: m in manifests ==> manifests[m] in plugins && ManifestName(plugins[manifests[m]].job) == m)
  }

  ghost predicate ManifestExclusive(records: seq<Record>) {
    forall i, j, m :: 0 <= i < |records| && 0 <= j < |records| && RunsManifest(records[i], m) && RunsManifest(records[j], m)
      ==> i == j
  }

  /** However each record says which plugin it runs: by its recorded identity or by the older rules. */
  ghost predicate PluginExclusive(records: seq<Record>) {
    forall i, j, p :: 0 <= i < |records| && 0 <= j < |records| && RunsPlugin(records[i], p) && RunsPlugin(records[j], p)
      ==> i == j
  }

  predicate Names(r: Record, plugin: string, manifest: string) {
    RunsPlugin(r, plugin) || RunsManifest(r, manifest)
  }

  /** While a start holds its claim, the only record on its plugin or its manifest is its own. */
  ghost predicate Reserved(s: Starts) {
    && s.created.Keys == s.plugins.Keys
    && (forall p, i :: p in s.plugins && 0 <= i < |s.records| && Names(s.records[i], p, ManifestName(s.plugins[p].job))
          ==> s.created[p] == Some(i))
    && (forall p :: p in s.created && s.created[p].Some? ==> s.created[p].value < |s.records|)
  }

  ghost predicate Inv(s: Starts) {
    Inverse(s.plugins, s.manifests) && Reserved(s) && ManifestExclusive(s.records) && PluginExclusive(s.records)
  }

  lemma InverseKept(s: Starts, step: Step)
    requires Inverse(s.plugins, s.manifests)
    ensures var s' := Apply(s, step); Inverse(s'.plugins, s'.manifests)
  {
  }

  lemma StartKeeps(s: Starts, plugin: string, job: string, title: string)
    requires Inv(s) && Enabled(s, Start(plugin, job, title))
    ensures Inv(DoClaim(s, plugin, job, title))
  {
    var s' := DoClaim(s, plugin, job, title);
    forall i | 0 <= i < |s.records| ensures !Names(s.records[i], plugin, ManifestName(job)) {
      assert !(RunsPlugin(s.records[i], plugin) || RunsManifest(s.records[i], ManifestName(job)));
    }
    hide RunsPlugin, RunsManifest, Names, ManifestName;
  }

  /** The record a start creates runs its plugin and no other. */
  lemma CreatedRuns(job: string, plugin: string, artifacts: seq<Artifact>, p: string)
    ensures RunsPlugin(Record(true, false, Some(job), Some(plugin), artifacts), p) <==> p == plugin
    ensures RunsManifest(Record(true, false, Some(job), Some(plugin), artifacts), p) <==> p != "" && p == ManifestName(job)
  {
  }

  lemma CreateKeepsReserved(s: Starts, plugin: string, r: Record)
    requires Inv(s) && plugin in s.plugins && s.created[plugin].None?
    requires forall p :: RunsPlugin(r, p) <==> p == plugin
    requires forall m :: RunsManifest(r, m) <==> m != "" && m == ManifestName(s.plugins[plugin].job)
    ensures Reserved(s.(created := s.created[plugin := Some(|s.records|)], records := s.records + [r]))
  {
    var s' := s.(created := s.created[plugin := Some(|s.records|)], records := s.records + [r]);
    hide RunsPlugin, RunsManifest, ManifestName, ManifestExclusive, PluginExclusive;
    forall p, i | p in s'.plugins && 0 <= i < |s'.records| && Names(s'.records[i], p, ManifestName(s.plugins[p].job))
      ensures s'.created[p] == Some(i)
    {
      if i < |s.records| {
        assert s'.records[i] == s.records[i];
      }
    }
  }

  /** The new record is alone on its plugin and its manifest, since its start held both. */
  lemma CreateKeepsExclusive(s: Starts, plugin: string, r: Record)
    requires Inv(s) && plugin in s.plugins && s.created[plugin].None?
    requires forall p :: RunsPlugin(r, p) <==> p == plugin
    requires forall m :: RunsManifest(r, m) <==> m != "" && m == ManifestName(s.plugins[plugin].job)
    ensures ManifestExclusive(s.records + [r]) && PluginExclusive(s.records + [r])
  {
    var rs := s.records + [r];
    hide Inverse, RunsPlugin, RunsManifest, ManifestName;
    forall i | 0 <= i < |s.records|
      ensures rs[i] == s.records[i] && !RunsPlugin(rs[i], plugin)
           && !RunsManifest(rs[i], ManifestName(s.plugins[plugin].job))
    {
      assert !Names(s.records[i], plugin, ManifestName(s.plugins[plugin].job));
    }
  }

  lemma CreateKeeps(s: Starts, plugin: string, artifacts: seq<Artifact>)
    requires Inv(s) && Enabled(s, CreateRecord(plugin, artifacts))
    ensures Inv(Apply(s, CreateRecord(plugin, artifacts)))
  {
    var r := Record(true, false, Some(s.plugins[plugin].job), Some(plugin), artifacts);
    forall p
      ensures RunsPlugin(r, p) <==> p == plugin
      ensures RunsManifest(r, p) <==> p != "" && p == ManifestName(s.plugins[plugin].job)
    {
      CreatedRuns(s.plugins[plugin].job, plugin, artifacts, p);
    }
    hide Reserved, ManifestExclusive, PluginExclusive, RunsPlugin, RunsManifest, ManifestName;
    CreateKeepsReserved(s, plugin, r);
    CreateKeepsExclusive(s, plugin, r);
  }

  lemma OtherKeeps(s: Starts, r: Record)
    requires Inv(s) && r.qualified.None?
    ensures Inv(s.(records := s.records + [r]))
  {
    var s' := s.(records := s.records + [r]);
    assert forall i :: 0 <= i < |s.records| ==> s'.records[i] == s.records[i];
    assert forall p :: !RunsPlugin(r, p) && !RunsManifest(r, p);
    hide RunsPlugin, RunsManifest, ManifestName;
  }

  lemma LessRuns(r: Record, s: Record, p: string)
    requires r.qualified == s.qualified && r.recorded == s.recorded && r.artifacts == s.artifacts
    requires Occupies(r) ==> Occupies(s)
    ensures RunsPlugin(r, p) ==> RunsPlugin(s, p)
    ensures RunsManifest(r, p) ==> RunsManifest(s, p)
  {
  }

  /** Changing a record's life without making a record occupy that did not. */
  lemma SetKeeps(s: Starts, id: nat, r: Record)
    requires Inv(s) && id < |s.records|
    requires r.qualified == s.records[id].qualified && r.recorded == s.records[id].recorded
    requires r.artifacts == s.records[id].artifacts
    requires Occupies(r) ==> Occupies(s.records[id])
    ensures Inv(SetRecord(s, id, r))
  {
    var s' := SetRecord(s, id, r);
    forall i, p | 0 <= i < |s.records|
      ensures RunsPlugin(s'.records[i], p) ==> RunsPlugin(s.records[i], p)
      ensures RunsManifest(s'.records[i], p) ==> RunsManifest(s.records[i], p)
    {
      LessRuns(s'.records[i], s.records[i], p);
    }
    hide RunsPlugin, RunsManifest, ManifestName;
    forall p, i | p in s'.plugins && 0 <= i < |s'.records| && Names(s'.records[i], p, ManifestName(s'.plugins[p].job))
      ensures s'.created[p] == Some(i)
    {
      assert Names(s.records[i], p, ManifestName(s.plugins[p].job));
    }
  }

  lemma InvKept(s: Starts, step: Step)
    requires Inv(s)
    ensures Inv(Apply(s, step))
  {
    InverseKept(s, step);
    if Enabled(s, step) {
      match step
      case Start(plugin, job, title) => StartKeeps(s, plugin, job, title);
      case CreateRecord(plugin, artifacts) => CreateKeeps(s, plugin, artifacts);
      case Release(plugin) =>
      case OtherRecord(r) => OtherKeeps(s, r);
      case BeginTerminal(id) => SetKeeps(s, id, s.records[id].(live := false, terminalPending := true));
      case WriteSucceeded(id) => SetKeeps(s, id, s.records[id].(terminalPending := false));
      case WriteFailed(id) => SetKeeps(s, id, s.records[id].(live := true, terminalPending := false));
      case EndUnstrictly(id) => SetKeeps(s, id, s.records[id].(live := false));
    }
  }

  lemma {:induction false} InvAlways(s: Starts, steps: seq<Step>)
    requires Inv(s)
    ensures Inv(Run(s, steps))
    decreases |steps|
  {
    if steps != [] {
      InvAlways(s, steps[..|steps| - 1]);
      InvKept(Run(s, steps[..|steps| - 1]), steps[|steps| - 1]);
    }
  }

  // ---- the theorems -------------------------------------------------------

  /** A process that starts over the records it finds, no job being started yet. */
  function Opened(records: seq<Record>): Starts { Starts(map[], map[], map[], records) }

  ghost predicate Exclusive(records: seq<Record>) { ManifestExclusive(records) && PluginExclusive(records) }

  lemma OpenedInv(records: seq<Record>)
    requires Exclusive(records)
    ensures Inv(Opened(records))
  {
    hide RunsPlugin, RunsManifest, ManifestName, PluginExclusive, ManifestExclusive;
  }

  /** Over every interleaving of claims, record creations, releases and terminal writes that succeed
      or fail, from any exclusive records on (restored ones without a recorded identity among them),
      two occupying job records never run the same plugin, by whichever rule names it, and never
      share a non-empty manifest name. */
  lemma OneJobPerManifestAndPlugin(start: seq<Record>, steps: seq<Step>, i: nat, j: nat, plugin: string)
    requires Exclusive(start)
    requires var rs := Run(Opened(start), steps).records; i < j < |rs| && IsJob(rs[i]) && IsJob(rs[j])
    ensures var rs := Run(Opened(start), steps).records;
      && (ManifestName(rs[i].qualified.value) != "" ==>
            ManifestName(rs[i].qualified.value) != ManifestName(rs[j].qualified.value))
      && !(RunsPlugin(rs[i], plugin) && RunsPlugin(rs[j], plugin))
  {
    OpenedInv(start);
    InvAlways(Opened(start), steps);
    var rs := Run(Opened(start), steps).records;
    var m, m' := ManifestName(rs[i].qualified.value), ManifestName(rs[j].qualified.value);
    assert (m != "" ==> RunsManifest(rs[i], m)) && (m' != "" ==> RunsManifest(rs[j], m'));
  }

  /** So a restart, which finds the records and forgets the claims, starts from exclusive records again. */
  lemma RecordsStayExclusive(start: seq<Record>, steps: seq<Step>)
    requires Exclusive(start)
    ensures Exclusive(Run(Opened(start), steps).records)
  {
    OpenedInv(start);
    InvAlways(Opened(start), steps);
  }

  /** Claims taken and released in any order leave the two maps mutually inverse. */
  lemma ClaimsStayInverse(start: seq<Record>, steps: seq<Step>)
    requires Exclusive(start)
    ensures var s := Run(Opened(start), steps); Inverse(s.plugins, s.manifests)
  {
    OpenedInv(start);
    InvAlways(Opened(start), steps);
  }

  /** A record that is being ended occupies its plugin until the write succeeds; a failed write puts it
      back, and an end without a strict write frees it at once. */
  lemma EndingOccupiesUntilWritten(s: Starts, id: nat)
    requires id < |s.records|
    ensures var r := s.records[id];
      && (r.live ==>
            && Apply(s, BeginTerminal(id)).records == s.records[id := r.(live := false, terminalPending := true)]
            && Apply(s, EndUnstrictly(id)).records == s.records[id := r.(live := false)])
      && (r.terminalPending ==>
            && Apply(s, WriteFailed(id)).records == s.records[id := r.(live := true, terminalPending := false)]
            && Apply(s, WriteSucceeded(id)).records == s.records[id := r.(terminalPending := false)])
    ensures forall r :: Occupies(r) <==> r.live || r.terminalPending
  {
  }

  // ---- declared jobs --------------------------------------------------------

  /** A declaration's qualified name: a plugin's manifest name, which is not empty and has no colon,
      and the name of one of its jobs. */
  ghost predicate Declared(qualified: string) {
    exists manifest, job :: manifest != "" && ':' !in manifest && qualified == manifest + ":" + job
  }

  lemma DeclaredIsNamed(qualified: string)
    requires Declared(qualified)
    ensures ManifestName(qualified) != ""
  {
    var manifest, job :| manifest != "" && ':' !in manifest && qualified == manifest + ":" + job;
    ManifestNameReadsBack(manifest, job);
  }

  ghost predicate AllDeclared(s: Starts) {
    && (forall p :: p in s.plugins ==> Declared(s.plugins[p].job))
    && (forall i :: 0 <= i < |s.records| && s.records[i].qualified.Some? ==> Declared(s.records[i].qualified.value))
  }

  ghost predicate StartsDeclared(step: Step) { step.Start? ==> Declared(step.job) }

  lemma DeclaredKept(s: Starts, step: Step)
    requires AllDeclared(s) && StartsDeclared(step)
    ensures AllDeclared(Apply(s, step))
  {
    hide Declared, ManifestName, Running;
  }

  lemma {:induction false} DeclaredAlways(s: Starts, steps: seq<Step>)
    requires AllDeclared(s) && forall step :: step in steps ==> StartsDeclared(step)
    ensures AllDeclared(Run(s, steps))
    decreases |steps|
  {
    if steps != [] {
      DeclaredAlways(s, steps[..|steps| - 1]);
      hide AllDeclared, StartsDeclared;
      DeclaredKept(Run(s, steps[..|steps| - 1]), steps[|steps| - 1]);
    }
  }

  /** When every start is of a declared job, two occupying job records never share a manifest name. */
  lemma OneDeclaredJobPerManifest(start: seq<Record>, steps: seq<Step>, i: nat, j: nat)
    requires Exclusive(start) && AllDeclared(Opened(start)) && forall step :: step in steps ==> StartsDeclared(step)
    requires var rs := Run(Opened(start), steps).records; i < j < |rs| && IsJob(rs[i]) && IsJob(rs[j])
    ensures var rs := Run(Opened(start), steps).records;
      ManifestName(rs[i].qualified.value) != ManifestName(rs[j].qualified.value)
  {
    var rs := Run(Opened(start), steps).records;
    DeclaredAlways(Opened(start), steps);
    DeclaredIsNamed(rs[i].qualified.value);
    OneJobPerManifestAndPlugin(start, steps, i, j, "");
  }

  lemma RunSnoc(s: Starts, steps: seq<Step>, x: Step)
    ensures Run(s, steps + [x]) == Apply(Run(s, steps), x)
  {
    assert (steps + [x])[..|steps|] == steps;
  }

  /** One whole launch with no other under way. */
  lemma LaunchAlone(records: seq<Record>, plugin: string, job: string)
    requires !Running(Opened(records), plugin, job)
    ensures var s1 := Apply(Opened(records), Start(plugin, job, "")); var s2 := Apply(s1, CreateRecord(plugin, []));
      && s2.records == records + [Record(true, false, Some(job), Some(plugin), [])]
      && Apply(s2, Release(plugin)) == Opened(s2.records)
  {
    hide Running, ManifestName;
    var s1 := Apply(Opened(records), Start(plugin, job, ""));
    assert s1 == DoClaim(Opened(records), plugin, job, "");
  }

  lemma NothingRuns(plugin: string, job: string)
    ensures !Running(Opened([]), plugin, job)
  {
  }

  lemma OnlyOtherPlugin(r: Record, plugin: string, job: string)
    requires r.recorded.Some? && r.recorded.value != plugin && ManifestName(job) == ""
    ensures !Running(Opened([r]), plugin, job)
  {
    hide ManifestName;
  }

  /** A remark on the guard, which reads a non-empty name only: for names that no declaration has, two
      jobs with an empty manifest name would both run. */
  lemma EmptyManifestNameIsNotExclusive()
    ensures exists steps :: var rs := Run(Opened([]), steps).records;
      |rs| == 2 && IsJob(rs[0]) && IsJob(rs[1])
      && ManifestName(rs[0].qualified.value) == "" && ManifestName(rs[1].qualified.value) == ""
  {
    var start := Opened([]);
    var first := [] + [Start("p", ":a", "")] + [CreateRecord("p", [])] + [Release("p")];
    var r, r' := Record(true, false, Some(":a"), Some("p"), []), Record(true, false, Some(":b"), Some("q"), []);
    assert ManifestName(":a") == "" && ManifestName(":b") == "" && "p" != "q" by {
      assert "p"[0] != "q"[0];
    }
    OnlyOtherPlugin(r, "q", ":b");
    NothingRuns("p", ":a");
    hide Running, ManifestName, Apply;
    LaunchAlone([], "p", ":a");
    RunSnoc(start, [], Start("p", ":a", ""));
    RunSnoc(start, [] + [Start("p", ":a", "")], CreateRecord("p", []));
    RunSnoc(start, [] + [Start("p", ":a", "")] + [CreateRecord("p", [])], Release("p"));
    assert [] + [r] == [r];
    LaunchAlone([r], "q", ":b");
    RunSnoc(start, first, Start("q", ":b", ""));
    RunSnoc(start, first + [Start("q", ":b", "")], CreateRecord("q", []));
    assert Run(start, first + [Start("q", ":b", "")] + [CreateRecord("q", [])]).records == [r] + [r'];
  }

  // ---- the module's dictionaries ------------------------------------------

  /** The two module-level maps, updated in place. */
  class JobStarts {
    var pendingPlugins: map<string, Claim>
    var pendingManifests: map<string, string>

    method ClaimPlugin(plugin: string, job: string, title: string) returns (claimed: bool)
      modifies this
      ensures claimed == (plugin !in old(pendingPlugins) && ManifestName(job) !in old(pendingManifests))
      ensures claimed ==>
        && pendingPlugins == old(pendingPlugins)[plugin := Claim(job, title)]
        && pendingManifests == old(pendingManifests)[ManifestName(job) := plugin]
      ensures !claimed ==> pendingPlugins == old(pendingPlugins) && pendingManifests == old(pendingManifests)
      ensures old(Inverse(pendingPlugins, pendingManifests)) ==> Inverse(pendingPlugins, pendingManifests)
    {
      var manifest := ManifestName(job);
      if plugin in pendingPlugins || manifest in pendingManifests {
        return false;
      }
      pendingPlugins := pendingPlugins[plugin := Claim(job, title)];
      pendingManifests := pendingManifests[manifest := plugin];
      return true;
    }

    /** Undoes a claim: both maps forget it and keep everything else. */
    method ReleasePlugin(plugin: string)
      requires Inverse(pendingPlugins, pendingManifests)
      modifies this
      ensures pendingPlugins == old(pendingPlugins) - {plugin}
      ensures pendingManifests == map m | m in old(pendingManifests) && old(pendingManifests)[m] != plugin :: old(pendingManifests)[m]
      ensures Inverse(pendingPlugins, pendingManifests)
    {
      if plugin in pendingPlugins {
        var manifest := ManifestName(pendingPlugins[plugin].job);
        pendingPlugins := pendingPlugins - {plugin};
        if manifest in pendingManifests && pendingManifests[manifest] == plugin {
          pendingManifests := pendingManifests - {manifest};
        }
      }
    }

    method RunningForPlugin(occupants: seq<Record>, plugin: string) returns (found: Option<nat>)
      ensures found.Some? ==> found.value < |occupants| && RunsPlugin(occupants[found.value], plugin)
      ensures found.Some? ==> forall i :: 0 <= i < found.value ==> !RunsPlugin(occupants[i], plugin)
      ensures found.None? ==> forall i :: 0 <= i < |occupants| ==> !RunsPlugin(occupants[i], plugin)
    {
      for k := 0 to |occupants|
        invariant forall i :: 0 <= i < k ==> !RunsPlugin(occupants[i], plugin)
      {
        var rec := occupants[k];
        if Occupies(rec) && rec.qualified.Some? {
          match rec.recorded
          case Some(name) =>
            if name == plugin { return Some(k); }
          case None =>
            var manifest := ManifestName(rec.qualified.value);
            for a := 0 to |rec.artifacts|
              invariant forall i :: 0 <= i < a ==> rec.artifacts[i] != Artifact(plugin, manifest)
            {
              if rec.artifacts[a].manifestName == manifest && rec.artifacts[a].name == plugin { return Some(k); }
            }
            if manifest != "" && manifest == plugin && rec.artifacts == [] { return Some(k); }
        }
      }
      return None;
    }

    method RunningForManifest(occupants: seq<Record>, manifest: string) returns (found: Option<nat>)
      ensures found.Some? ==> found.value < |occupants| && RunsManifest(occupants[found.value], manifest)
      ensures found.Some? ==> forall i :: 0 <= i < found.value ==> !RunsManifest(occupants[i], manifest)
      ensures found.None? ==> forall i :: 0 <= i < |occupants| ==> !RunsManifest(occupants[i], manifest)
    {
      if manifest == "" { return None; }
      for k := 0 to |occupants|
        invariant forall i :: 0 <= i < k ==> !RunsManifest(occupants[i], manifest)
      {
        if IsJob(occupants[k]) && ManifestName(occupants[k].qualified.value) == manifest { return Some(k); }
      }
      return None;
    }

    /** Refuse while a job of the plugin or of its manifest is live or starting, else claim both. */
    method ClaimJobStart(records: seq<Record>, plugin: string, job: string, title: string,
                         ghost created: map<string, Option<nat>>) returns (refused: bool)
      modifies this
      ensures !refused <==>
        && plugin !in old(pendingPlugins) && ManifestName(job) !in old(pendingManifests)
        && forall i :: 0 <= i < |records| ==> !RunsPlugin(records[i], plugin) && !RunsManifest(records[i], ManifestName(job))
      ensures var s := Starts(old(pendingPlugins), old(pendingManifests), created, records);
        && refused == !Enabled(s, Start(plugin, job, title))
        && pendingPlugins == Apply(s, Start(plugin, job, title)).plugins
        && pendingManifests == Apply(s, Start(plugin, job, title)).manifests
    {
      ghost var s := Starts(pendingPlugins, pendingManifests, created, records);
      var running := RunningForPlugin(records, plugin);
      if running.None? {
        running := RunningForManifest(records, ManifestName(job));
      }
      if running.Some? {
        assert Running(s, plugin, job);
        return true;
      }
      var claimed := ClaimPlugin(plugin, job, title);
      return !claimed;
    }
  }
}
