/**
 * The operator's consents: one JSON file, loaded as a whole or not at all, and written before the
 * memory view changes.
 */
module ConsentStore {
  import opened Prelude
  import opened AtomicIo

  const MAX_ACKS_BYTES := 4 * 1024 * 1024
  const PRIVATE := 384

  // ---- what a JSON file may hold ----------------------------------------------

  /** A JSON value as far as the loader looks at it.  A finite float is its mantissa and binary
      exponent in lowest terms; `Float(None)` is NaN or an infinity. */
  datatype Val = Str(s: string) | Int(n: int) | Float(x: Option<(int, int)>) | Bool(b: bool) | Other

  datatype RawRecord = Dict(fields: map<string, Val>) | NotADict

  datatype Json =
    | Document(version: Val, acks: Option<map<string, RawRecord>>)
    | NotADocument

  datatype Ack = Ack(plugin: string, effective: string, digest: string, gen: string, ts: Val)

  type Acks = map<string, Ack>

  const KEYS: set<string> := {"plugin", "effective", "declaration_digest", "gen", "ts"}

  function RawOf(a: Ack): RawRecord {
    Dict(map["plugin" := Str(a.plugin), "effective" := Str(a.effective), "declaration_digest" := Str(a.digest),
             "gen" := Str(a.gen), "ts" := a.ts])
  }

  function DocumentOf(m: Acks): Json {
    Document(Int(1), Some(map i | i in m :: RawOf(m[i])))
  }

  /** `dumps` and `loads` are inverse on what the store writes, and `dumps` writes ASCII, so its length
      is its size; `identity` is the hash of the three fields. */
  datatype Codec = Codec(dumps: Json -> string, loads: string -> Option<Json>, identity: (string, string, string) -> string)

  ghost predicate Faithful(c: Codec) {
    forall m: Acks :: c.loads(c.dumps(DocumentOf(m))) == Some(DocumentOf(m))
  }

  function Dump(c: Codec, m: Acks): string { c.dumps(DocumentOf(m)) }

  // ---- loading ----------------------------------------------------------------

  /** Python's `== 1`. */
  predicate IsOne(v: Val) { v == Int(1) || v == Float(Some((1, 0))) || v == Bool(true) }

  predicate ValidTs(v: Val) { v.Int? || (v.Float? && v.x.Some?) }

  predicate NonEmpty(v: Val) { v.Str? && v.s != "" }

  function Field(r: RawRecord, key: string): Val
    requires r.Dict?
  {
    if key in r.fields then r.fields[key] else Other
  }

  /** A record the loader accepts under the key `ident`. */
  predicate Accepts(c: Codec, ident: string, r: RawRecord) {
    && Readable(r)
    && c.identity(Field(r, "plugin").s, Field(r, "effective").s, Field(r, "declaration_digest").s) == ident
  }

  /** Everything that is asked of a record but its identity. */
  predicate Readable(r: RawRecord) {
    && r.Dict? && r.fields.Keys == KEYS
    && NonEmpty(Field(r, "plugin")) && NonEmpty(Field(r, "effective")) && NonEmpty(Field(r, "declaration_digest"))
    && NonEmpty(Field(r, "gen")) && ValidTs(Field(r, "ts"))
  }

  function AckOf(r: RawRecord): Ack
    requires r.Dict? && Field(r, "plugin").Str? && Field(r, "effective").Str?
    requires Field(r, "declaration_digest").Str? && Field(r, "gen").Str?
  {
    Ack(Field(r, "plugin").s, Field(r, "effective").s, Field(r, "declaration_digest").s, Field(r, "gen").s, Field(r, "ts"))
  }

  predicate AllAccepted(c: Codec, raw: map<string, RawRecord>) {
    forall i :: i in raw ==> Accepts(c, i, raw[i])
  }

  function LoadDocument(c: Codec, j: Json): Acks {
    if j.Document? && IsOne(j.version) && j.acks.Some? && AllAccepted(c, j.acks.value) then
      map i | i in j.acks.value :: AckOf(j.acks.value[i])
    else map[]
  }

  /** Any file content whatsoever loads, most of it as no consent at all. */
  function Load(c: Codec, file: Option<string>): Acks {
    if file.None? || |file.value| > MAX_ACKS_BYTES then map[]
    else match c.loads(file.value)
      case None => map[]
      case Some(j) => LoadDocument(c, j)
  }

  /** `_load_body`: the records are read one by one, and the first bad one ends it with nothing. */
  method LoadFile(c: Codec, file: Option<string>) returns (out: Acks)
    ensures out == Load(c, file)
  {
    if file.None? || |file.value| > MAX_ACKS_BYTES {
      return map[];
    }
    var raw := c.loads(file.value);
    if raw.None? || !raw.value.Document? || !IsOne(raw.value.version) || raw.value.acks.None? {
      return map[];
    }
    var acks := raw.value.acks.value;
    out := map[];
    var left := acks.Keys;
    while left != {}
      invariant left <= acks.Keys
      invariant forall i :: i in acks && i !in left ==> Accepts(c, i, acks[i])
      invariant out == map i | i in acks && i !in left :: AckOf(acks[i])
      decreases |left|
    {
      var ident :| ident in left;
      var rec := acks[ident];
      if !Readable(rec) {
        return map[];
      }
      if c.identity(Field(rec, "plugin").s, Field(rec, "effective").s, Field(rec, "declaration_digest").s) != ident {
        return map[];
      }
      out := out[ident := AckOf(rec)];
      left := left - {ident};
    }
  }

  // ---- what loading guarantees ---------------------------------------------------

  predicate Sound(c: Codec, ident: string, a: Ack) {
    && a.plugin != "" && a.effective != "" && a.digest != "" && a.gen != "" && ValidTs(a.ts)
    && c.identity(a.plugin, a.effective, a.digest) == ident
  }

  /** No file can manufacture a consent: every record loaded has its three fields, its generation and
      its timestamp, and sits under the identity recomputed from its fields. */
  lemma LoadedAcksAreSound(c: Codec, file: Option<string>, i: string)
    requires i in Load(c, file)
    ensures Sound(c, i, Load(c, file)[i])
  {
    var raw := c.loads(file.value).value.acks.value;
    assert Accepts(c, i, raw[i]);
  }

  /** One bad record, and nothing is loaded. */
  lemma OneBadRecordLoadsNothing(c: Codec, file: string, raw: map<string, RawRecord>, version: Val, i: string)
    requires c.loads(file) == Some(Document(version, Some(raw))) && i in raw && !Accepts(c, i, raw[i])
    ensures Load(c, Some(file)) == map[]
  {
    hide Accepts;
  }

  /** A record of exactly the five fields, the four texts not empty and the timestamp a number that is
      neither a bool nor NaN nor infinite, under the identity of its first three. */
  predicate Genuine(c: Codec, ident: string, r: RawRecord) {
    && r.Dict? && r.fields.Keys == {"plugin", "effective", "declaration_digest", "gen", "ts"}
    && (forall k :: k in {"plugin", "effective", "declaration_digest", "gen"} ==> r.fields[k].Str? && r.fields[k].s != "")
    && (r.fields["ts"].Int? || (r.fields["ts"].Float? && r.fields["ts"].x.Some?))
    && ident == c.identity(r.fields["plugin"].s, r.fields["effective"].s, r.fields["declaration_digest"].s)
  }

  /** What a file loads as, in full: its records if it has at most 4 MB, its version equals one and all of
      its records are genuine, and no consent otherwise. */
  lemma LoadsExactly(c: Codec, file: string, version: Val, raw: map<string, RawRecord>)
    requires c.loads(file) == Some(Document(version, Some(raw)))
    ensures var whole := |file| <= 4 * 1024 * 1024
        && (version == Int(1) || version == Float(Some((1, 0))) || version == Bool(true))
        && forall i :: i in raw ==> Genuine(c, i, raw[i]);
      && (!whole ==> Load(c, Some(file)) == map[])
      && (whole ==>
            && Load(c, Some(file)).Keys == raw.Keys
            && forall i :: i in raw ==>
                 var f := raw[i].fields;
                 Load(c, Some(file))[i] == Ack(f["plugin"].s, f["effective"].s, f["declaration_digest"].s, f["gen"].s, f["ts"]))
    ensures Load(c, None) == map[]
  {
    forall i | i in raw ensures Genuine(c, i, raw[i]) <==> Accepts(c, i, raw[i]) {
      GenuineIsAccepted(c, i, raw[i]);
    }
    hide Accepts, Genuine;
  }

  lemma GenuineIsAccepted(c: Codec, ident: string, r: RawRecord)
    ensures Genuine(c, ident, r) <==> Accepts(c, ident, r)
  {
    if r.Dict? && r.fields.Keys == KEYS {
      assert "plugin" in r.fields && "effective" in r.fields && "declaration_digest" in r.fields && "gen" in r.fields && "ts" in r.fields;
    }
  }

  lemma RawReads(c: Codec, i: string, a: Ack)
    ensures Accepts(c, i, RawOf(a)) <==> Sound(c, i, a)
    ensures AckOf(RawOf(a)) == a
  {
    var r := RawOf(a);
    assert r.fields.Keys == KEYS;
    assert Field(r, "plugin") == Str(a.plugin) && Field(r, "effective") == Str(a.effective);
    assert Field(r, "declaration_digest") == Str(a.digest) && Field(r, "gen") == Str(a.gen) && Field(r, "ts") == a.ts;
  }

  lemma AcksBack(c: Codec, m: Acks, raw: map<string, RawRecord>)
    requires raw.Keys == m.Keys && AllAccepted(c, raw)
    requires forall i :: i in m ==> Accepts(c, i, raw[i]) && AckOf(raw[i]) == m[i]
    ensures (map i | i in raw :: AckOf(raw[i])) == m
  {
    hide AckOf;
  }

  /** What was written reads back exactly when the store is empty, or every record is sound and the
      file is within the reader's cap; otherwise nothing at all is read back. */
  lemma DumpReadsBack(c: Codec, m: Acks)
    requires Faithful(c)
    ensures Load(c, Some(Dump(c, m))) ==
      if |Dump(c, m)| <= MAX_ACKS_BYTES && (forall i :: i in m ==> Sound(c, i, m[i])) then m else map[]
  {
    var raw := map i | i in m :: RawOf(m[i]);
    forall i | i in m
      ensures Accepts(c, i, raw[i]) <==> Sound(c, i, m[i])
      ensures AckOf(raw[i]) == m[i]
    {
      RawReads(c, i, m[i]);
    }
    assert c.loads(Dump(c, m)) == Some(Document(Int(1), Some(raw)));
    hide Accepts, Sound, AckOf, RawOf, Faithful, Dump, LoadDocument;
    RawLoads(c, m, raw);
  }

  lemma RawLoads(c: Codec, m: Acks, raw: map<string, RawRecord>)
    requires raw.Keys == m.Keys
    requires forall i :: i in m ==> (Accepts(c, i, raw[i]) <==> Sound(c, i, m[i]))
    requires forall i :: i in m && Accepts(c, i, raw[i]) ==> AckOf(raw[i]) == m[i]
    ensures LoadDocument(c, Document(Int(1), Some(raw))) == if forall i :: i in m ==> Sound(c, i, m[i]) then m else map[]
  {
    hide Accepts, Sound, AckOf;
    if forall i :: i in m ==> Sound(c, i, m[i]) {
      AcksBack(c, m, raw);
    } else {
      var i :| i in m && !Sound(c, i, m[i]);
      assert !Accepts(c, i, raw[i]);
    }
  }

  // ---- the memory view ------------------------------------------------------------

  /** Every record sits under its identity, with a generation and a timestamp; its three fields are
      whatever the caller gave. */
  predicate Keyed(c: Codec, m: Acks) {
    forall i :: i in m ==> c.identity(m[i].plugin, m[i].effective, m[i].digest) == i && m[i].gen != "" && ValidTs(m[i].ts)
  }

  /** A generation that was revoked is never live again. */
  ghost predicate Retired(m: Acks, issued: set<string>, revoked: set<(string, string)>) {
    && (forall i :: i in m ==> m[i].gen in issued)
    && (forall r :: r in revoked ==> r.1 in issued && !(r.0 in m && m[r.0].gen == r.1))
  }

  predicate AllNamed(m: Acks) {
    forall i :: i in m ==> m[i].plugin != "" && m[i].effective != "" && m[i].digest != ""
  }

  lemma KeyedReadsBack(c: Codec, m: Acks)
    requires Faithful(c) && Keyed(c, m)
    ensures Load(c, Some(Dump(c, m))) == if |Dump(c, m)| <= MAX_ACKS_BYTES && AllNamed(m) then m else map[]
  {
    DumpReadsBack(c, m);
    hide Load, Dump, Faithful;
  }

  lemma LoadedIsKeyed(c: Codec, file: Option<string>)
    ensures Keyed(c, Load(c, file)) && AllNamed(Load(c, file))
  {
    forall i | i in Load(c, file) ensures Sound(c, i, Load(c, file)[i]) {
      LoadedAcksAreSound(c, file, i);
    }
    hide Load;
  }

  /** Approving under a name that is empty succeeds, and the next start finds no consent at all. */
  lemma EmptyFieldLosesEveryConsent(c: Codec, m: Acks, effective: string, digest: string, gen: string, ts: int)
    requires Faithful(c) && Keyed(c, m) && gen != ""
    ensures var i := c.identity("", effective, digest);
      Load(c, Some(Dump(c, m[i := Ack("", effective, digest, gen, Int(ts))]))) == map[]
  {
    var i := c.identity("", effective, digest);
    var n := m[i := Ack("", effective, digest, gen, Int(ts))];
    assert i in n && n[i].plugin == "";
    KeyedReadsBack(c, n);
  }

  /** What the caller cannot choose about a write: the temporary name, the inode, what fails. */
  datatype Attempt = Attempt(tmp: string, ino: nat, mkdir: bool, calls: Calls)

  predicate Succeeds(a: Attempt) { a.mkdir && Replaces(a.calls) }

  class CallbackAckStore {
    const codec: Codec
    const path: string
    const disk: Disk
    var acks: Acks

    /** What a crash may leave in the file. */
    ghost var backlog: iset<Option<string>>
    ghost var issued: set<string>
    ghost var revoked: set<(string, string)>

    /** Memory is what the file holds: it was loaded from it, or it is what was last written. */
    ghost predicate Valid()
      reads this, disk
    {
      && Faithful(codec) && Wellformed(disk.fs)
      && (forall o :: MayHold(disk.fs, path, o) ==> o in backlog)
      && (acks == Load(codec, Read(disk.fs, path)) || Read(disk.fs, path) == Some(Dump(codec, acks)))
      && Keyed(codec, acks) && Retired(acks, issued, revoked)
    }

    /** A crash at any moment since `mark` leaves one of `files`. */
    ghost predicate CrashFinds(mark: nat, files: iset<Option<string>>)
      reads disk
    {
      mark <= |disk.trace| &&
      forall k, o :: mark <= k < |disk.trace| && MayHold(disk.trace[k], path, o) ==> o in files
    }

    ghost predicate Unused(a: Attempt)
      reads disk
    {
      a.tmp !in disk.fs.dir && a.ino !in disk.fs.inodes && a.tmp != path
    }

    constructor (c: Codec, file: string, d: Disk)
      requires Faithful(c) && Wellformed(d.fs)
      ensures Valid() && codec == c && path == file && disk == d
      ensures acks == Load(c, Read(d.fs, file)) && revoked == {}
    {
      codec, path, disk := c, file, d;
      acks := Load(c, Read(d.fs, file));
      backlog := iset o | MayHold(d.fs, file, o);
      issued := set i | i in Load(c, Read(d.fs, file)) :: Load(c, Read(d.fs, file))[i].gen;
      revoked := {};
      LoadedIsKeyed(c, Read(d.fs, file));
    }

    /** Durable first, then visible: a failure leaves memory and file as they were; afterwards the file
        is the dump of memory.  A crash at any moment finds an earlier file or the whole new one. */
    method Save(candidate: Acks, a: Attempt) returns (raised: bool)
      requires Valid() && Unused(a) && Keyed(codec, candidate)
      modifies this`acks, this`backlog, disk
      ensures Faithful(codec) && Wellformed(disk.fs) && forall o :: MayHold(disk.fs, path, o) ==> o in backlog
      ensures raised <==>
        !(a.mkdir && a.calls.mkstemp && a.calls.chmod && a.calls.write && a.calls.fsync && a.calls.replace)
      ensures raised ==> acks == old(acks) && Read(disk.fs, path) == old(Read(disk.fs, path))
      ensures !raised ==> acks == candidate && Read(disk.fs, path) == Some(Dump(codec, candidate))
      ensures !raised ==> path in disk.fs.dir && disk.fs.inodes[disk.fs.dir[path]].mode == 0x180
      ensures backlog == if raised then old(backlog)
        else if Settles(a.calls) then iset{Some(Dump(codec, candidate))}
        else old(backlog) + iset{Some(Dump(codec, candidate))}
      ensures old(disk.trace) <= disk.trace
      ensures CrashFinds(|old(disk.trace)|, old(backlog) + iset{Some(Dump(codec, candidate))})
    {
      hide Load, Dump, MayHold, Keyed, Faithful;
      if !a.mkdir {
        return true;
      }
      var text := Dump(codec, candidate);
      raised := disk.AtomicWriteText(path, text, Some(PRIVATE), a.tmp, a.ino, a.calls);
      SafeFinds(disk, old(|disk.trace|), old(disk.fs), path, text, backlog);
      if !raised {
        backlog := if Settles(a.calls) then iset{Some(text)} else backlog + iset{Some(text)};
        acks := candidate;
      }
    }

    /** Consent for an identity: a live approval keeps its generation, a new one gets a fresh one. */
    method Record(plugin: string, effective: string, digest: string, now: int, newGen: string, a: Attempt)
      returns (r: Option<Ack>)
      requires Valid() && Unused(a) && newGen != "" && newGen !in issued
      modifies this, disk
      ensures Valid() && revoked == old(revoked)
      ensures forall gone :: gone in revoked ==> !(gone.0 in acks && acks[gone.0].gen == gone.1)
      ensures r.Some? <==> Succeeds(a)
      ensures r == None ==> acks == old(acks) && Read(disk.fs, path) == old(Read(disk.fs, path))
      ensures var i := codec.identity(plugin, effective, digest);
        r.Some? ==>
          && r.value == Ack(plugin, effective, digest, if i in old(acks) then old(acks)[i].gen else newGen, Int(now))
          && acks == old(acks)[i := r.value]
          && Read(disk.fs, path) == Some(Dump(codec, acks))
      ensures var i := codec.identity(plugin, effective, digest);
        var gen := if i in old(acks) then old(acks)[i].gen else newGen;
        var file := Some(Dump(codec, old(acks)[i := Ack(plugin, effective, digest, gen, Int(now))]));
        && CrashFinds(|old(disk.trace)|, old(backlog) + iset{file})
        && (r.Some? && Settles(a.calls) ==> backlog == iset{file})
    {
      var identity := codec.identity(plugin, effective, digest);
      var gen := if identity in acks && acks[identity].gen != "" then acks[identity].gen else newGen;
      var rec := Ack(plugin, effective, digest, gen, Int(now));
      var candidate := acks[identity := rec];
      RecordKeeps(codec, acks, issued, revoked, identity, rec, newGen);
      hide Load, Dump, MayHold, Keyed, Faithful, Retired, Succeeds;
      var raised := Save(candidate, a);
      issued := issued + {newGen};
      return if raised then None else Some(rec);
    }

    /** Drops the matched records; with none to drop nothing is written. */
    method Drop(matched: set<string>, a: Attempt) returns (r: Option<Acks>)
      requires Valid() && Unused(a) && matched <= acks.Keys
      modifies this, disk
      ensures Valid() && issued == old(issued)
      ensures r.Some? <==> matched == {} || Succeeds(a)
      ensures r == None || matched == {} ==>
        acks == old(acks) && revoked == old(revoked) && Read(disk.fs, path) == old(Read(disk.fs, path))
      ensures matched == {} ==> disk.fs == old(disk.fs) && disk.trace == old(disk.trace)
      ensures r.Some? ==>
        && r.value == old(acks) - (old(acks).Keys - matched)
        && acks == old(acks) - matched
        && revoked == old(revoked) + set i | i in matched :: (i, old(acks)[i].gen)
      ensures r.Some? && matched != {} ==> Read(disk.fs, path) == Some(Dump(codec, acks))
      ensures var file := Some(Dump(codec, old(acks) - matched));
        && CrashFinds(|old(disk.trace)|, old(backlog) + iset{file})
        && (r.Some? && matched != {} && Settles(a.calls) ==> backlog == iset{file})
    {
      if matched == {} {
        return Some(map[]);
      }
      var candidate, removed := acks - matched, acks - (acks.Keys - matched);
      DropKeeps(codec, acks, issued, revoked, matched);
      ghost var gone := set i | i in matched :: (i, acks[i].gen);
      hide Load, Dump, MayHold, Keyed, Faithful, Retired, Succeeds;
      var raised := Save(candidate, a);
      if raised {
        return None;
      }
      revoked := revoked + gone;
      return Some(removed);
    }

    method RevokePlugin(plugin: string, a: Attempt) returns (r: Option<Acks>)
      requires Valid() && Unused(a)
      modifies this, disk
      ensures Valid()
      ensures r == None ==> acks == old(acks) && Read(disk.fs, path) == old(Read(disk.fs, path))
      ensures r.Some? ==> acks == map i | i in old(acks) && old(acks)[i].plugin != plugin :: old(acks)[i]
      ensures r.Some? ==> r.value == map i | i in old(acks) && old(acks)[i].plugin == plugin :: old(acks)[i]
    {
      hide Valid, Unused;
      r := Drop((set i | i in acks && acks[i].plugin == plugin), a);
    }

    method RevokeEffective(plugin: string, effective: string, a: Attempt) returns (r: Option<Acks>)
      requires Valid() && Unused(a)
      modifies this, disk
      ensures Valid()
      ensures r == None ==> acks == old(acks) && Read(disk.fs, path) == old(Read(disk.fs, path))
      ensures r.Some? ==>
        acks == map i | i in old(acks) && (old(acks)[i].plugin != plugin || old(acks)[i].effective != effective) :: old(acks)[i]
    {
      hide Valid, Unused;
      r := Drop((set i | i in acks && acks[i].plugin == plugin && acks[i].effective == effective), a);
    }

    method PruneStale(valid: set<string>, a: Attempt) returns (r: Option<Acks>)
      requires Valid() && Unused(a)
      modifies this, disk
      ensures Valid()
      ensures r == None ==> acks == old(acks) && Read(disk.fs, path) == old(Read(disk.fs, path))
      ensures r.Some? ==> acks == map i | i in old(acks) && i in valid :: old(acks)[i]
    {
      hide Valid, Unused;
      r := Drop(acks.Keys - valid, a);
    }
  }

  lemma SafeFinds(disk: Disk, mark: nat, start: Fs, path: string, text: string, backlog: iset<Option<string>>)
    requires forall o :: MayHold(start, path, o) ==> o in backlog
    requires disk.SafeSince(mark, start, path, text)
    ensures forall k, o :: mark <= k < |disk.trace| && MayHold(disk.trace[k], path, o) ==> o in backlog + iset{Some(text)}
  {
    hide MayHold;
  }

  lemma RecordKeeps(c: Codec, m: Acks, issued: set<string>, revoked: set<(string, string)>, i: string, a: Ack, newGen: string)
    requires Keyed(c, m) && Retired(m, issued, revoked) && newGen != "" && newGen !in issued
    requires c.identity(a.plugin, a.effective, a.digest) == i && ValidTs(a.ts)
    requires a.gen == if i in m && m[i].gen != "" then m[i].gen else newGen
    ensures Keyed(c, m[i := a]) && Retired(m[i := a], issued + {newGen}, revoked)
    ensures Retired(m, issued + {newGen}, revoked)
    ensures a.gen == if i in m then m[i].gen else newGen
  {
  }

  lemma DropKeeps(c: Codec, m: Acks, issued: set<string>, revoked: set<(string, string)>, matched: set<string>)
    requires Keyed(c, m) && Retired(m, issued, revoked) && matched <= m.Keys
    ensures Keyed(c, m - matched)
    ensures Retired(m - matched, issued, revoked + set i | i in matched :: (i, m[i].gen))
  {
  }

  /** A restart finds the consents that memory held, as long as no field is empty and the file is
      within the reader's cap. */
  lemma RestartFindsMemory(store: CallbackAckStore)
    requires store.Valid() && AllNamed(store.acks) && |Dump(store.codec, store.acks)| <= MAX_ACKS_BYTES
    ensures Load(store.codec, Read(store.disk.fs, store.path)) == store.acks
  {
    KeyedReadsBack(store.codec, store.acks);
  }
}
