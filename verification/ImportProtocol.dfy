/**
 Any number of imports at work on one store, step by step: parts written and renamed, links and
 namespaces saved under the state lock, indexes merged under the lock of their namespace.  A stop may
 come between any two steps.
 */
module ImportProtocol {
  import opened Basics
  import Index
  import Manifests
  import Ref
  import Validate

  /** The hash function, and the JSON of the two documents that the protocol reads back. */
  datatype Codec = Codec(
    h: Hasher, encodeIndex: seq<Index.Member> -> Bytes, decodeIndex: Bytes -> Option<seq<Index.Member>>,
    encodeManifest: Manifests.Manifest -> Bytes, decodeManifest: Bytes -> Option<Manifests.Manifest>)

  /** What is written is read back. */
  ghost predicate RoundTrips(c: Codec) {
    && (forall ms :: c.decodeIndex(c.encodeIndex(ms)) == Some(ms))
    && (forall m :: Validate.Accepts(m) ==> c.decodeManifest(c.encodeManifest(m)) == Some(m))
  }

  /** The file digests of a manifest; None for bytes that are no valid manifest. */
  ghost function ManifestFiles(c: Codec, b: Bytes): Option<set<Bytes>> {
    var m := c.decodeManifest(b);
    if m.None? || !Validate.Accepts(m.value) then None else Some(set f | f in m.value.files :: f.digest)
  }

  /* ---- Programs ---- */

  /**
   What an import does to the store, in order.  Put and Has name a blob by bare hexadecimal digest;
   Has stands for a file that is found in the store already.
   */
  datatype Op =
    | Put(digest: string, bytes: Bytes)
    | Has(digest: string)
    | Link(manifest: Bytes, record: Bytes)
    | Merge(key: Bytes, members: seq<Index.Member>)

  /** Where a process stands inside its first operation. */
  datatype Pc =
    | Start
    | Verified
    | Absent
    | Locked
    | Loaded(links: map<Bytes, Bytes>)
    | Holding
    | Pointed(at: Option<Bytes>)
    | Merged(merged: seq<Index.Member>)
    | IndexAbsent(merged: seq<Index.Member>)
    | IndexStored(merged: seq<Index.Member>)
    | StateHeld(merged: seq<Index.Member>)
    | StateLoaded(merged: seq<Index.Member>, namespaces: map<Bytes, Bytes>)
    | Published

  /**
   done, seen and stored are history: the operations completed so far, the digests found or put, and the
   contents put.
   */
  datatype Proc = Proc(todo: seq<Op>, pc: Pc, seen: set<string>, stored: set<Bytes>, done: seq<Op>)

  /**
   The store and the processes.  clash and committed are history: two inputs of one digest, once a Put
   has met them, and what has been published under each namespace key.
   */
  datatype State = State(
    blobs: map<string, Bytes>, namespaces: map<Bytes, Bytes>, links: map<Bytes, Bytes>,
    stateLock: Option<nat>, nsLocks: map<Bytes, nat>, procs: map<nat, Proc>,
    clash: Option<(Bytes, Bytes)>, committed: map<Bytes, map<Bytes, Index.Member>>)

  /* ---- Steps ---- */

  function With(s: State, p: nat, proc: Proc): State {
    s.(procs := s.procs[p := proc])
  }

  function At(s: State, p: nat, pc: Pc): State
    requires p in s.procs
  {
    With(s, p, s.procs[p].(pc := pc))
  }

  /** The process goes on to its next operation. */
  function Next(s: State, p: nat, seen: set<string>, stored: set<Bytes>): State
    requires p in s.procs && s.procs[p].todo != []
  {
    var proc := s.procs[p];
    With(s, p, Proc(proc.todo[1..], Start, proc.seen + seen, proc.stored + stored, proc.done + [proc.todo[0]]))
  }

  /** An error or a stop: the deferred unlocks run, and whatever was stored stays. */
  function Stop(s: State, p: nat): State
    requires p in s.procs
  {
    With(s, p, s.procs[p].(todo := [], pc := Start)).(
      stateLock := if s.stateLock == Some(p) then None else s.stateLock,
      nsLocks := map k | k in s.nsLocks && s.nsLocks[k] != p :: s.nsLocks[k])
  }

  /** Two inputs of one digest, if the store has other bytes under it. */
  function Meets(s: State, digest: string, bytes: Bytes): Option<(Bytes, Bytes)> {
    if s.clash.None? && digest in s.blobs && s.blobs[digest] != bytes then Some((bytes, s.blobs[digest])) else s.clash
  }

  /** The existing blob wins. */
  function KeepBlob(s: State, digest: string, bytes: Bytes): State {
    s.(clash := Meets(s, digest, bytes))
  }

  /** The rename, which replaces a blob that has appeared since it was looked for. */
  function Rename(s: State, digest: string, bytes: Bytes): State {
    s.(clash := Meets(s, digest, bytes), blobs := s.blobs[digest := bytes])
  }

  function Lookup<V>(m: map<Bytes, V>, k: Bytes): Option<V> {
    if k in m then Some(m[k]) else None
  }

  /** What has been published under a key. */
  function Committed(s: State, key: Bytes): map<Bytes, Index.Member> {
    if key in s.committed then s.committed[key] else map[]
  }

  /** existingMembers: no index yet, or one that is present, readable and valid; everything else is an error. */
  ghost function ReadIndex(c: Codec, blobs: map<string, Bytes>, at: Option<Bytes>): Option<seq<Index.Member>> {
    if at.None? then Some([])
    else if DigestHex(at.value) !in blobs then None
    else
      var ms := c.decodeIndex(blobs[DigestHex(at.value)]);
      if ms.None? || !Index.ValidMembers(ms.value) then None else ms
  }

  function IndexDigest(c: Codec, ms: seq<Index.Member>): string {
    Hex(c.h(c.encodeIndex(ms)))
  }

  /** One step of process p; None when it has nothing to do or waits for a lock. */
  ghost function Advance(c: Codec, s: State, p: nat): Option<State>
    requires p in s.procs
  {
    var proc := s.procs[p];
    if proc.todo == [] then None else
    match proc.todo[0]
    case Put(digest, bytes) => AdvancePut(c, s, p, digest, bytes)
    case Has(digest) => if digest in s.blobs then Some(Next(s, p, {digest}, {})) else Some(Stop(s, p))
    case Link(manifest, record) => AdvanceLink(s, p, manifest, record)
    case Merge(key, members) => AdvanceMerge(c, s, p, key, members)
  }

  /** cas.Put: write and hash the part, look for the blob, rename. */
  ghost function AdvancePut(c: Codec, s: State, p: nat, digest: string, bytes: Bytes): Option<State>
    requires p in s.procs && s.procs[p].todo != []
  {
    match s.procs[p].pc
    case Start => if Hex(c.h(bytes)) == digest then Some(At(s, p, Verified)) else Some(Stop(s, p))
    case Verified =>
      if digest in s.blobs then Some(Next(KeepBlob(s, digest, bytes), p, {digest}, {bytes})) else Some(At(s, p, Absent))
    case Absent => Some(Next(Rename(s, digest, bytes), p, {digest}, {bytes}))
    case _ => None
  }

  /** SetDistributionLink: load, change and save the link map under the state lock. */
  ghost function AdvanceLink(s: State, p: nat, manifest: Bytes, record: Bytes): Option<State>
    requires p in s.procs && s.procs[p].todo != []
  {
    var md, rd := Ref.NormalizeDigest(manifest), Ref.NormalizeDigest(record);
    match s.procs[p].pc
    case Start =>
      if md.None? || rd.None? then Some(Stop(s, p))
      else if s.stateLock.None? then Some(At(s.(stateLock := Some(p)), p, Locked)) else None
    case Locked => Some(At(s, p, Loaded(s.links)))
    case Loaded(links) =>
      if md.None? || rd.None? then None
      else Some(Next(s.(links := links[md.value := rd.value], stateLock := None), p, {}, {}))
    case _ => None
  }

  /** The end of Import: read, merge, seal, check, put and publish an index under the namespace lock. */
  ghost function AdvanceMerge(c: Codec, s: State, p: nat, key: Bytes, members: seq<Index.Member>): Option<State>
    requires p in s.procs && s.procs[p].todo != []
  {
    match s.procs[p].pc
    case Start => if key in s.nsLocks then None else Some(At(s.(nsLocks := s.nsLocks[key := p]), p, Holding))
    case Holding => Some(At(s, p, Pointed(Lookup(s.namespaces, key))))
    case Pointed(at) =>
      var current := ReadIndex(c, s.blobs, at);
      if current.None? || !Index.ValidMembers(Index.UpsertAll(current.value, members)) then Some(Stop(s, p))
      else Some(At(s, p, Merged(Index.UpsertAll(current.value, members))))
    case Merged(ms) =>
      if IndexDigest(c, ms) in s.blobs
      then Some(At(KeepBlob(s, IndexDigest(c, ms), c.encodeIndex(ms)), p, IndexStored(ms)))
      else Some(At(s, p, IndexAbsent(ms)))
    case IndexAbsent(ms) => Some(At(Rename(s, IndexDigest(c, ms), c.encodeIndex(ms)), p, IndexStored(ms)))
    case IndexStored(ms) =>
      if !Ref.ValidNamespaceKey(key) then Some(Stop(s, p))
      else if s.stateLock.None? then Some(At(s.(stateLock := Some(p)), p, StateHeld(ms))) else None
    case StateHeld(ms) => Some(At(s, p, StateLoaded(ms, s.namespaces)))
    case StateLoaded(ms, namespaces) =>
      Some(At(s.(namespaces := namespaces[key := DigestOf(c.h, c.encodeIndex(ms))],
                 committed := s.committed[key := Index.Commit(Committed(s, key), members)],
                 stateLock := None), p, Published))
    case Published => Some(Next(s.(nsLocks := s.nsLocks - {key}), p, {}, {}))
    case _ => None
  }

  /* ---- What an import promises before it starts ---- */

  /** A manifest whose bytes have been stored, and all of whose files have been seen. */
  ghost predicate Covered(c: Codec, seen: set<string>, stored: set<Bytes>, manifest: Bytes) {
    exists b :: b in stored && DigestOf(c.h, b) == manifest && ManifestFiles(c, b).Some? &&
                forall f :: f in ManifestFiles(c, b).value ==> DigestHex(f) in seen
  }

  /** Links and index members come after everything they refer to. */
  ghost predicate WellOrdered(c: Codec, seen: set<string>, stored: set<Bytes>, todo: seq<Op>)
    decreases |todo|
  {
    todo == [] ||
    match todo[0]
    case Put(digest, bytes) => WellOrdered(c, seen + {digest}, stored + {bytes}, todo[1..])
    case Has(digest) => WellOrdered(c, seen + {digest}, stored, todo[1..])
    case Link(manifest, record) =>
      Covered(c, seen, stored, manifest) && DigestHex(record) in seen && WellOrdered(c, seen, stored, todo[1..])
    case Merge(key, members) =>
      (forall m :: m in members ==> Covered(c, seen, stored, m.manifest)) && WellOrdered(c, seen, stored, todo[1..])
  }

  /** A new import may start at any time. */
  ghost predicate Spawns(c: Codec, s: State, s': State, p: nat) {
    p !in s.procs && p in s'.procs && s' == With(s, p, s'.procs[p]) &&
    s'.procs[p].pc == Start && s'.procs[p].seen == {} && s'.procs[p].stored == {} && s'.procs[p].done == [] &&
    WellOrdered(c, {}, {}, s'.procs[p].todo)
  }

  /** One step of the whole: a process advances, stops, or starts. */
  ghost predicate StepOf(c: Codec, s: State, s': State, p: nat) {
    (p in s.procs && (Advance(c, s, p) == Some(s') || s' == Stop(s, p))) || Spawns(c, s, s', p)
  }

  ghost predicate Step(c: Codec, s: State, s': State) {
    exists p :: StepOf(c, s, s', p)
  }

  function Empty(): State {
    State(map[], map[], map[], None, map[], map[], None, map[])
  }

  /** A run from the empty store. */
  ghost predicate Run(c: Codec, run: seq<State>) {
    run != [] && run[0] == Empty() && forall i :: 0 <= i < |run| - 1 ==> Step(c, run[i], run[i + 1])
  }
}
