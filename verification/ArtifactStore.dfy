/**
  Generated artifacts live in two stores: a row in the catalog and an object in object storage. The
  model runs `persistGeneratedArtifact` and `discardGeneratedArtifact` as interleaved steps; any step
  may be followed by a crash, and a database connection (with its advisory lock and its open
  transaction) may be lost at any time while the process itself goes on.
 */
module ArtifactStore {
  import opened Prelude
  import opened Text

  type Bytes = seq<int>

  datatype Provider = Local | S3
  datatype Retention = Active | PendingDelete | Deleted | LegalHold
  datatype Upload = Available | Removed | OtherUpload
  datatype Integrity = Verified | OtherIntegrity

  /** Where an object is stored. */
  datatype Place = Place(provider: Provider, bucket: string, key: string)

  datatype Row = Row(
    place: Place,
    contentType: string,
    filename: Option<string>,
    byteSize: Option<nat>,
    sha256: Option<string>,
    upload: Upload,
    integrity: Integrity,
    retention: Retention)

  datatype Reference = Reference(
    objectId: string,
    place: Place,
    contentType: string,
    filename: string,
    byteSize: nat,
    sha256: string,
    replayed: bool)

  const ID_LENGTH := 40

  /** A 40-digit identity, as `slice(0, 40)` of a hexadecimal SHA-256 leaves it. */
  type Identity = s: string | |s| == ID_LENGTH witness seq(ID_LENGTH, i => '0')

  /** The two hash functions: SHA-256 of a content, and the identity of an artifact. */
  datatype Hashes = Hashes(sha256: Bytes -> string, identity: (string, string, string) -> Identity)

  datatype Persist = Persist(
    provider: Provider,
    bucket: string,
    category: string,
    artifactId: string,
    filename: string,
    contentType: string,
    createdBy: string,
    bytes: Bytes,
    maxBytes: int)

  // ---------------------------------------------------------------- identities and inputs

  /** `createObjectKey`: category, two characters of the identity, identity. */
  function ObjectKey(category: string, id: string): (key: string)
    requires |id| == ID_LENGTH
    ensures |key| >= ID_LENGTH && key[|key| - ID_LENGTH..] == id
  {
    category + "/" + id[..2] + "/" + id
  }

  function IdOf(h: Hashes, input: Persist): (id: string)
    ensures |id| == ID_LENGTH
  {
    h.identity(input.category, input.artifactId, input.filename)
  }

  function PlaceOf(h: Hashes, input: Persist): (place: Place)
    ensures BelongsTo(place, IdOf(h, input))
  {
    Place(input.provider, input.bucket, ObjectKey(input.category, IdOf(h, input)))
  }

  /** The key ends in the identity, so objects of different artifacts never share a place. */
  predicate BelongsTo(place: Place, id: string)
  {
    |id| == ID_LENGTH && |place.key| >= ID_LENGTH && place.key[|place.key| - ID_LENGTH..] == id
  }

  predicate HasDoubleDot(s: string)
  {
    |s| >= 2 && (s[..2] == ".." || HasDoubleDot(s[1..]))
  }

  predicate ValidFilename(name: string)
  {
    && 1 <= |name| <= 200 && IsAlphanumeric(name[0])
    && (forall i :: 0 <= i < |name| ==> IsAlphanumeric(name[i]) || name[i] in "._-")
    && !HasDoubleDot(name)
  }

  predicate ValidLabel(s: string, limit: nat)
  {
    Trim(s) != [] && |s| <= limit
  }

  /** `assertInput` and the size limit: a call that fails these touches neither store. */
  predicate ValidInput(input: Persist)
  {
    && ValidLabel(input.artifactId, 512) && ValidFilename(input.filename)
    && ValidLabel(input.contentType, 200) && ValidLabel(input.createdBy, 512)
    && 1 <= |input.bytes| <= input.maxBytes <= MAX_SAFE_INTEGER
  }

  lemma {:induction false} DoubleDotIff(s: string)
    ensures HasDoubleDot(s) <==> exists i :: 0 <= i < |s| - 1 && s[i] == '.' == s[i + 1]
  {
    if |s| >= 2 {
      DoubleDotIff(s[1..]);
      assert forall i :: 0 <= i < |s| - 2 ==> s[1..][i] == s[i + 1];
      assert s[..2] == ".." <==> s[0] == '.' == s[1];
      if i :| 0 <= i < |s| - 1 && s[i] == '.' == s[i + 1] {
        assert i > 0 ==> s[1..][i - 1] == '.' == s[1..][i];
      }
      if j :| 0 <= j < |s[1..]| - 1 && s[1..][j] == '.' == s[1..][j + 1] {
        assert s[j + 1] == '.' == s[j + 2];
      }
    }
  }

  /** A text that is not blank and at most so long. */
  ghost predicate IsLabel(s: string, limit: nat)
  {
    |s| <= limit && exists c :: c in s && !IsSpace(c)
  }

  /** Up to 200 letters, digits and the three marks, of which none comes first, and no two dots in a row. */
  ghost predicate IsFilename(name: string)
  {
    && name != "" && |name| <= 200 && name[0] !in {'.', '_', '-'}
    && (forall c :: c in name ==> IsAlphanumeric(c) || c == '.' || c == '_' || c == '-')
    && !exists i :: 0 <= i < |name| - 1 && name[i] == '.' == name[i + 1]
  }

  lemma FilenameIff(name: string)
    ensures ValidFilename(name) <==> IsFilename(name)
  {
    DoubleDotIff(name);
    hide HasDoubleDot;
    if name != "" {
      assert name[0] in name && forall i :: 0 <= i < |name| ==> name[i] in name;
    }
  }

  /** Which persists are begun at all: those of usable labels and name, in the size limit, for the provider in hand. */
  lemma BegunIff(h: Hashes, w: World, pid: nat, input: Persist, storage: Provider)
    requires pid !in w.processes
    ensures Step(h, w, Begin(pid, PersistCall(input), storage)) ==
      if IsLabel(input.artifactId, 512) && IsFilename(input.filename) && IsLabel(input.contentType, 200) && IsLabel(input.createdBy, 512)
         && 1 <= |input.bytes| <= input.maxBytes <= 9007199254740991 && input.provider == storage
      then w.(processes := w.processes[pid := Process(IdOf(h, input), true, Waiting(PersistCall(input)))]) else w
  {
    FilenameIff(input.filename);
    LabelIff(input.artifactId, 512);
    LabelIff(input.contentType, 200);
    LabelIff(input.createdBy, 512);
    hide ValidFilename, IsFilename, ValidLabel, IsLabel, IdOf;
  }

  lemma LabelIff(s: string, limit: nat)
    ensures ValidLabel(s, limit) <==> IsLabel(s, limit)
  {
    hide IsSpace;
  }

  function NewRow(h: Hashes, input: Persist): (row: Row)
  {
    Row(PlaceOf(h, input), input.contentType, Some(input.filename), Some(|input.bytes|), Some(h.sha256(input.bytes)),
        Available, Verified, Active)
  }

  function ReferenceOf(h: Hashes, input: Persist, replayed: bool): (r: Reference)
  {
    Reference(IdOf(h, input), PlaceOf(h, input), input.contentType, input.filename, |input.bytes|,
              h.sha256(input.bytes), replayed)
  }

  /** `assertMatchingArtifact`: every recorded column is the expected one and the row is live. */
  predicate Matches(h: Hashes, row: Row, input: Persist)
  {
    && row.place == PlaceOf(h, input) && row.contentType == input.contentType && row.filename == Some(input.filename)
    && row.byteSize == Some(|input.bytes|) && row.sha256 == Some(h.sha256(input.bytes)) && Live(row)
  }

  /** The inserted row is the one and only row that a later persist of the same content accepts. */
  lemma MatchesNewRow(h: Hashes, row: Row, input: Persist)
    ensures Matches(h, row, input) <==> row == NewRow(h, input)
  {
  }

  predicate Live(row: Row)
  {
    row.upload == Available && row.integrity == Verified && row.retention == Active
  }

  // ---------------------------------------------------------------- processes and the world

  datatype Call = PersistCall(input: Persist) | DiscardCall(reference: Reference)

  /** The next effect of a process. */
  datatype Pc =
    | Waiting(call: Call)
    | Locked(call: Call)
    | Replaying(input: Persist)
    | Putting(input: Persist)
    | Adopting(input: Persist)
    | Inserting(input: Persist, replayed: bool)
    | Committing(input: Persist)
    | Returning(reference: Reference)
    | Reserving(discarded: Reference)
    | Deleting(discarded: Reference)
    | Marking(discarded: Reference)

  datatype Process = Process(id: string, connected: bool, pc: Pc)

  datatype World = World(
    catalog: map<string, Row>,
    objects: map<Place, Bytes>,
    processes: map<nat, Process>,
    locks: map<string, nat>,
    returned: seq<Reference>)

  datatype Event =
    | Begin(pid: nat, call: Call, storage: Provider)
    | Advance(pid: nat)
    | LoseConnection(pid: nat)
    | Crash(pid: nat)

  function CallId(h: Hashes, call: Call): (id: string)
  {
    match call
    case PersistCall(input) => IdOf(h, input)
    case DiscardCall(reference) => reference.objectId
  }

  /** Input checks run before a connection is opened; a discard must target its own provider. */
  predicate Admissible(call: Call, storage: Provider)
  {
    match call
    case PersistCall(input) => ValidInput(input) && input.provider == storage
    case DiscardCall(reference) => reference.place.provider == storage
  }

  function Unlock(locks: map<string, nat>, id: string, pid: nat): (r: map<string, nat>)
  {
    if id in locks && locks[id] == pid then locks - {id} else locks
  }

  /** The process returns or throws: its transaction is over and its lock is free. */
  function End(w: World, pid: nat): (wNext: World)
    requires pid in w.processes
  {
    w.(processes := w.processes - {pid}, locks := Unlock(w.locks, w.processes[pid].id, pid))
  }

  function Goto(w: World, pid: nat, pc: Pc): (wNext: World)
    requires pid in w.processes
  {
    w.(processes := w.processes[pid := w.processes[pid].(pc := pc)])
  }

  /** `read` with an expected hash and a byte limit. */
  predicate Readable(h: Hashes, objects: map<Place, Bytes>, place: Place, sha256: string, maxBytes: int)
  {
    place in objects && |objects[place]| <= maxBytes && h.sha256(objects[place]) == sha256
  }

  function AdvanceSelect(h: Hashes, w: World, pid: nat, call: Call): (wNext: World)
    requires pid in w.processes
  {
    var id := w.processes[pid].id;
    match call
    case PersistCall(input) =>
      if id !in w.catalog then Goto(w, pid, Putting(input))
      else if Matches(h, w.catalog[id], input) then Goto(w, pid, Replaying(input))
      else End(w, pid)
    case DiscardCall(r) =>
      if id !in w.catalog then End(w, pid)
      else
        var row := w.catalog[id];
        if row.place != r.place || row.sha256 != Some(r.sha256) then End(w, pid)
        else if row.retention == LegalHold || row.retention == Deleted then End(w, pid)
        else Goto(w, pid, Reserving(r))
  }

  /** One effect of the process. Database effects need the connection; storage effects do not. */
  function AdvanceProcess(h: Hashes, w: World, pid: nat): (wNext: World)
    requires pid in w.processes
  {
    var p := w.processes[pid];
    match p.pc
    case Waiting(call) =>
      if !p.connected then End(w, pid)
      else if p.id in w.locks then w
      else Goto(w.(locks := w.locks[p.id := pid]), pid, Locked(call))
    case Locked(call) =>
      if !p.connected then End(w, pid) else AdvanceSelect(h, w, pid, call)
    case Replaying(input) =>
      if Readable(h, w.objects, PlaceOf(h, input), h.sha256(input.bytes), input.maxBytes)
      then Goto(w, pid, Committing(input)) else End(w, pid)
    case Putting(input) =>
      if PlaceOf(h, input) in w.objects then Goto(w, pid, Adopting(input))
      else Goto(w.(objects := w.objects[PlaceOf(h, input) := input.bytes]), pid, Inserting(input, false))
    case Adopting(input) =>
      if Readable(h, w.objects, PlaceOf(h, input), h.sha256(input.bytes), input.maxBytes)
      then Goto(w, pid, Inserting(input, true)) else End(w, pid)
    case Inserting(input, replayed) =>
      if !p.connected || p.id in w.catalog then End(w, pid)
      else Goto(w.(catalog := w.catalog[p.id := NewRow(h, input)]), pid, Returning(ReferenceOf(h, input, replayed)))
    case Committing(input) =>
      if !p.connected then End(w, pid) else Goto(w, pid, Returning(ReferenceOf(h, input, true)))
    case Returning(reference) =>
      End(w.(returned := w.returned + [reference]), pid)
    case Reserving(r) =>
      if !p.connected || p.id !in w.catalog then End(w, pid)
      else Goto(w.(catalog := w.catalog[p.id := w.catalog[p.id].(retention := PendingDelete)]), pid, Deleting(r))
    case Deleting(r) =>
      Goto(w.(objects := w.objects - {r.place}), pid, Marking(r))
    case Marking(r) =>
      if !p.connected || p.id !in w.catalog || w.catalog[p.id].retention != PendingDelete then End(w, pid)
      else End(w.(catalog := w.catalog[p.id := w.catalog[p.id].(retention := Deleted, upload := Removed)]), pid)
  }

  /** Without its connection a process changes no row, takes no lock and returns nothing it was not about to. */
  lemma Disconnected(h: Hashes, w: World, pid: nat)
    requires pid in w.processes && !w.processes[pid].connected
    ensures var wNext := AdvanceProcess(h, w, pid);
      && wNext.catalog == w.catalog && wNext.locks.Keys <= w.locks.Keys
      && (w.processes[pid].pc.Returning? || (wNext.returned == w.returned && (pid in wNext.processes ==> !wNext.processes[pid].pc.Returning?)))
  {
    hide Readable, PlaceOf;
  }

  function Step(h: Hashes, w: World, e: Event): (wNext: World)
  {
    match e
    case Begin(pid, call, storage) =>
      if pid in w.processes || !Admissible(call, storage) then w
      else w.(processes := w.processes[pid := Process(CallId(h, call), true, Waiting(call))])
    case Advance(pid) => if pid in w.processes then AdvanceProcess(h, w, pid) else w
    case LoseConnection(pid) =>
      if pid !in w.processes then w
      else w.(processes := w.processes[pid := w.processes[pid].(connected := false)],
              locks := Unlock(w.locks, w.processes[pid].id, pid))
    case Crash(pid) => if pid in w.processes then End(w, pid) else w
  }

  function Run(h: Hashes, w: World, events: seq<Event>): (wNext: World)
    decreases |events|
  {
    if events == [] then w else Run(h, Step(h, w, events[0]), events[1..])
  }

  // ---------------------------------------------------------------- the invariant

  ghost predicate Backed(h: Hashes, w: World, id: string)
    requires id in w.catalog
  {
    var row := w.catalog[id];
    Live(row) ==> row.place in w.objects && row.sha256 == Some(h.sha256(w.objects[row.place]))
  }

  /** Every live row has its object, at its place, with the recorded hash. */
  ghost predicate Safe(h: Hashes, w: World)
  {
    forall id :: id in w.catalog ==> Backed(h, w, id)
  }

  ghost predicate RowsPlaced(w: World)
  {
    forall id :: id in w.catalog ==> BelongsTo(w.catalog[id].place, id)
  }

  ghost predicate RowMatches(row: Row, r: Reference)
  {
    && row.place == r.place && row.contentType == r.contentType && row.filename == Some(r.filename)
    && row.byteSize == Some(r.byteSize) && row.sha256 == Some(r.sha256)
  }

  ghost predicate InTransaction(p: Process)
  {
    p.connected && !p.pc.Waiting?
  }

  ghost predicate Owns(h: Hashes, p: Process)
  {
    match p.pc
    case Waiting(call) => CallId(h, call) == p.id
    case Locked(call) => CallId(h, call) == p.id
    case Replaying(i) => IdOf(h, i) == p.id
    case Putting(i) => IdOf(h, i) == p.id
    case Adopting(i) => IdOf(h, i) == p.id
    case Inserting(i, _) => IdOf(h, i) == p.id
    case Committing(i) => IdOf(h, i) == p.id
    case Returning(r) => r.objectId == p.id
    case Reserving(r) => r.objectId == p.id
    case Deleting(r) => r.objectId == p.id
    case Marking(r) => r.objectId == p.id
  }

  /** What a process may rely on between two of its steps, whatever the others do. */
  ghost predicate ProcessOk(h: Hashes, w: World, p: Process)
  {
    Owns(h, p) &&
    match p.pc
    case Waiting(_) => true
    case Locked(_) => true
    case Replaying(i) => p.connected ==> p.id in w.catalog && Matches(h, w.catalog[p.id], i)
    case Committing(i) => p.connected ==> p.id in w.catalog && Matches(h, w.catalog[p.id], i)
    case Putting(i) => p.connected ==> p.id !in w.catalog
    case Adopting(i) => p.connected ==> p.id !in w.catalog
    case Inserting(i, _) =>
      p.connected ==>
        p.id !in w.catalog && PlaceOf(h, i) in w.objects && h.sha256(w.objects[PlaceOf(h, i)]) == h.sha256(i.bytes)
    case Returning(r) => p.id in w.catalog && RowMatches(w.catalog[p.id], r)
    case Reserving(r) =>
      p.connected ==>
        && p.id in w.catalog && w.catalog[p.id].place == r.place
        && (w.catalog[p.id].retention == Active || w.catalog[p.id].retention == PendingDelete)
    case Deleting(r) => Condemned(w, p.id, r)
    case Marking(r) => Condemned(w, p.id, r)
  }

  ghost predicate Condemned(w: World, id: string, r: Reference)
  {
    && id in w.catalog && w.catalog[id].place == r.place
    && (w.catalog[id].retention == PendingDelete || w.catalog[id].retention == Deleted)
  }

  ghost predicate LockHeld(w: World, pid: nat)
    requires pid in w.processes
  {
    var p := w.processes[pid];
    InTransaction(p) ==> p.id in w.locks && w.locks[p.id] == pid
  }

  ghost predicate ReturnsRecorded(w: World)
  {
    forall k :: 0 <= k < |w.returned| ==>
      w.returned[k].objectId in w.catalog && RowMatches(w.catalog[w.returned[k].objectId], w.returned[k])
  }

  ghost predicate Inv(h: Hashes, w: World)
  {
    && Safe(h, w) && RowsPlaced(w) && ReturnsRecorded(w)
    && (forall pid :: pid in w.processes ==> LockHeld(w, pid))
    && (forall pid :: pid in w.processes ==> ProcessOk(h, w, w.processes[pid]))
  }

  // ---------------------------------------------------------------- every step keeps it

  lemma PlacesDiffer(a: Place, b: Place, id: string, otherId: string)
    requires BelongsTo(a, id) && BelongsTo(b, otherId) && id != otherId
    ensures a != b
  {
  }

  /** A step that changes neither store. */
  lemma KeepStores(h: Hashes, w: World, wNext: World)
    requires Inv(h, w) && wNext.catalog == w.catalog && wNext.objects == w.objects
    ensures Safe(h, wNext) && RowsPlaced(wNext)
    ensures forall p: Process :: ProcessOk(h, w, p) ==> ProcessOk(h, wNext, p)
  {
    hide PlaceOf, NewRow, Matches, Owns, RowMatches;
    assert forall id :: id in w.catalog ==> Backed(h, w, id) && BelongsTo(w.catalog[id].place, id);
    forall p: Process | ProcessOk(h, w, p) ensures ProcessOk(h, wNext, p) {}
  }

  /** `put` creates an object at a free place. */
  lemma PutKeeps(h: Hashes, w: World, wNext: World, place: Place, bytes: Bytes)
    requires Inv(h, w) && place !in w.objects
    requires wNext.catalog == w.catalog && wNext.objects == w.objects[place := bytes]
    ensures Safe(h, wNext) && RowsPlaced(wNext)
    ensures forall p: Process :: ProcessOk(h, w, p) ==> ProcessOk(h, wNext, p)
  {
    hide PlaceOf, NewRow, Matches, Owns, RowMatches;
    assert forall id :: id in w.catalog ==> Backed(h, w, id) && BelongsTo(w.catalog[id].place, id);
    forall p: Process | ProcessOk(h, w, p) ensures ProcessOk(h, wNext, p) {}
  }

  /** `delete` removes the object of a row that is no longer active. */
  lemma DeleteKeeps(h: Hashes, w: World, wNext: World, id: string, r: Reference)
    requires Inv(h, w) && Condemned(w, id, r)
    requires wNext.catalog == w.catalog && wNext.objects == w.objects - {r.place}
    ensures Safe(h, wNext) && RowsPlaced(wNext)
    ensures forall p: Process :: ProcessOk(h, w, p) ==> ProcessOk(h, wNext, p)
  {
    hide PlaceOf, NewRow, Matches, RowMatches;
    assert BelongsTo(w.catalog[id].place, id);
    forall otherId | otherId in w.catalog
      ensures Backed(h, wNext, otherId) && BelongsTo(wNext.catalog[otherId].place, otherId)
    {
      assert Backed(h, w, otherId) && BelongsTo(w.catalog[otherId].place, otherId);
      if otherId != id {
        PlacesDiffer(w.catalog[otherId].place, r.place, otherId, id);
      }
    }
    forall p: Process | ProcessOk(h, w, p)
      ensures ProcessOk(h, wNext, p)
    {
      if p.pc.Inserting? && p.connected {
        assert BelongsTo(PlaceOf(h, p.pc.input), p.id);
        PlacesDiffer(PlaceOf(h, p.pc.input), r.place, p.id, id);
      }
    }
  }

  /** How a row may change in one step. */
  ghost predicate RetentionMoves(a: Retention, b: Retention)
  {
    a == b || (a == Active && b == PendingDelete) || (a == PendingDelete && b == Deleted)
  }

  ghost predicate RowMoves(a: Row, b: Row)
  {
    && b == a.(retention := b.retention, upload := b.upload) && RetentionMoves(a.retention, b.retention)
    && (b.upload == a.upload || (b.upload == Removed && a.retention == PendingDelete && b.retention == Deleted))
  }

  ghost predicate CatalogMoves(a: map<string, Row>, b: map<string, Row>)
  {
    forall id :: id in a ==> id in b && RowMoves(a[id], b[id])
  }

  lemma NothingMoves(catalog: map<string, Row>)
    ensures CatalogMoves(catalog, catalog)
  {
  }

  lemma OneRowMoves(catalog: map<string, Row>, id: string, row: Row)
    requires id in catalog ==> RowMoves(catalog[id], row)
    ensures CatalogMoves(catalog, catalog[id := row])
  {
  }

  lemma SelectMovesNothing(h: Hashes, w: World, pid: nat, call: Call)
    requires pid in w.processes
    ensures AdvanceSelect(h, w, pid, call).catalog == w.catalog
  {
    hide Matches;
  }

  lemma AdvanceMoves(h: Hashes, w: World, pid: nat)
    requires Inv(h, w) && pid in w.processes
    ensures CatalogMoves(w.catalog, AdvanceProcess(h, w, pid).catalog)
  {
    var p := w.processes[pid];
    assert p.pc.Reserving? ==> ProcessOk(h, w, p);
    hide Inv, CatalogMoves, AdvanceSelect, PlaceOf, NewRow, Readable;
    NothingMoves(w.catalog);
    match p.pc
    case Locked(call) =>
      SelectMovesNothing(h, w, pid, call);
    case Inserting(input, _) =>
      if p.id !in w.catalog {
        OneRowMoves(w.catalog, p.id, NewRow(h, input));
      }
    case Reserving(_) =>
      if p.connected {
        OneRowMoves(w.catalog, p.id, w.catalog[p.id].(retention := PendingDelete));
      }
    case Marking(_) =>
      if p.id in w.catalog && w.catalog[p.id].retention == PendingDelete {
        OneRowMoves(w.catalog, p.id, w.catalog[p.id].(retention := Deleted, upload := Removed));
      }
    case _ =>
  }

  /** In one step retention stays, or moves from ACTIVE to PENDING_DELETE or from there to DELETED. */
  lemma StepMoves(h: Hashes, w: World, e: Event)
    requires Inv(h, w)
    ensures CatalogMoves(w.catalog, Step(h, w, e).catalog)
  {
    if e.Advance? && e.pid in w.processes {
      AdvanceMoves(h, w, e.pid);
      hide Inv, AdvanceProcess;
    }
  }

  /** How a row may change in a whole run. */
  ghost predicate RetentionReaches(a: Retention, b: Retention)
  {
    a == b || (a == Active && (b == PendingDelete || b == Deleted)) || (a == PendingDelete && b == Deleted)
  }

  ghost predicate RowEvolves(a: Row, b: Row)
  {
    && a.place == b.place && a.contentType == b.contentType && a.filename == b.filename
    && a.byteSize == b.byteSize && a.sha256 == b.sha256 && a.integrity == b.integrity
    && RetentionReaches(a.retention, b.retention)
    && (a.upload == b.upload || (b.upload == Removed && b.retention == Deleted))
  }

  /** Rows are never removed, never lose a recorded column, and retention only moves forward. */
  ghost predicate CatalogEvolves(a: map<string, Row>, b: map<string, Row>)
  {
    forall id :: id in a ==> id in b && RowEvolves(a[id], b[id])
  }

  /** A database effect of the process that holds the lock of `id`, on the row of `id` alone. */
  lemma RowKeeps(h: Hashes, w: World, wNext: World, pid: nat, row: Row)
    requires Inv(h, w) && pid in w.processes && InTransaction(w.processes[pid])
    requires var id := w.processes[pid].id;
      && wNext.catalog == w.catalog[id := row] && wNext.objects == w.objects
      && BelongsTo(row.place, id) && Backed(h, wNext, id)
      && (id in w.catalog ==> RowEvolves(w.catalog[id], row))
    ensures Safe(h, wNext) && RowsPlaced(wNext)
    ensures forall q :: q in w.processes && q != pid ==> ProcessOk(h, wNext, w.processes[q])
    ensures CatalogEvolves(w.catalog, wNext.catalog)
  {
    hide PlaceOf, NewRow, Matches, Owns, ProcessOk;
    var id := w.processes[pid].id;
    forall otherId | otherId in wNext.catalog
      ensures Backed(h, wNext, otherId) && BelongsTo(wNext.catalog[otherId].place, otherId)
    {
      if otherId != id {
        assert Backed(h, w, otherId) && BelongsTo(w.catalog[otherId].place, otherId);
      }
    }
    forall q | q in w.processes && q != pid
      ensures ProcessOk(h, wNext, w.processes[q])
    {
      assert ProcessOk(h, w, w.processes[q]) && LockHeld(w, q) && LockHeld(w, pid);
      OtherProcess(h, w, wNext, id, row, w.processes[q]);
    }
  }

  /** A process outside the transaction on `id` may still rely on what it relied on. */
  lemma OtherProcess(h: Hashes, w: World, wNext: World, id: string, row: Row, p: Process)
    requires ProcessOk(h, w, p) && (InTransaction(p) ==> p.id != id)
    requires wNext.catalog == w.catalog[id := row] && wNext.objects == w.objects && (id in w.catalog ==> RowEvolves(w.catalog[id], row))
    ensures ProcessOk(h, wNext, p)
  {
    hide PlaceOf, NewRow, Matches, Owns;
  }

  lemma EvolvesReflexive(catalog: map<string, Row>)
    ensures CatalogEvolves(catalog, catalog)
  {
  }

  lemma EvolvesTransitive(a: map<string, Row>, b: map<string, Row>, c: map<string, Row>)
    requires CatalogEvolves(a, b) && CatalogEvolves(b, c)
    ensures CatalogEvolves(a, c)
  {
    forall id | id in a
      ensures id in c && RowEvolves(a[id], c[id])
    {
      assert RowEvolves(a[id], b[id]) && RowEvolves(b[id], c[id]);
    }
  }

  lemma ReturnsKept(w: World, wNext: World)
    requires ReturnsRecorded(w) && CatalogEvolves(w.catalog, wNext.catalog)
    requires wNext.returned == w.returned ||
      exists r :: wNext.returned == w.returned + [r] && r.objectId in wNext.catalog && RowMatches(wNext.catalog[r.objectId], r)
    ensures ReturnsRecorded(wNext)
  {
    forall k | 0 <= k < |wNext.returned|
      ensures wNext.returned[k].objectId in wNext.catalog && RowMatches(wNext.catalog[wNext.returned[k].objectId], wNext.returned[k])
    {
      if k < |w.returned| {
        assert wNext.returned[k] == w.returned[k];
      }
    }
  }

  /** The parts of the invariant that concern the process table. */
  ghost predicate TableOk(h: Hashes, w: World)
  {
    && (forall pid :: pid in w.processes ==> LockHeld(w, pid))
    && (forall pid :: pid in w.processes ==> ProcessOk(h, w, w.processes[pid]))
  }

  lemma EndTable(h: Hashes, w: World, pid: nat)
    requires pid in w.processes
    requires forall q :: q in w.processes ==> LockHeld(w, q)
    requires forall q :: q in w.processes && q != pid ==> ProcessOk(h, w, w.processes[q])
    ensures TableOk(h, End(w, pid))
  {
    var wNext := End(w, pid);
    forall q | q in wNext.processes
      ensures LockHeld(wNext, q) && ProcessOk(h, wNext, wNext.processes[q])
    {
      assert LockHeld(w, q) && ProcessOk(h, w, w.processes[q]);
    }
  }

  lemma GotoTable(h: Hashes, w: World, pid: nat, pc: Pc)
    requires pid in w.processes && !pc.Waiting?
    requires forall q :: q in w.processes ==> LockHeld(w, q)
    requires w.processes[pid].connected ==> w.processes[pid].id in w.locks && w.locks[w.processes[pid].id] == pid
    requires forall q :: q in w.processes && q != pid ==> ProcessOk(h, w, w.processes[q])
    requires ProcessOk(h, w, w.processes[pid].(pc := pc))
    ensures TableOk(h, Goto(w, pid, pc))
  {
    var wNext := Goto(w, pid, pc);
    forall q | q in wNext.processes
      ensures LockHeld(wNext, q) && ProcessOk(h, wNext, wNext.processes[q])
    {
      assert LockHeld(w, q);
      if q != pid {
        assert ProcessOk(h, w, w.processes[q]);
      } else {
        assert ProcessOk(h, w, w.processes[pid].(pc := pc));
      }
    }
  }

  /** Steps that touch neither store: ending, and moving on to the next effect. */
  lemma EndKeeps(h: Hashes, w: World, pid: nat)
    requires Inv(h, w) && pid in w.processes
    ensures Inv(h, End(w, pid)) && CatalogEvolves(w.catalog, End(w, pid).catalog)
  {
    hide ProcessOk, LockHeld, Safe, RowsPlaced;
    KeepStores(h, w, End(w, pid));
    EndTable(h, w, pid);
    ReturnsKept(w, End(w, pid));
  }

  lemma GotoKeeps(h: Hashes, w: World, pid: nat, pc: Pc)
    requires Inv(h, w) && pid in w.processes && !w.processes[pid].pc.Waiting? && !pc.Waiting?
    requires ProcessOk(h, w, w.processes[pid].(pc := pc))
    ensures Inv(h, Goto(w, pid, pc)) && CatalogEvolves(w.catalog, Goto(w, pid, pc).catalog)
  {
    hide ProcessOk, Safe, RowsPlaced;
    KeepStores(h, w, Goto(w, pid, pc));
    assert LockHeld(w, pid);
    GotoTable(h, w, pid, pc);
    ReturnsKept(w, Goto(w, pid, pc));
  }

  lemma LockKeeps(h: Hashes, w: World, pid: nat)
    requires Inv(h, w) && pid in w.processes
    requires w.processes[pid].pc.Waiting?
    ensures Inv(h, AdvanceProcess(h, w, pid)) && CatalogEvolves(w.catalog, AdvanceProcess(h, w, pid).catalog)
  {
    var p := w.processes[pid];
    assert ProcessOk(h, w, p);
    hide Safe, RowsPlaced;
    if !p.connected {
      EndKeeps(h, w, pid);
    } else if p.id !in w.locks {
      var w1 := w.(locks := w.locks[p.id := pid]);
      KeepStores(h, w, w1);
      forall q | q in w1.processes ensures LockHeld(w1, q) {
        assert LockHeld(w, q);
      }
      KeepStores(h, w, Goto(w1, pid, Locked(p.pc.call)));
      GotoTable(h, w1, pid, Locked(p.pc.call));
      ReturnsKept(w, Goto(w1, pid, Locked(p.pc.call)));
    }
  }

  lemma SelectKeeps(h: Hashes, w: World, pid: nat)
    requires Inv(h, w) && pid in w.processes
    requires w.processes[pid].pc.Locked?
    ensures Inv(h, AdvanceProcess(h, w, pid)) && CatalogEvolves(w.catalog, AdvanceProcess(h, w, pid).catalog)
  {
    var p := w.processes[pid];
    assert ProcessOk(h, w, p);
    hide Inv, Matches, PlaceOf, CatalogEvolves;
    var wNext := AdvanceProcess(h, w, pid);
    if wNext == End(w, pid) {
      EndKeeps(h, w, pid);
    } else {
      var pc := wNext.processes[pid].pc;
      assert wNext == Goto(w, pid, pc);
      GotoKeeps(h, w, pid, pc);
    }
  }

  /** Reading the object back, on a replay or before adopting it. */
  lemma ReadKeeps(h: Hashes, w: World, pid: nat)
    requires Inv(h, w) && pid in w.processes && (w.processes[pid].pc.Replaying? || w.processes[pid].pc.Adopting?)
    ensures Inv(h, AdvanceProcess(h, w, pid)) && CatalogEvolves(w.catalog, AdvanceProcess(h, w, pid).catalog)
  {
    var p := w.processes[pid];
    assert ProcessOk(h, w, p);
    hide Inv, CatalogEvolves, NewRow, RowMatches;
    var input := p.pc.input;
    var pc := if p.pc.Replaying? then Committing(input) else Inserting(input, true);
    if Readable(h, w.objects, PlaceOf(h, input), h.sha256(input.bytes), input.maxBytes) {
      assert ProcessOk(h, w, p.(pc := pc));
      GotoKeeps(h, w, pid, pc);
    } else {
      EndKeeps(h, w, pid);
    }
  }

  lemma PutStepKeeps(h: Hashes, w: World, pid: nat)
    requires Inv(h, w) && pid in w.processes && w.processes[pid].pc.Putting?
    ensures Inv(h, AdvanceProcess(h, w, pid)) && CatalogEvolves(w.catalog, AdvanceProcess(h, w, pid).catalog)
  {
    var p := w.processes[pid];
    assert ProcessOk(h, w, p);
    hide Inv, CatalogEvolves, NewRow, RowMatches, Matches;
    var input := p.pc.input;
    if PlaceOf(h, input) in w.objects {
      assert ProcessOk(h, w, p.(pc := Adopting(input)));
      GotoKeeps(h, w, pid, Adopting(input));
    } else {
      var w1 := w.(objects := w.objects[PlaceOf(h, input) := input.bytes]);
      PutKeeps(h, w, w1, PlaceOf(h, input), input.bytes);
      assert ProcessOk(h, w1, p.(pc := Inserting(input, false)));
      Rest(h, w, w1, pid, Inserting(input, false));
    }
  }

  lemma DeleteStepKeeps(h: Hashes, w: World, pid: nat)
    requires Inv(h, w) && pid in w.processes && w.processes[pid].pc.Deleting?
    ensures Inv(h, AdvanceProcess(h, w, pid)) && CatalogEvolves(w.catalog, AdvanceProcess(h, w, pid).catalog)
  {
    var p := w.processes[pid];
    assert ProcessOk(h, w, p);
    hide Inv, CatalogEvolves, NewRow, RowMatches, Matches, PlaceOf;
    var r := p.pc.discarded;
    var w1 := w.(objects := w.objects - {r.place});
    DeleteKeeps(h, w, w1, p.id, r);
    assert ProcessOk(h, w1, p.(pc := Marking(r)));
    Rest(h, w, w1, pid, Marking(r));
  }

  /** After a storage effect `w1`, moving the process on keeps the invariant. */
  lemma Rest(h: Hashes, w: World, w1: World, pid: nat, pc: Pc)
    requires Inv(h, w) && pid in w.processes && !w.processes[pid].pc.Waiting? && !pc.Waiting?
    requires w1 == w.(objects := w1.objects)
    requires Safe(h, w1) && RowsPlaced(w1)
    requires forall p: Process :: ProcessOk(h, w, p) ==> ProcessOk(h, w1, p)
    requires ProcessOk(h, w1, w.processes[pid].(pc := pc))
    ensures Inv(h, Goto(w1, pid, pc)) && CatalogEvolves(w.catalog, Goto(w1, pid, pc).catalog)
  {
    hide ProcessOk, Backed;
    assert LockHeld(w, pid);
    forall q | q in w1.processes ensures LockHeld(w1, q) {
      assert LockHeld(w, q);
    }
    GotoTable(h, w1, pid, pc);
    ReturnsKept(w, Goto(w1, pid, pc));
    SafeSameStores(h, w1, Goto(w1, pid, pc));
  }

  lemma SafeSameStores(h: Hashes, w: World, wNext: World)
    requires Safe(h, w) && wNext.catalog == w.catalog && wNext.objects == w.objects
    ensures Safe(h, wNext)
  {
    forall id | id in wNext.catalog ensures Backed(h, wNext, id) {
      assert Backed(h, w, id);
    }
  }

  /** After a database effect `w1` of the lock holder, moving on or ending keeps the invariant. */
  lemma RestRow(h: Hashes, w: World, w1: World, pid: nat, row: Row)
    requires Inv(h, w) && pid in w.processes && InTransaction(w.processes[pid])
    requires var id := w.processes[pid].id;
      && w1 == w.(catalog := w.catalog[id := row])
      && BelongsTo(row.place, id) && Backed(h, w1, id)
      && (id in w.catalog ==> RowEvolves(w.catalog[id], row))
    ensures CatalogEvolves(w.catalog, w1.catalog)
    ensures Inv(h, End(w1, pid))
    ensures forall pc: Pc :: !pc.Waiting? && ProcessOk(h, w1, w.processes[pid].(pc := pc)) ==> Inv(h, Goto(w1, pid, pc))
  {
    hide ProcessOk, Backed, BelongsTo;
    RowKeeps(h, w, w1, pid, row);
    forall q | q in w1.processes ensures LockHeld(w1, q) {
      assert LockHeld(w, q);
    }
    assert LockHeld(w, pid);
    EndTable(h, w1, pid);
    ReturnsKept(w, w1);
    SafeSameStores(h, w1, End(w1, pid));
    forall pc: Pc | !pc.Waiting? && ProcessOk(h, w1, w.processes[pid].(pc := pc))
      ensures Inv(h, Goto(w1, pid, pc))
    {
      GotoTable(h, w1, pid, pc);
      SafeSameStores(h, w1, Goto(w1, pid, pc));
    }
  }

  lemma InsertKeeps(h: Hashes, w: World, pid: nat)
    requires Inv(h, w) && pid in w.processes && w.processes[pid].pc.Inserting?
    ensures Inv(h, AdvanceProcess(h, w, pid)) && CatalogEvolves(w.catalog, AdvanceProcess(h, w, pid).catalog)
  {
    var p := w.processes[pid];
    assert ProcessOk(h, w, p);
    hide Inv;
    if !p.connected || p.id in w.catalog {
      EndKeeps(h, w, pid);
    } else {
      var row := NewRow(h, p.pc.input);
      var w1 := w.(catalog := w.catalog[p.id := row]);
      RestRow(h, w, w1, pid, row);
      var pc := Returning(ReferenceOf(h, p.pc.input, p.pc.replayed));
      assert ProcessOk(h, w1, w.processes[pid].(pc := pc));
      assert AdvanceProcess(h, w, pid) == Goto(w1, pid, pc);
    }
  }

  lemma ReserveKeeps(h: Hashes, w: World, pid: nat)
    requires Inv(h, w) && pid in w.processes && w.processes[pid].pc.Reserving?
    ensures Inv(h, AdvanceProcess(h, w, pid)) && CatalogEvolves(w.catalog, AdvanceProcess(h, w, pid).catalog)
  {
    var p := w.processes[pid];
    assert ProcessOk(h, w, p);
    assert p.id in w.catalog ==> BelongsTo(w.catalog[p.id].place, p.id);
    hide Inv, BelongsTo, NewRow, Matches, PlaceOf, CatalogEvolves, RowMatches, AdvanceSelect;
    if !p.connected || p.id !in w.catalog {
      EndKeeps(h, w, pid);
    } else {
      var row := w.catalog[p.id].(retention := PendingDelete);
      var w1 := w.(catalog := w.catalog[p.id := row]);
      RestRow(h, w, w1, pid, row);
      assert ProcessOk(h, w1, p.(pc := Deleting(p.pc.discarded)));
    }
  }

  lemma MarkKeeps(h: Hashes, w: World, pid: nat)
    requires Inv(h, w) && pid in w.processes && w.processes[pid].pc.Marking?
    ensures Inv(h, AdvanceProcess(h, w, pid)) && CatalogEvolves(w.catalog, AdvanceProcess(h, w, pid).catalog)
  {
    var p := w.processes[pid];
    assert p.id in w.catalog ==> BelongsTo(w.catalog[p.id].place, p.id);
    hide Inv, ProcessOk, BelongsTo, NewRow, PlaceOf, CatalogEvolves, AdvanceSelect;
    if !p.connected || p.id !in w.catalog || w.catalog[p.id].retention != PendingDelete {
      EndKeeps(h, w, pid);
    } else {
      var row := w.catalog[p.id].(retention := Deleted, upload := Removed);
      RestRow(h, w, w.(catalog := w.catalog[p.id := row]), pid, row);
    }
  }

  lemma ReturnKeeps(h: Hashes, w: World, pid: nat)
    requires Inv(h, w) && pid in w.processes
    requires w.processes[pid].pc.Committing? || w.processes[pid].pc.Returning?
    ensures Inv(h, AdvanceProcess(h, w, pid)) && CatalogEvolves(w.catalog, AdvanceProcess(h, w, pid).catalog)
  {
    var p := w.processes[pid];
    assert ProcessOk(h, w, p);
    if p.pc.Committing? {
      hide Inv;
      if !p.connected {
        EndKeeps(h, w, pid);
      } else {
        var pc := Returning(ReferenceOf(h, p.pc.input, true));
        assert ProcessOk(h, w, p.(pc := pc));
        GotoKeeps(h, w, pid, pc);
      }
    } else {
      var w1 := w.(returned := w.returned + [p.pc.reference]);
      ReturnsKept(w, w1);
      hide Safe, RowsPlaced, ReturnsRecorded;
      KeepStores(h, w, w1);
      forall q | q in w1.processes ensures LockHeld(w1, q) && ProcessOk(h, w1, w1.processes[q]) {
        assert LockHeld(w, q) && ProcessOk(h, w, w.processes[q]);
      }
      EndKeeps(h, w1, pid);
    }
  }

  /** Every event keeps the invariant and moves a row by at most one step of its retention. */
  lemma StepKeeps(h: Hashes, w: World, e: Event)
    requires Inv(h, w)
    ensures Inv(h, Step(h, w, e)) && CatalogMoves(w.catalog, Step(h, w, e).catalog)
    ensures CatalogEvolves(w.catalog, Step(h, w, e).catalog)
  {
    StepMoves(h, w, e);
    hide CatalogMoves;
    if e.Advance? && e.pid in w.processes {
      hide Inv, AdvanceProcess, CatalogEvolves;
      match w.processes[e.pid].pc
      case Waiting(_) => LockKeeps(h, w, e.pid);
      case Locked(_) => SelectKeeps(h, w, e.pid);
      case Replaying(_) => ReadKeeps(h, w, e.pid);
      case Putting(_) => PutStepKeeps(h, w, e.pid);
      case Adopting(_) => ReadKeeps(h, w, e.pid);
      case Deleting(_) => DeleteStepKeeps(h, w, e.pid);
      case Inserting(_, _) => InsertKeeps(h, w, e.pid);
      case Reserving(_) => ReserveKeeps(h, w, e.pid);
      case Marking(_) => MarkKeeps(h, w, e.pid);
      case Committing(_) => ReturnKeeps(h, w, e.pid);
      case Returning(_) => ReturnKeeps(h, w, e.pid);
    } else if e.Crash? && e.pid in w.processes {
      EndKeeps(h, w, e.pid);
    } else {
      TableEventKeeps(h, w, e);
    }
  }

  lemma TableEventKeeps(h: Hashes, w: World, e: Event)
    requires Inv(h, w)
    requires e.Begin? || e.LoseConnection? || e.pid !in w.processes
    ensures Inv(h, Step(h, w, e)) && CatalogEvolves(w.catalog, Step(h, w, e).catalog)
  {
    hide Safe, RowsPlaced;
    var wNext := Step(h, w, e);
    KeepStores(h, w, wNext);
    ReturnsKept(w, wNext);
    forall q | q in wNext.processes
      ensures LockHeld(wNext, q) && ProcessOk(h, wNext, wNext.processes[q])
    {
      if q in w.processes {
        assert LockHeld(w, q) && ProcessOk(h, w, w.processes[q]);
        assert ProcessOk(h, w, wNext.processes[q]);
      }
    }
  }

  ghost predicate Initial(h: Hashes, w: World)
  {
    Safe(h, w) && RowsPlaced(w) && w.processes == map[] && w.returned == []
  }

  /**
    The main theorem. Start from any catalog whose live rows are backed. After any interleaving of
    persists and discards, with a crash or a lost connection after any effect, every row that is
    ACTIVE, AVAILABLE and VERIFIED has its object at its key with the recorded hash, no row has
    disappeared or changed a recorded column, and retention has only moved forward.
   */
  lemma {:induction false} RunKeeps(h: Hashes, w: World, events: seq<Event>)
    requires Inv(h, w)
    ensures Inv(h, Run(h, w, events)) && CatalogEvolves(w.catalog, Run(h, w, events).catalog)
    decreases |events|
  {
    hide Inv, Step, CatalogEvolves;
    if events == [] {
      EvolvesReflexive(w.catalog);
    } else {
      StepKeeps(h, w, events[0]);
      RunKeeps(h, Step(h, w, events[0]), events[1..]);
      EvolvesTransitive(w.catalog, Step(h, w, events[0]).catalog, Run(h, w, events).catalog);
    }
  }

  /** At some moment of the run the row waited for its deletion. */
  ghost predicate WasPending(h: Hashes, w: World, events: seq<Event>, id: string)
  {
    exists k :: 0 <= k <= |events| && PendingAt(h, w, events, id, k)
  }

  ghost predicate PendingAt(h: Hashes, w: World, events: seq<Event>, id: string, k: nat)
    requires k <= |events|
  {
    var moment := Run(h, w, events[..k]).catalog;
    id in moment && moment[id].retention == PendingDelete
  }

  lemma ActiveMoves(a: Row, b: Row)
    requires RowMoves(a, b) && a.retention == Active
    ensures b.retention == Active || b.retention == PendingDelete
  {
  }

  /** No row goes from ACTIVE to DELETED without having been PENDING_DELETE in between. */
  lemma {:induction false} NeverSkipsPending(h: Hashes, w: World, events: seq<Event>, id: string)
    requires Inv(h, w) && id in w.catalog && w.catalog[id].retention == Active
    requires id in Run(h, w, events).catalog && Run(h, w, events).catalog[id].retention == Deleted
    ensures WasPending(h, w, events, id)
    decreases |events|
  {
    hide Inv, Step, CatalogEvolves, RowMoves;
    var w1, rest := Step(h, w, events[0]), events[1..];
    StepKeeps(h, w, events[0]);
    ActiveMoves(w.catalog[id], w1.catalog[id]);
    if w1.catalog[id].retention == PendingDelete {
      assert events[..1][1..] == [] && Run(h, w, events[..1]) == w1;
      assert PendingAt(h, w, events, id, 1);
    } else {
      NeverSkipsPending(h, w1, rest, id);
      var k :| 0 <= k <= |rest| && PendingAt(h, w1, rest, id, k);
      assert events[..k + 1][1..] == rest[..k];
      assert PendingAt(h, w, events, id, k + 1);
    }
  }

  lemma CrashSafety(h: Hashes, w: World, events: seq<Event>)
    requires Initial(h, w)
    ensures var after := Run(h, w, events);
      forall id :: id in after.catalog && after.catalog[id].upload == Available && after.catalog[id].integrity == Verified &&
                   after.catalog[id].retention == Active ==>
        var row := after.catalog[id];
        row.place in after.objects && row.sha256 == Some(h.sha256(after.objects[row.place]))
    ensures CatalogEvolves(w.catalog, Run(h, w, events).catalog)
    ensures forall id :: id in w.catalog && w.catalog[id].retention == Active && Run(h, w, events).catalog[id].retention == Deleted ==>
      WasPending(h, w, events, id)
  {
    RunKeeps(h, w, events);
    hide Run, WasPending, CatalogEvolves, Step;
    assert Inv(h, w);
    hide Inv;
    forall id | id in w.catalog && id in Run(h, w, events).catalog && w.catalog[id].retention == Active
                && Run(h, w, events).catalog[id].retention == Deleted
      ensures WasPending(h, w, events, id)
    {
      NeverSkipsPending(h, w, events, id);
    }
  }

  /** All references ever returned for one artifact agree, except for the `replayed` flag. */
  lemma ReturnsAgree(h: Hashes, w: World, events: seq<Event>, i: nat, j: nat)
    requires Initial(h, w)
    requires var refs := Run(h, w, events).returned;
      i < |refs| && j < |refs| && refs[i].objectId == refs[j].objectId
    ensures var refs := Run(h, w, events).returned; refs[i] == refs[j].(replayed := refs[i].replayed)
  {
    RunKeeps(h, w, events);
  }

  // ---------------------------------------------------------------- crash and retry

  function AdvanceTimes(h: Hashes, w: World, pid: nat, n: nat): (wNext: World)
  {
    if n == 0 then w else Step(h, AdvanceTimes(h, w, pid, n - 1), Advance(pid))
  }

  function Started(h: Hashes, w: World, pid: nat, input: Persist): (wNext: World)
  {
    Step(h, w, Begin(pid, PersistCall(input), input.provider))
  }

  /** The longest path of a persist has six effects. */
  const PERSIST_STEPS: nat := 6

  function PersistAlone(h: Hashes, w: World, pid: nat, input: Persist): (wNext: World)
  {
    AdvanceTimes(h, Started(h, w, pid, input), pid, PERSIST_STEPS)
  }

  /** The condition a caller can check beforehand: the identity is free, or already holds this content. */
  ghost predicate Recoverable(h: Hashes, w: World, input: Persist)
  {
    var readable := Readable(h, w.objects, PlaceOf(h, input), h.sha256(input.bytes), input.maxBytes);
    if IdOf(h, input) in w.catalog then Matches(h, w.catalog[IdOf(h, input)], input) && readable
    else PlaceOf(h, input) in w.objects ==> readable
  }

  function StoredObjects(h: Hashes, w: World, input: Persist): (objects: map<Place, Bytes>)
  {
    if PlaceOf(h, input) in w.objects then w.objects else w.objects[PlaceOf(h, input) := input.bytes]
  }

  ghost predicate Idle(h: Hashes, w: World, pid: nat, input: Persist)
  {
    ValidInput(input) && pid !in w.processes && IdOf(h, input) !in w.locks
  }

  /** Between two effects of an undisturbed persist the stores hold one of three contents. */
  ghost predicate Midway(h: Hashes, w: World, wNext: World, input: Persist)
  {
    var id, stored := IdOf(h, input), StoredObjects(h, w, input);
    || (wNext.catalog == w.catalog && (wNext.objects == w.objects || wNext.objects == stored))
    || (wNext.catalog == w.catalog[id := NewRow(h, input)] && wNext.objects == stored)
  }

  ghost function At(h: Hashes, v: World, pid: nat, input: Persist, pc: Pc): (wNext: World)
  {
    v.(processes := v.processes[pid := Process(IdOf(h, input), true, pc)])
  }

  ghost function Done(h: Hashes, w: World, input: Persist): (wNext: World)
  {
    var id := IdOf(h, input);
    w.(objects := StoredObjects(h, w, input), catalog := w.catalog[id := NewRow(h, input)],
       returned := w.returned + [ReferenceOf(h, input, id in w.catalog || PlaceOf(h, input) in w.objects)])
  }

  /** Where an undisturbed persist stands: the world without it, and its next effect if any. */
  datatype Stage = Stage(base: World, next: Option<Pc>)

  ghost function Progress(h: Hashes, w: World, pid: nat, input: Persist, n: nat): (s: Stage)
  {
    var id, place := IdOf(h, input), PlaceOf(h, input);
    var readable := Readable(h, w.objects, place, h.sha256(input.bytes), input.maxBytes);
    var locked := w.(locks := w.locks[id := pid]);
    var stored := locked.(objects := StoredObjects(h, w, input));
    var inserted := stored.(catalog := w.catalog[id := NewRow(h, input)]);
    if n == 0 then Stage(w, Some(Waiting(PersistCall(input))))
    else if n == 1 then Stage(locked, Some(Locked(PersistCall(input))))
    else if id in w.catalog then
      if !Matches(h, w.catalog[id], input) then Stage(w, None)
      else if n == 2 then Stage(locked, Some(Replaying(input)))
      else if !readable then Stage(w, None)
      else if n == 3 then Stage(locked, Some(Committing(input)))
      else if n == 4 then Stage(locked, Some(Returning(ReferenceOf(h, input, true))))
      else Stage(Done(h, w, input), None)
    else if n == 2 then Stage(locked, Some(Putting(input)))
    else if place in w.objects then
      if n == 3 then Stage(locked, Some(Adopting(input)))
      else if !readable then Stage(w, None)
      else if n == 4 then Stage(stored, Some(Inserting(input, true)))
      else if n == 5 then Stage(inserted, Some(Returning(ReferenceOf(h, input, true))))
      else Stage(Done(h, w, input), None)
    else
      if n == 3 then Stage(stored, Some(Inserting(input, false)))
      else if n == 4 then Stage(inserted, Some(Returning(ReferenceOf(h, input, false))))
      else Stage(Done(h, w, input), None)
  }

  ghost function Embed(h: Hashes, s: Stage, pid: nat, input: Persist): (wNext: World)
  {
    match s.next
    case None => s.base
    case Some(pc) => At(h, s.base, pid, input, pc)
  }

  lemma AtEnds(h: Hashes, v: World, pid: nat, input: Persist, pc: Pc)
    requires pid !in v.processes
    ensures pid in At(h, v, pid, input, pc).processes
    ensures End(At(h, v, pid, input, pc), pid) == v.(locks := Unlock(v.locks, IdOf(h, input), pid))
  {
    var u := At(h, v, pid, input, pc);
    assert u.processes - {pid} == v.processes;
  }

  lemma AtMoves(h: Hashes, v: World, pid: nat, input: Persist, pc: Pc, nextPc: Pc)
    ensures pid in At(h, v, pid, input, pc).processes
    ensures Goto(At(h, v, pid, input, pc), pid, nextPc) == At(h, v, pid, input, nextPc)
  {
    var u := At(h, v, pid, input, pc);
    assert u.processes[pid := u.processes[pid].(pc := nextPc)] == v.processes[pid := Process(IdOf(h, input), true, nextPc)];
  }

  ghost function Freed(h: Hashes, v: World, pid: nat, input: Persist): (wNext: World)
  {
    v.(locks := Unlock(v.locks, IdOf(h, input), pid))
  }

  /** The effect of each step of a persist, seen from the world without the process. */
  lemma StepFront(h: Hashes, v: World, pid: nat, input: Persist)
    requires pid !in v.processes
    ensures IdOf(h, input) !in v.locks ==>
      Step(h, At(h, v, pid, input, Waiting(PersistCall(input))), Advance(pid)) ==
      At(h, v.(locks := v.locks[IdOf(h, input) := pid]), pid, input, Locked(PersistCall(input)))
    ensures var id := IdOf(h, input);
      Step(h, At(h, v, pid, input, Locked(PersistCall(input))), Advance(pid)) ==
      if id !in v.catalog then At(h, v, pid, input, Putting(input))
      else if Matches(h, v.catalog[id], input) then At(h, v, pid, input, Replaying(input))
      else Freed(h, v, pid, input)
  {
    hide NewRow, PlaceOf, Matches;
    AtMoves(h, v.(locks := v.locks[IdOf(h, input) := pid]), pid, input, Waiting(PersistCall(input)), Locked(PersistCall(input)));
    AtMoves(h, v, pid, input, Locked(PersistCall(input)), Putting(input));
    AtMoves(h, v, pid, input, Locked(PersistCall(input)), Replaying(input));
    AtEnds(h, v, pid, input, Locked(PersistCall(input)));
  }

  lemma StepReplay(h: Hashes, v: World, pid: nat, input: Persist)
    requires pid !in v.processes
    ensures Step(h, At(h, v, pid, input, Replaying(input)), Advance(pid)) ==
      if Readable(h, v.objects, PlaceOf(h, input), h.sha256(input.bytes), input.maxBytes)
      then At(h, v, pid, input, Committing(input)) else Freed(h, v, pid, input)
    ensures Step(h, At(h, v, pid, input, Committing(input)), Advance(pid)) ==
      At(h, v, pid, input, Returning(ReferenceOf(h, input, true)))
  {
    hide NewRow, PlaceOf, Matches, Readable, ReferenceOf;
    AtMoves(h, v, pid, input, Replaying(input), Committing(input));
    AtEnds(h, v, pid, input, Replaying(input));
    AtMoves(h, v, pid, input, Committing(input), Returning(ReferenceOf(h, input, true)));
  }

  lemma StepPut(h: Hashes, v: World, pid: nat, input: Persist)
    requires pid !in v.processes
    ensures var place := PlaceOf(h, input);
      Step(h, At(h, v, pid, input, Putting(input)), Advance(pid)) ==
      if place in v.objects then At(h, v, pid, input, Adopting(input))
      else At(h, v.(objects := v.objects[place := input.bytes]), pid, input, Inserting(input, false))
    ensures Step(h, At(h, v, pid, input, Adopting(input)), Advance(pid)) ==
      if Readable(h, v.objects, PlaceOf(h, input), h.sha256(input.bytes), input.maxBytes)
      then At(h, v, pid, input, Inserting(input, true)) else Freed(h, v, pid, input)
  {
    hide NewRow, PlaceOf, Matches, Readable, ReferenceOf;
    AtMoves(h, v, pid, input, Putting(input), Adopting(input));
    AtMoves(h, v.(objects := v.objects[PlaceOf(h, input) := input.bytes]), pid, input, Putting(input), Inserting(input, false));
    AtMoves(h, v, pid, input, Adopting(input), Inserting(input, true));
    AtEnds(h, v, pid, input, Adopting(input));
  }

  lemma StepInsert(h: Hashes, v: World, pid: nat, input: Persist, replayed: bool)
    requires pid !in v.processes
    ensures IdOf(h, input) !in v.catalog ==>
      Step(h, At(h, v, pid, input, Inserting(input, replayed)), Advance(pid)) ==
      At(h, v.(catalog := v.catalog[IdOf(h, input) := NewRow(h, input)]), pid, input, Returning(ReferenceOf(h, input, replayed)))
    ensures Step(h, At(h, v, pid, input, Returning(ReferenceOf(h, input, replayed))), Advance(pid)) ==
      Freed(h, v.(returned := v.returned + [ReferenceOf(h, input, replayed)]), pid, input)
  {
    hide NewRow, PlaceOf, Matches, Readable, ReferenceOf;
    var r := ReferenceOf(h, input, replayed);
    AtMoves(h, v.(catalog := v.catalog[IdOf(h, input) := NewRow(h, input)]), pid, input, Inserting(input, replayed), Returning(r));
    AtEnds(h, v.(returned := v.returned + [r]), pid, input, Returning(r));
  }

  /** The stage after one more effect of the process at `s`. */
  ghost predicate NextStage(h: Hashes, s: Stage, later: Stage, pid: nat, input: Persist)
  {
    Step(h, Embed(h, s, pid, input), Advance(pid)) == Embed(h, later, pid, input)
  }

  lemma ProgressReplay(h: Hashes, w: World, pid: nat, input: Persist, n: nat)
    requires Idle(h, w, pid, input) && n >= 2
    requires IdOf(h, input) in w.catalog && Matches(h, w.catalog[IdOf(h, input)], input)
    ensures NextStage(h, Progress(h, w, pid, input, n), Progress(h, w, pid, input, n + 1), pid, input)
  {
    var locked := w.(locks := w.locks[IdOf(h, input) := pid]);
    assert w.locks[IdOf(h, input) := pid] - {IdOf(h, input)} == w.locks;
    assert w.catalog[IdOf(h, input) := NewRow(h, input)] == w.catalog;
    StepReplay(h, locked, pid, input);
    StepInsert(h, locked, pid, input, true);
    Quiet(h, w, pid, input);
    hide Step, At, NewRow, PlaceOf, ReferenceOf, ValidInput;
  }

  lemma ProgressAdopt(h: Hashes, w: World, pid: nat, input: Persist, n: nat)
    requires Idle(h, w, pid, input) && n >= 2
    requires IdOf(h, input) !in w.catalog && PlaceOf(h, input) in w.objects
    ensures NextStage(h, Progress(h, w, pid, input, n), Progress(h, w, pid, input, n + 1), pid, input)
  {
    var locked := w.(locks := w.locks[IdOf(h, input) := pid]);
    assert w.locks[IdOf(h, input) := pid] - {IdOf(h, input)} == w.locks;
    StepPut(h, locked, pid, input);
    StepInsert(h, locked, pid, input, true);
    StepInsert(h, locked.(catalog := w.catalog[IdOf(h, input) := NewRow(h, input)]), pid, input, true);
    Quiet(h, w, pid, input);
    hide Step, At, NewRow, PlaceOf, ReferenceOf, ValidInput;
  }

  lemma ProgressFresh(h: Hashes, w: World, pid: nat, input: Persist, n: nat)
    requires Idle(h, w, pid, input) && n >= 2
    requires IdOf(h, input) !in w.catalog && PlaceOf(h, input) !in w.objects
    ensures NextStage(h, Progress(h, w, pid, input, n), Progress(h, w, pid, input, n + 1), pid, input)
  {
    var locked := w.(locks := w.locks[IdOf(h, input) := pid]);
    var stored := locked.(objects := StoredObjects(h, w, input));
    assert w.locks[IdOf(h, input) := pid] - {IdOf(h, input)} == w.locks;
    StepPut(h, locked, pid, input);
    StepInsert(h, stored, pid, input, false);
    StepInsert(h, stored.(catalog := w.catalog[IdOf(h, input) := NewRow(h, input)]), pid, input, false);
    Quiet(h, w, pid, input);
    hide Step, At, NewRow, PlaceOf, ReferenceOf, ValidInput;
  }

  lemma Quiet(h: Hashes, w: World, pid: nat, input: Persist)
    requires pid !in w.processes
    ensures Step(h, w, Advance(pid)) == w && Step(h, w, Crash(pid)) == w
    ensures Step(h, Done(h, w, input), Advance(pid)) == Done(h, w, input)
    ensures Step(h, Done(h, w, input), Crash(pid)) == Done(h, w, input)
  {
  }

  lemma ProgressStep(h: Hashes, w: World, pid: nat, input: Persist, n: nat)
    requires Idle(h, w, pid, input)
    ensures NextStage(h, Progress(h, w, pid, input, n), Progress(h, w, pid, input, n + 1), pid, input)
  {
    var locked := w.(locks := w.locks[IdOf(h, input) := pid]);
    assert w.locks[IdOf(h, input) := pid] - {IdOf(h, input)} == w.locks;
    StepFront(h, w, pid, input);
    StepFront(h, locked, pid, input);
    Quiet(h, w, pid, input);
    hide Step, At, NewRow, PlaceOf, ReferenceOf, ValidInput, Matches;
    if n >= 2 {
      if IdOf(h, input) in w.catalog {
        if Matches(h, w.catalog[IdOf(h, input)], input) {
          ProgressReplay(h, w, pid, input, n);
        }
      } else if PlaceOf(h, input) in w.objects {
        ProgressAdopt(h, w, pid, input, n);
      } else {
        ProgressFresh(h, w, pid, input, n);
      }
    }
  }

  lemma StartedIs(h: Hashes, w: World, pid: nat, input: Persist)
    requires Idle(h, w, pid, input)
    ensures Started(h, w, pid, input) == Embed(h, Progress(h, w, pid, input, 0), pid, input)
  {
    hide ValidInput, PlaceOf, NewRow, Readable, AdvanceProcess;
    assert Progress(h, w, pid, input, 0) == Stage(w, Some(Waiting(PersistCall(input))));
  }

  lemma {:induction false} ProgressIs(h: Hashes, w: World, pid: nat, input: Persist, n: nat)
    requires Idle(h, w, pid, input)
    ensures AdvanceTimes(h, Started(h, w, pid, input), pid, n) == Embed(h, Progress(h, w, pid, input, n), pid, input)
  {
    hide Step, Progress, Started, Embed, ValidInput;
    if n == 0 {
      StartedIs(h, w, pid, input);
    } else {
      ProgressIs(h, w, pid, input, n - 1);
      ProgressStep(h, w, pid, input, n - 1);
    }
  }

  /**
    Exactly when a persist succeeds: an undisturbed call returns a reference if and only if the
    identity is free or already holds this very content; otherwise it changes nothing at all.
   */
  lemma PersistSucceedsIff(h: Hashes, w: World, pid: nat, input: Persist)
    requires Idle(h, w, pid, input)
    ensures PersistAlone(h, w, pid, input) == if Recoverable(h, w, input) then Done(h, w, input) else w
    ensures Recoverable(h, w, input) <==> |PersistAlone(h, w, pid, input).returned| > |w.returned|
  {
    ProgressIs(h, w, pid, input, PERSIST_STEPS);
  }

  /**
    What a successful persist leaves, said of its input: the columns of the row, the object under the
    row's key, the reference, and nothing else changed.
   */
  lemma PersistLeaves(h: Hashes, w: World, pid: nat, input: Persist)
    requires Idle(h, w, pid, input) && Recoverable(h, w, input)
    ensures var v, id := PersistAlone(h, w, pid, input), h.identity(input.category, input.artifactId, input.filename);
      var place := Place(input.provider, input.bucket, input.category + "/" + id[..2] + "/" + id);
      && v == w.(catalog := v.catalog, objects := v.objects, returned := v.returned)
      && v.catalog == w.catalog[id := Row(place, input.contentType, Some(input.filename), Some(|input.bytes|),
                                          Some(h.sha256(input.bytes)), Available, Verified, Active)]
      && place in v.objects && h.sha256(v.objects[place]) == h.sha256(input.bytes)
      && v.objects == (if place in w.objects then w.objects else w.objects[place := input.bytes])
      && v.returned == w.returned + [Reference(id, place, input.contentType, input.filename, |input.bytes|,
                                               h.sha256(input.bytes), id in w.catalog || place in w.objects)]
  {
    PersistSucceedsIff(h, w, pid, input);
    hide PersistAlone, ValidInput;
  }

  /**
    Crash and retry. Let a persist of recoverable content crash after any number of its effects.
    Repeating the call with the same bytes then succeeds, and leaves both stores exactly as one
    undisturbed call would have left them.
   */
  lemma CrashThenRetry(h: Hashes, w: World, pid: nat, retry: nat, input: Persist, n: nat)
    requires Idle(h, w, pid, input) && Idle(h, w, retry, input) && Recoverable(h, w, input)
    ensures var crashed := Step(h, AdvanceTimes(h, Started(h, w, pid, input), pid, n), Crash(pid));
      var after, clean := PersistAlone(h, crashed, retry, input), PersistAlone(h, w, pid, input);
      && after.catalog == clean.catalog && after.objects == clean.objects
      && after.processes == w.processes && after.locks == w.locks
      && |after.returned| > 0 && |clean.returned| > 0
      && after.returned[|after.returned| - 1].(replayed := false) == clean.returned[|clean.returned| - 1].(replayed := false)
  {
    var crashed := Step(h, AdvanceTimes(h, Started(h, w, pid, input), pid, n), Crash(pid));
    ProgressIs(h, w, pid, input, n);
    CrashedState(h, w, pid, input, n);
    MidwayRecovers(h, w, crashed, input);
    hide ValidInput, Progress, Step, Recoverable, Embed, AdvanceTimes;
    PersistSucceedsIff(h, w, pid, input);
    PersistSucceedsIff(h, crashed, retry, input);
  }

  lemma StageShape(h: Hashes, w: World, pid: nat, input: Persist, n: nat)
    requires Recoverable(h, w, input)
    ensures var s := Progress(h, w, pid, input, n);
      && s.base.processes == w.processes && Midway(h, w, s.base, input)
      && (s.base.locks == w.locks || (s.next.Some? && s.base.locks == w.locks[IdOf(h, input) := pid]))
  {
    hide NewRow, PlaceOf, ReferenceOf, Readable, Matches, StoredObjects, IdOf;
  }

  /** A crash frees the lock; the stores are in one of the three midway contents. */
  lemma CrashedState(h: Hashes, w: World, pid: nat, input: Persist, n: nat)
    requires Idle(h, w, pid, input) && Recoverable(h, w, input)
    ensures var crashed := Step(h, Embed(h, Progress(h, w, pid, input, n), pid, input), Crash(pid));
      && crashed.processes == w.processes && crashed.locks == w.locks && Midway(h, w, crashed, input)
  {
    StageShape(h, w, pid, input, n);
    hide Progress, At, NewRow, PlaceOf, ReferenceOf, ValidInput;
    var s := Progress(h, w, pid, input, n);
    assert w.locks[IdOf(h, input) := pid] - {IdOf(h, input)} == w.locks;
    if s.next.Some? {
      AtEnds(h, s.base, pid, input, s.next.value);
    }
  }

  /** Whatever midway content a crash leaves, the same call can be repeated, with the same end result. */
  lemma MidwayRecovers(h: Hashes, w: World, v: World, input: Persist)
    requires ValidInput(input) && Recoverable(h, w, input) && Midway(h, w, v, input)
    ensures Recoverable(h, v, input)
    ensures Done(h, v, input).catalog == Done(h, w, input).catalog
    ensures Done(h, v, input).objects == Done(h, w, input).objects
  {
    MatchesNewRow(h, NewRow(h, input), input);
    hide NewRow, PlaceOf, ReferenceOf, Matches;
    var row := NewRow(h, input);
    assert w.catalog[IdOf(h, input) := row][IdOf(h, input) := row] == w.catalog[IdOf(h, input) := row];
  }

  // ---------------------------------------------------------------- discarding

  /** The effects of a discard: the lock, the look at the row, the reservation, the deletion and the mark. */
  const DISCARD_STEPS: nat := 5

  function DiscardAlone(h: Hashes, w: World, pid: nat, r: Reference, storage: Provider): (wNext: World)
  {
    AdvanceTimes(h, Step(h, w, Begin(pid, DiscardCall(r), storage)), pid, DISCARD_STEPS)
  }

  /** The condition a caller can check beforehand: its own provider, and a row of this object that is active or reserved. */
  ghost predicate Discardable(w: World, r: Reference, storage: Provider)
  {
    && storage == r.place.provider && r.objectId in w.catalog
    && var row := w.catalog[r.objectId];
    && row.place == r.place && row.sha256 == Some(r.sha256)
    && (row.retention == Active || row.retention == PendingDelete)
  }

  /** The row is DELETED with its upload removed, its object is gone, and nothing else has changed. */
  ghost predicate IsDiscarded(w: World, r: Reference, v: World)
    requires r.objectId in w.catalog
  {
    && v == w.(catalog := v.catalog, objects := v.objects) && v.catalog.Keys == w.catalog.Keys
    && v.catalog[r.objectId] == w.catalog[r.objectId].(retention := Deleted, upload := Removed)
    && (forall id :: id in w.catalog && id != r.objectId ==> v.catalog[id] == w.catalog[id])
    && r.place !in v.objects && (forall p :: p in v.objects <==> p in w.objects && p != r.place)
    && (forall p :: p in v.objects ==> v.objects[p] == w.objects[p])
  }

  ghost predicate Free(w: World, pid: nat, r: Reference)
  {
    pid !in w.processes && r.objectId !in w.locks
  }

  ghost function Reserved(w: World, r: Reference): (v: World)
    requires r.objectId in w.catalog
  {
    w.(catalog := w.catalog[r.objectId := w.catalog[r.objectId].(retention := PendingDelete)])
  }

  ghost function Emptied(w: World, r: Reference): (v: World)
  {
    w.(objects := w.objects - {r.place})
  }

  ghost function Marked(w: World, r: Reference): (v: World)
    requires r.objectId in w.catalog
  {
    w.(catalog := w.catalog[r.objectId := w.catalog[r.objectId].(retention := Deleted, upload := Removed)])
  }

  /** The process of a discard at work in a world that is otherwise `v`. */
  ghost function Working(v: World, pid: nat, r: Reference, pc: Pc): (wNext: World)
  {
    v.(processes := v.processes[pid := Process(r.objectId, true, pc)], locks := v.locks[r.objectId := pid])
  }

  lemma WorkingMoves(v: World, pid: nat, r: Reference, pc: Pc, next: Pc)
    ensures Goto(Working(v, pid, r, pc), pid, next) == Working(v, pid, r, next)
  {
    var w := Working(v, pid, r, pc);
    assert w.processes[pid := w.processes[pid].(pc := next)] == v.processes[pid := Process(r.objectId, true, next)];
  }

  lemma WorkingEnds(v: World, pid: nat, r: Reference, pc: Pc)
    requires Free(v, pid, r)
    ensures End(Working(v, pid, r, pc), pid) == v
  {
    var w := Working(v, pid, r, pc);
    assert w.processes - {pid} == v.processes && w.locks - {r.objectId} == v.locks;
  }

  /** Each effect of a discard in turn. */
  lemma DiscardLooks(h: Hashes, v: World, pid: nat, r: Reference)
    requires Free(v, pid, r)
    ensures Step(h, Working(v, pid, r, Locked(DiscardCall(r))), Advance(pid)) ==
      if Discardable(v, r, r.place.provider) then Working(v, pid, r, Reserving(r)) else v
  {
    WorkingMoves(v, pid, r, Locked(DiscardCall(r)), Reserving(r));
    WorkingEnds(v, pid, r, Locked(DiscardCall(r)));
    hide Goto, End;
  }

  lemma DiscardReserves(h: Hashes, v: World, pid: nat, r: Reference)
    requires r.objectId in v.catalog
    ensures Step(h, Working(v, pid, r, Reserving(r)), Advance(pid)) == Working(Reserved(v, r), pid, r, Deleting(r))
  {
    WorkingMoves(Reserved(v, r), pid, r, Reserving(r), Deleting(r));
    hide Goto, End;
  }

  lemma DiscardDeletes(h: Hashes, v: World, pid: nat, r: Reference)
    ensures Step(h, Working(v, pid, r, Deleting(r)), Advance(pid)) == Working(Emptied(v, r), pid, r, Marking(r))
  {
    WorkingMoves(Emptied(v, r), pid, r, Deleting(r), Marking(r));
    hide Goto, End;
  }

  lemma DiscardMarks(h: Hashes, v: World, pid: nat, r: Reference)
    requires Free(v, pid, r) && r.objectId in v.catalog && v.catalog[r.objectId].retention == PendingDelete
    ensures Step(h, Working(v, pid, r, Marking(r)), Advance(pid)) == Marked(v, r)
  {
    WorkingEnds(Marked(v, r), pid, r, Marking(r));
    hide Goto, End;
  }

  lemma DiscardLocks(h: Hashes, v: World, pid: nat, r: Reference)
    requires Free(v, pid, r)
    ensures var begun := Step(h, v, Begin(pid, DiscardCall(r), r.place.provider));
      && Step(h, begun, Advance(pid)) == Working(v, pid, r, Locked(DiscardCall(r)))
      && Step(h, begun, Crash(pid)) == v
  {
    var begun := Step(h, v, Begin(pid, DiscardCall(r), r.place.provider));
    assert begun.processes - {pid} == v.processes;
    assert begun.processes[pid := Process(r.objectId, true, Locked(DiscardCall(r)))] ==
           v.processes[pid := Process(r.objectId, true, Locked(DiscardCall(r)))];
  }

  lemma NobodyThere(h: Hashes, v: World, pid: nat)
    requires pid !in v.processes
    ensures Step(h, v, Advance(pid)) == v && Step(h, v, Crash(pid)) == v
  {
  }

  /** The world without the discard after `n` of its effects, and whether it is still at work. */
  ghost function DiscardStage(w: World, r: Reference, n: nat): (v: World)
    requires r.objectId in w.catalog
  {
    if n <= 2 then w
    else if n == 3 then Reserved(w, r)
    else if n == 4 then Emptied(Reserved(w, r), r)
    else Marked(Emptied(Reserved(w, r), r), r)
  }

  ghost function DiscardPc(r: Reference, n: nat): (pc: Pc)
  {
    if n == 1 then Locked(DiscardCall(r)) else if n == 2 then Reserving(r) else if n == 3 then Deleting(r) else Marking(r)
  }

  lemma {:induction false} DiscardProgress(h: Hashes, w: World, pid: nat, r: Reference, n: nat)
    requires Free(w, pid, r) && Discardable(w, r, r.place.provider)
    ensures var now := AdvanceTimes(h, Step(h, w, Begin(pid, DiscardCall(r), r.place.provider)), pid, n);
      && (1 <= n <= 4 ==> now == Working(DiscardStage(w, r, n), pid, r, DiscardPc(r, n)))
      && (n >= 5 ==> now == DiscardStage(w, r, n))
  {
    hide Step, Working;
    if n == 1 {
      DiscardLocks(h, w, pid, r);
      assert AdvanceTimes(h, Step(h, w, Begin(pid, DiscardCall(r), r.place.provider)), pid, 0) ==
             Step(h, w, Begin(pid, DiscardCall(r), r.place.provider));
    } else if n > 1 {
      DiscardProgress(h, w, pid, r, n - 1);
      var v := DiscardStage(w, r, n - 1);
      if n == 2 {
        DiscardLooks(h, w, pid, r);
      } else if n == 3 {
        DiscardReserves(h, w, pid, r);
      } else if n == 4 {
        DiscardDeletes(h, v, pid, r);
      } else if n == 5 {
        DiscardMarks(h, v, pid, r);
      } else {
        NobodyThere(h, v, pid);
      }
    }
  }

  /** A discard that finds nothing to discard changes nothing, however far it gets. */
  lemma {:induction false} DiscardRefused(h: Hashes, w: World, pid: nat, r: Reference, storage: Provider, n: nat)
    requires Free(w, pid, r) && !Discardable(w, r, storage)
    ensures var now := AdvanceTimes(h, Step(h, w, Begin(pid, DiscardCall(r), storage)), pid, n);
      && (storage != r.place.provider || n >= 2 ==> now == w)
      && (storage == r.place.provider && n == 1 ==> now == Working(w, pid, r, Locked(DiscardCall(r))))
  {
    if storage != r.place.provider {
      assert Step(h, w, Begin(pid, DiscardCall(r), storage)) == w;
    }
    hide Step, Working;
    if n > 0 {
      DiscardRefused(h, w, pid, r, storage, n - 1);
      if storage == r.place.provider && n == 1 {
        DiscardLocks(h, w, pid, r);
      } else if storage == r.place.provider && n == 2 {
        DiscardLooks(h, w, pid, r);
      } else {
        NobodyThere(h, w, pid);
      }
    }
  }

  /**
    Exactly when a discard succeeds: an undisturbed call ends with the row DELETED, its upload removed
    and its object gone if and only if the row is this object's and is active or reserved; otherwise it
    changes nothing at all.
   */
  lemma DiscardSucceedsIff(h: Hashes, w: World, pid: nat, r: Reference, storage: Provider)
    requires Free(w, pid, r)
    ensures var v := DiscardAlone(h, w, pid, r, storage);
      if Discardable(w, r, storage) then v != w && IsDiscarded(w, r, v) else v == w
  {
    hide Step, AdvanceTimes;
    if Discardable(w, r, storage) {
      DiscardProgress(h, w, pid, r, DISCARD_STEPS);
    } else {
      DiscardRefused(h, w, pid, r, storage, DISCARD_STEPS);
    }
  }

  /**
    Crash and repeat. Whatever effect of a discard a crash follows, repeating the discard ends in the
    very world that one undisturbed call would have left.
   */
  lemma DiscardAgain(h: Hashes, w: World, pid: nat, again: nat, r: Reference, storage: Provider, n: nat)
    requires Free(w, pid, r) && Free(w, again, r)
    ensures var crashed := Step(h, AdvanceTimes(h, Step(h, w, Begin(pid, DiscardCall(r), storage)), pid, n), Crash(pid));
      DiscardAlone(h, crashed, again, r, storage) == DiscardAlone(h, w, pid, r, storage)
  {
    if Discardable(w, r, storage) {
      DiscardCrashed(h, w, pid, r, n);
      DiscardRepeated(h, w, again, r, n);
      DiscardProgress(h, w, pid, r, DISCARD_STEPS);
    } else {
      RefusedCrashed(h, w, pid, r, storage, n);
      DiscardRefused(h, w, pid, r, storage, DISCARD_STEPS);
      DiscardRefused(h, w, again, r, storage, DISCARD_STEPS);
    }
  }

  lemma DiscardCrashed(h: Hashes, w: World, pid: nat, r: Reference, n: nat)
    requires Free(w, pid, r) && Discardable(w, r, r.place.provider)
    ensures Step(h, AdvanceTimes(h, Step(h, w, Begin(pid, DiscardCall(r), r.place.provider)), pid, n), Crash(pid)) == DiscardStage(w, r, n)
  {
    DiscardProgress(h, w, pid, r, n);
    DiscardLocks(h, w, pid, r);
    var v := DiscardStage(w, r, n);
    WorkingEnds(v, pid, r, DiscardPc(r, n));
    NobodyThere(h, v, pid);
    hide Working, End, DiscardStage;
  }

  lemma RefusedCrashed(h: Hashes, w: World, pid: nat, r: Reference, storage: Provider, n: nat)
    requires Free(w, pid, r) && !Discardable(w, r, storage)
    ensures Step(h, AdvanceTimes(h, Step(h, w, Begin(pid, DiscardCall(r), storage)), pid, n), Crash(pid)) == w
  {
    DiscardRefused(h, w, pid, r, storage, n);
    if storage == r.place.provider {
      DiscardLocks(h, w, pid, r);
    }
    WorkingEnds(w, pid, r, Locked(DiscardCall(r)));
    NobodyThere(h, w, pid);
  }

  /** A discard of what another one has left. */
  lemma DiscardRepeated(h: Hashes, w: World, pid: nat, r: Reference, n: nat)
    requires Free(w, pid, r) && Discardable(w, r, r.place.provider)
    ensures DiscardAlone(h, DiscardStage(w, r, n), pid, r, r.place.provider) == DiscardStage(w, r, DISCARD_STEPS)
  {
    var v := DiscardStage(w, r, n);
    if n <= 4 {
      DiscardProgress(h, v, pid, r, DISCARD_STEPS);
      SameEnd(w, r, n);
    } else {
      DiscardRefused(h, v, pid, r, r.place.provider, DISCARD_STEPS);
    }
  }

  lemma SameEnd(w: World, r: Reference, n: nat)
    requires r.objectId in w.catalog && n <= 4
    ensures DiscardStage(DiscardStage(w, r, n), r, DISCARD_STEPS) == DiscardStage(w, r, DISCARD_STEPS)
  {
    var v := DiscardStage(w, r, n);
    var end, other := DiscardStage(v, r, DISCARD_STEPS), DiscardStage(w, r, DISCARD_STEPS);
    assert end.catalog == other.catalog && end.objects == other.objects;
  }
}
