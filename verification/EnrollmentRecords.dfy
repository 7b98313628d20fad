/** Durable enrollment records (broker/src/enrollment-record-store.ts): the in-memory store as
    functions on a map, the encrypted file format, and the encrypted store that refines the first. */
module EnrollmentRecords {
  import opened Terms

  datatype Device = Device(pairIdHash: Digest, signing: Pem, encryption: Pem,
                           enrolledAtMs: int, expiresAtMs: int, revoked: bool)

  datatype RecordInput = RecordInput(pairId: string, signing: Pem, encryption: Pem, enrolledAtMs: int, expiresAtMs: int)

  type Records = map<Digest, Device>

  datatype StoreError = InvalidInput | InsecureDirectory | IoError | Corrupt | UnknownVersion

  datatype Result<+T> = Ok(value: T) | Err(error: StoreError)

  // ---------- InMemoryEnrollmentRecordStore ----------

  predicate NamesPublicKey(text: string) {
    |text| >= 10 && (text[..10] == "PUBLIC KEY" || NamesPublicKey(text[1..]))
  }

  /** assertRecord: what `record` accepts. */
  predicate Acceptable(input: RecordInput) {
    && input.pairId != ""
    && NamesPublicKey(input.signing.text) && NamesPublicKey(input.encryption.text)
    && 0 <= input.enrolledAtMs < input.expiresAtMs
  }

  function DeviceOf(input: RecordInput): Device {
    Device(Sha256(input.pairId), input.signing, input.encryption, input.enrolledAtMs, input.expiresAtMs, false)
  }

  function Find(records: Records, pairId: string): Option<Device> {
    if Sha256(pairId) in records then Some(records[Sha256(pairId)]) else None
  }

  function Record(records: Records, input: RecordInput): Records {
    records[Sha256(input.pairId) := DeviceOf(input)]
  }

  function Revoke(records: Records, pairId: string): Records {
    if Sha256(pairId) in records then records[Sha256(pairId) := records[Sha256(pairId)].(revoked := true)] else records
  }

  /** A record is found exactly as given until it is given again, and a revoke flags it and nothing else. */
  lemma MemoryLaws(records: Records, input: RecordInput, pairId: string, other: string)
    ensures
      Find(Record(records, input), pairId) ==
        if pairId == input.pairId
        then Some(Device(Sha256(pairId), input.signing, input.encryption, input.enrolledAtMs, input.expiresAtMs, false))
        else Find(records, pairId)
    ensures
      Find(Revoke(records, pairId), other) ==
        if other == pairId && Find(records, pairId).Some? then Some(Find(records, pairId).value.(revoked := true))
        else Find(records, other)
    ensures Find(map[], pairId) == None
  {}

  /** What parseStoredRecords demands of a stored entry. */
  predicate Storable(d: Device) {
    d.signing.text != "" && d.encryption.text != "" && 0 <= d.enrolledAtMs && 0 < d.expiresAtMs
  }

  predicate WellKept(records: Records) {
    forall k :: k in records ==> records[k].pairIdHash == k && Storable(records[k])
  }

  // ---------- the file ----------

  /** JSON values. A string is either the hex text of a digest or the text of a PEM. */
  datatype Json =
    | JNull | JBool(b: bool) | JInteger(i: int) | JFraction
    | JHex(digest: Digest) | JText(pem: Pem)
    | JArray(items: seq<Json>) | JObject(fields: map<string, Json>)

  datatype Plaintext = Parses(json: Json) | NotJson

  /** An AES-256-GCM ciphertext with its tag: it opens for its own key, nonce and header alone. */
  datatype Box = Sealed(key: string, nonce: string, header: string, plaintext: Plaintext) | Noise

  datatype FileImage = TooShort | Framed(magic: string, version: int, nonce: string, box: Box)

  const MAGIC := "MBEN"
  const FORMAT_VERSION := 1
  const AUTHENTICATED_HEADER := "MBEN\U{1}"

  function Open(box: Box, key: string, nonce: string): Option<Plaintext> {
    if box.Sealed? && box.key == key && box.nonce == nonce && box.header == AUTHENTICATED_HEADER
    then Some(box.plaintext) else None
  }

  function PrintDevice(d: Device): Json {
    JObject(map["pairIdHash" := JHex(d.pairIdHash), "deviceSigningPublicKeyPem" := JText(d.signing),
                "deviceEncryptionPublicKeyPem" := JText(d.encryption), "enrolledAtMs" := JInteger(d.enrolledAtMs),
                "expiresAtMs" := JInteger(d.expiresAtMs), "revoked" := JBool(d.revoked)])
  }

  function Field(fields: map<string, Json>, name: string): Json {
    if name in fields then fields[name] else JNull
  }

  function ParseDevice(entry: Json): Option<Device> {
    if !entry.JObject? then None else
    var hash, signing := Field(entry.fields, "pairIdHash"), Field(entry.fields, "deviceSigningPublicKeyPem");
    var encryption, enrolledAt := Field(entry.fields, "deviceEncryptionPublicKeyPem"),
      Field(entry.fields, "enrolledAtMs");
    var expiresAt, revoked := Field(entry.fields, "expiresAtMs"), Field(entry.fields, "revoked");
    if && hash.JHex? && signing.JText? && signing.pem.text != "" && encryption.JText? && encryption.pem.text != ""
       && enrolledAt.JInteger? && enrolledAt.i >= 0 && expiresAt.JInteger? && expiresAt.i > 0 && revoked.JBool?
    then Some(Device(hash.digest, signing.pem, encryption.pem, enrolledAt.i, expiresAt.i, revoked.b))
    else None
  }

  function ParseDevices(items: seq<Json>): Option<seq<Device>> {
    if items == [] then Some([]) else
    var first, rest := ParseDevice(items[0]), ParseDevices(items[1..]);
    if first.None? || rest.None? then None else Some([first.value] + rest.value)
  }

  /** parseStoredRecords: all entries or none. */
  function ParseStored(plaintext: Plaintext): Option<seq<Device>> {
    if plaintext.NotJson? || !plaintext.json.JObject? then None else
    var candidate := Field(plaintext.json.fields, "records");
    if !candidate.JArray? then None else ParseDevices(candidate.items)
  }

  function PrintStored(devices: seq<Device>): Plaintext {
    Parses(JObject(map["records" := JArray(PrintDevices(devices))]))
  }

  function PrintDevices(devices: seq<Device>): seq<Json> {
    if devices == [] then [] else [PrintDevice(devices[0])] + PrintDevices(devices[1..])
  }

  /** Later entries win, as `Map.set` in a loop does. */
  function Gather(devices: seq<Device>): Records {
    if devices == [] then map[]
    else Gather(devices[..|devices| - 1])[devices[|devices| - 1].pairIdHash := devices[|devices| - 1]]
  }

  /** load, after the directory check and a successful read; None is a missing file. */
  function Decode(image: Option<FileImage>, key: string): Result<Records> {
    match image
    case None => Ok(map[])
    case Some(TooShort) => Err(Corrupt)
    case Some(Framed(magic, version, nonce, box)) =>
      if magic != MAGIC then Err(Corrupt)
      else if version != FORMAT_VERSION then Err(UnknownVersion)
      else
        var plain := Open(box, key, nonce);
        if plain.None? then Err(Corrupt) else
        var devices := ParseStored(plain.value);
        if devices.None? then Err(Corrupt) else Ok(Gather(devices.value))
  }

  function Encode(devices: seq<Device>, key: string, nonce: string): FileImage {
    Framed(MAGIC, FORMAT_VERSION, nonce, Sealed(key, nonce, AUTHENTICATED_HEADER, PrintStored(devices)))
  }

  lemma DeviceRoundTrip(d: Device)
    ensures ParseDevice(PrintDevice(d)) == if Storable(d) then Some(d) else None
  {}

  /** An entry is read as a device exactly when that device is storable and the entry's six fields are those that
      printing it writes, whatever other fields there are. */
  lemma ParsedIff(entry: Json, d: Device)
    ensures ParseDevice(entry) == Some(d) <==>
      && Storable(d) && entry.JObject?
      && forall name :: name in PrintDevice(d).fields ==> Field(entry.fields, name) == PrintDevice(d).fields[name]
  {
    var fields := PrintDevice(d).fields;
    assert "pairIdHash" in fields && "deviceSigningPublicKeyPem" in fields && "deviceEncryptionPublicKeyPem" in fields;
    assert "enrolledAtMs" in fields && "expiresAtMs" in fields && "revoked" in fields;
  }

  /** A text holds a list of devices exactly when it is an object whose records all read as those devices. */
  lemma StoredListIff(plaintext: Plaintext, devices: seq<Device>)
    ensures ParseStored(plaintext) == Some(devices) <==>
      && plaintext.Parses? && plaintext.json.JObject?
      && "records" in plaintext.json.fields && plaintext.json.fields["records"].JArray?
      && ReadAs(plaintext.json.fields["records"].items, devices)
  {
    if plaintext.Parses? && plaintext.json.JObject? && "records" in plaintext.json.fields
       && plaintext.json.fields["records"].JArray? {
      ParsedListIff(plaintext.json.fields["records"].items, devices);
    }
  }

  predicate ReadAs(items: seq<Json>, devices: seq<Device>) {
    |items| == |devices| && forall i :: 0 <= i < |items| ==> ParseDevice(items[i]) == Some(devices[i])
  }

  lemma {:induction false} ParsedListIff(items: seq<Json>, devices: seq<Device>)
    ensures ParseDevices(items) == Some(devices) <==> ReadAs(items, devices)
  {
    if items != [] {
      if devices == [] {
        assert ParseDevices(items).Some? ==> ParseDevices(items).value != [];
      } else {
        ParsedListIff(items[1..], devices[1..]);
        assert devices == [devices[0]] + devices[1..];
        if ReadAs(items, devices) {
          assert forall i :: 0 <= i < |items[1..]| ==>
            items[1..][i] == items[i + 1] && devices[1..][i] == devices[i + 1];
        }
        if ReadAs(items[1..], devices[1..]) && ParseDevice(items[0]) == Some(devices[0]) {
          forall i | 0 <= i < |items| ensures ParseDevice(items[i]) == Some(devices[i]) {
            if i > 0 { assert items[i] == items[1..][i - 1] && devices[i] == devices[1..][i - 1]; }
          }
        }
        if ParseDevices(items) == Some(devices) {
          assert devices[1..] == ParseDevices(items[1..]).value && devices[0] == ParseDevice(items[0]).value;
        }
      }
    }
  }

  /** Of several entries for one pairing the last one counts. */
  lemma {:induction false} LaterEntriesWin(devices: seq<Device>, i: nat)
    requires i < |devices| && forall j :: i < j < |devices| ==> devices[j].pairIdHash != devices[i].pairIdHash
    ensures devices[i].pairIdHash in Gather(devices) && Gather(devices)[devices[i].pairIdHash] == devices[i]
  {
    var n := |devices| - 1;
    if i < n { LaterEntriesWin(devices[..n], i); }
  }

  /** A list of records survives the file exactly when every one of them is storable. */
  lemma {:induction false} StoredRoundTrip(devices: seq<Device>)
    ensures ParseDevices(PrintDevices(devices)) ==
            if forall i :: 0 <= i < |devices| ==> Storable(devices[i]) then Some(devices) else None
  {
    if devices != [] {
      var printed := PrintDevices(devices);
      assert printed[0] == PrintDevice(devices[0]) && printed[1..] == PrintDevices(devices[1..]);
      DeviceRoundTrip(devices[0]);
      StoredRoundTrip(devices[1..]);
      assert devices == [devices[0]] + devices[1..];
      assert (forall i :: 0 <= i < |devices| ==> Storable(devices[i])) <==>
             Storable(devices[0]) && (forall i :: 0 <= i < |devices[1..]| ==> Storable(devices[1..][i]));
    }
  }

  lemma PlaintextRoundTrip(devices: seq<Device>)
    requires forall i :: 0 <= i < |devices| ==> Storable(devices[i])
    ensures ParseStored(PrintStored(devices)) == Some(devices)
  {
    StoredRoundTrip(devices);
    assert Field(PrintStored(devices).json.fields, "records") == JArray(PrintDevices(devices));
  }

  lemma {:induction false} ParsedAreStorable(items: seq<Json>)
    requires ParseDevices(items).Some?
    ensures forall i :: 0 <= i < |ParseDevices(items).value| ==> Storable(ParseDevices(items).value[i])
  {
    if items != [] { ParsedAreStorable(items[1..]); }
  }

  lemma {:induction false} GatherWellKept(devices: seq<Device>)
    requires forall i :: 0 <= i < |devices| ==> Storable(devices[i])
    ensures WellKept(Gather(devices))
  {
    if devices != [] { GatherWellKept(devices[..|devices| - 1]); }
  }

  lemma DecodedWellKept(image: Option<FileImage>, key: string)
    ensures Decode(image, key).Ok? ==> WellKept(Decode(image, key).value)
  {
    if image.Some? && Decode(image, key).Ok? {
      var items := Field(Open(image.value.box, key, image.value.nonce).value.json.fields, "records").items;
      ParsedAreStorable(items);
      GatherWellKept(ParseDevices(items).value);
    }
  }

  /** Writing a list and reading it back gives the map the list stands for; any other key fails. */
  lemma FileRoundTrip(devices: seq<Device>, key: string, nonce: string, otherKey: string)
    requires forall i :: 0 <= i < |devices| ==> Storable(devices[i])
    ensures Decode(Some(Encode(devices, key, nonce)), key) == Ok(Gather(devices))
    ensures otherKey != key ==> Decode(Some(Encode(devices, key, nonce)), otherKey) == Err(Corrupt)
  {
    PlaintextRoundTrip(devices);
    DecodeFramed(PrintStored(devices), key, nonce, key);
    DecodeFramed(PrintStored(devices), key, nonce, otherKey);
  }

  lemma DecodeFramed(plaintext: Plaintext, key: string, nonce: string, used: string)
    ensures
      var image := Framed(MAGIC, FORMAT_VERSION, nonce, Sealed(key, nonce, AUTHENTICATED_HEADER, plaintext));
      Decode(Some(image), used) ==
        if used == key && ParseStored(plaintext).Some? then Ok(Gather(ParseStored(plaintext).value)) else Err(Corrupt)
  {}

  /** A box that opens under this key and nonce, on a text that parses to a list of stored records. */
  predicate Readable(box: Box, key: string, nonce: string) {
    && box.Sealed? && box.key == key && box.nonce == nonce && box.header == AUTHENTICATED_HEADER
    && ParseStored(box.plaintext).Some?
  }

  /** Exactly which files load and with which error the others fail: no file is an empty store, a frame of another
      version is told apart, and everything else that does not read back is corrupt. */
  lemma DecodeAnswers(image: Option<FileImage>, key: string)
    ensures image.None? ==> Decode(image, key) == Ok(map[])
    ensures Decode(image, key).Ok? <==>
      image.None? || (image.value.Framed? && image.value.magic == MAGIC && image.value.version == FORMAT_VERSION
                      && Readable(image.value.box, key, image.value.nonce))
    ensures Decode(image, key) == Err(UnknownVersion) <==>
      image.Some? && image.value.Framed? && image.value.magic == MAGIC && image.value.version != FORMAT_VERSION
    ensures Decode(image, key).Err? ==>
      Decode(image, key).error == Corrupt || Decode(image, key).error == UnknownVersion
  {}

  // ---------- EncryptedEnrollmentRecordStore, with the file seen through its decoding ----------

  datatype LoadIo = Reads | DirectoryRefused | ReadFails

  /** The three ways a persist ends. The third reports an error although the file is already new. */
  datatype WriteIo = Written | FailsBeforeRename(refused: StoreError) | FailsAfterRename

  datatype Loading = NotLoaded | Loaded | LoadFailed(error: StoreError)

  datatype Store = Store(records: Records, loading: Loading, file: Result<Records>)

  datatype Operation =
    | FindOp(pairId: string, load: LoadIo)
    | RecordOp(input: RecordInput, load: LoadIo, write: WriteIo)
    | RevokeOp(pairId: string, load: LoadIo, write: WriteIo)
    | Restart

  datatype Outcome = Found(device: Option<Device>) | Recorded | RevokedIs(found: bool) | Failed(error: StoreError)
    | Restarted

  function EnsureLoaded(s: Store, io: LoadIo): Store {
    if !s.loading.NotLoaded? then s
    else match io
      case DirectoryRefused => s.(loading := LoadFailed(InsecureDirectory))
      case ReadFails => s.(loading := LoadFailed(IoError))
      case Reads => if s.file.Ok? then Store(s.file.value, Loaded, s.file) else s.(loading := LoadFailed(s.file.error))
  }

  function Persist(s: Store, io: WriteIo): Store {
    if io.FailsBeforeRename? then s else s.(file := Ok(s.records))
  }

  function AfterPersist(io: WriteIo, ok: Outcome): Outcome {
    match io
    case Written => ok
    case FailsBeforeRename(error) => Failed(error)
    case FailsAfterRename => Failed(IoError)
  }

  function Execute(s: Store, op: Operation): (Store, Outcome) {
    match op
    case Restart => (Store(map[], NotLoaded, s.file), Restarted)
    case FindOp(pairId, load) =>
      var t := EnsureLoaded(s, load);
      if t.loading.LoadFailed? then (t, Failed(t.loading.error)) else (t, Found(Find(t.records, pairId)))
    case RecordOp(input, load, write) =>
      if !Acceptable(input) then (s, Failed(InvalidInput)) else
      var t := EnsureLoaded(s, load);
      if t.loading.LoadFailed? then (t, Failed(t.loading.error)) else
      (Persist(t.(records := Record(t.records, input)), write), AfterPersist(write, Recorded))
    case RevokeOp(pairId, load, write) =>
      var t := EnsureLoaded(s, load);
      if t.loading.LoadFailed? then (t, Failed(t.loading.error))
      else if Find(t.records, pairId).None? then (t, RevokedIs(false))
      else (Persist(t.(records := Revoke(t.records, pairId)), write), AfterPersist(write, RevokedIs(true)))
  }

  function RunStore(s: Store, ops: seq<Operation>): (Store, seq<Outcome>) {
    if ops == [] then (s, []) else
    var (t, outcomes) := RunStore(s, ops[..|ops| - 1]);
    var (u, outcome) := Execute(t, ops[|ops| - 1]);
    (u, outcomes + [outcome])
  }

  /** The specification: the in-memory store next to the map that the last completed rename saved. `door` says
      whether this process has opened the store yet; a process that fails to open it stays shut out. */
  datatype Reference = Reference(memory: Records, saved: Records, door: Door)
  datatype Door = Untried | Entered | Shut(error: StoreError)

  function TryDoor(r: Reference, load: LoadIo): Reference {
    if !r.door.Untried? then r
    else match load
      case Reads => r.(door := Entered)
      case DirectoryRefused => r.(door := Shut(InsecureDirectory))
      case ReadFails => r.(door := Shut(IoError))
  }

  function Save(r: Reference, io: WriteIo): Reference {
    if io.FailsBeforeRename? then r else r.(saved := r.memory)
  }

  function ExecuteReference(r: Reference, op: Operation): (Reference, Outcome) {
    match op
    case Restart => (Reference(r.saved, r.saved, Untried), Restarted)
    case FindOp(pairId, load) =>
      var q := TryDoor(r, load);
      if q.door.Shut? then (q, Failed(q.door.error)) else (q, Found(Find(q.memory, pairId)))
    case RecordOp(input, load, write) =>
      if !Acceptable(input) then (r, Failed(InvalidInput)) else
      var q := TryDoor(r, load);
      if q.door.Shut? then (q, Failed(q.door.error))
      else (Save(q.(memory := Record(q.memory, input)), write), AfterPersist(write, Recorded))
    case RevokeOp(pairId, load, write) =>
      var q := TryDoor(r, load);
      if q.door.Shut? then (q, Failed(q.door.error))
      else if Find(q.memory, pairId).None? then (q, RevokedIs(false))
      else (Save(q.(memory := Revoke(q.memory, pairId)), write), AfterPersist(write, RevokedIs(true)))
  }

  function RunReference(r: Reference, ops: seq<Operation>): (Reference, seq<Outcome>) {
    if ops == [] then (r, []) else
    var (t, outcomes) := RunReference(r, ops[..|ops| - 1]);
    var (u, outcome) := ExecuteReference(t, ops[|ops| - 1]);
    (u, outcomes + [outcome])
  }

  predicate Represents(s: Store, r: Reference) {
    && s.file == Ok(r.saved)
    && r.door == (match s.loading case NotLoaded => Untried case Loaded => Entered case LoadFailed(e) => Shut(e))
    && r.memory == if s.loading.Loaded? then s.records else r.saved
  }

  lemma StepRefines(s: Store, r: Reference, op: Operation)
    requires Represents(s, r)
    ensures Represents(Execute(s, op).0, ExecuteReference(r, op).0)
    ensures Execute(s, op).1 == ExecuteReference(r, op).1
  {}

  /** Over any sequence of operations, loads and writes that fail, and restarts, the encrypted store answers as
      the in-memory store does in every process that opens it and fails in every other, and its file always
      decodes to what the last completed rename saved. It starts from any file that decodes, or from none, which
      stands for no records. */
  lemma {:induction false} EncryptedRefinesInMemory(image: Option<FileImage>, key: string, start: Records,
                                                    ops: seq<Operation>)
    requires if image.None? then start == map[] else Decode(image, key) == Ok(start)
    ensures
      var (s, outcomes) := RunStore(Store(map[], NotLoaded, Decode(image, key)), ops);
      var (r, expected) := RunReference(Reference(start, start, Untried), ops);
      Represents(s, r) && outcomes == expected
  {
    DecodeAnswers(image, key);
    if ops != [] {
      var earlier := ops[..|ops| - 1];
      EncryptedRefinesInMemory(image, key, start, earlier);
      var s := RunStore(Store(map[], NotLoaded, Decode(image, key)), earlier).0;
      var r := RunReference(Reference(start, start, Untried), earlier).0;
      StepRefines(s, r, ops[|ops| - 1]);
    }
  }

  /** The first start of a broker, with no file yet: nothing is found or revoked, and a first record is in the file. */
  lemma FirstStart(key: string, pairId: string, input: RecordInput, write: WriteIo)
    requires Acceptable(input)
    ensures
      var unopened := Store(map[], NotLoaded, Decode(None, key));
      && Execute(unopened, FindOp(pairId, Reads)).1 == Found(None)
      && Execute(unopened, RevokeOp(pairId, Reads, write)).1 == RevokedIs(false)
      && var (s, outcome) := Execute(unopened, RecordOp(input, Reads, Written));
      && outcome == Recorded
      && s.file == Ok(map[Sha256(input.pairId) := Device(Sha256(input.pairId), input.signing, input.encryption,
                                                         input.enrolledAtMs, input.expiresAtMs, false)])
  {
    DecodeAnswers(None, key);
  }

  /** The error of an operation is that of the first thing that goes wrong: the input, the load, or the write. */
  function FirstError(s: Store, op: Operation): Option<StoreError> {
    var shut := if s.loading.LoadFailed? then Some(s.loading.error)
                else if s.loading.Loaded? || op.Restart? then None
                else match op.load
                  case DirectoryRefused => Some(InsecureDirectory)
                  case ReadFails => Some(IoError)
                  case Reads => if s.file.Err? then Some(s.file.error) else None;
    if op.Restart? then None
    else if op.RecordOp? && !Acceptable(op.input) then Some(InvalidInput)
    else if shut.Some? || op.FindOp? then shut
    else
      var known := if s.loading.Loaded? then s.records else if s.file.Ok? then s.file.value else map[];
      if op.RevokeOp? && Sha256(op.pairId) !in known then None
      else match op.write
        case Written => None
        case FailsBeforeRename(error) => Some(error)
        case FailsAfterRename => Some(IoError)
  }

  lemma FailsWithFirstError(s: Store, op: Operation)
    ensures Execute(s, op).1.Failed? <==> FirstError(s, op).Some?
    ensures FirstError(s, op).Some? ==> Execute(s, op).1 == Failed(FirstError(s, op).value)
  {}

  /** After a load has failed, nothing in that process reads a record, succeeds or touches the file. */
  lemma {:induction false} FailedLoadStaysShut(s: Store, first: Operation, ops: seq<Operation>)
    requires s.loading.NotLoaded? && s.records == map[] && !first.Restart?
    requires EnsureLoaded(s, first.load).loading.LoadFailed?
    requires first.RecordOp? ==> Acceptable(first.input)
    requires forall i :: 0 <= i < |ops| ==> !ops[i].Restart?
    ensures
      var (t, outcomes) := RunStore(s, [first] + ops);
      && t == EnsureLoaded(s, first.load) && t.file == s.file && t.records == map[]
      && (forall i :: 0 <= i < |outcomes| ==> outcomes[i].Failed?)
  {
    if ops == [] {
      assert [first] + ops == [first];
      assert [first][..0] == [];
    } else {
      var all := [first] + ops;
      assert all[..|all| - 1] == [first] + ops[..|ops| - 1];
      FailedLoadStaysShut(s, first, ops[..|ops| - 1]);
    }
  }

  /** A file that does not decode is never written again, in this process or after any restarts, and no
      operation succeeds while it is there. */
  lemma {:induction false} UndecodableFileIsKept(error: StoreError, ops: seq<Operation>)
    ensures
      var (s, outcomes) := RunStore(Store(map[], NotLoaded, Err(error)), ops);
      && s.file == Err(error) && s.records == map[] && !s.loading.Loaded?
      && (forall i :: 0 <= i < |outcomes| ==> outcomes[i].Failed? || outcomes[i].Restarted?)
  {
    if ops != [] { UndecodableFileIsKept(error, ops[..|ops| - 1]); }
  }

  /** The operation gets as far as renaming its temporary file over the store's. */
  predicate Renames(s: Store, op: Operation) {
    && (op.RecordOp? || op.RevokeOp?) && !op.write.FailsBeforeRename?
    && !EnsureLoaded(s, op.load).loading.LoadFailed?
    && (op.RecordOp? ==> Acceptable(op.input))
    && (op.RevokeOp? ==> Find(EnsureLoaded(s, op.load).records, op.pairId).Some?)
  }

  function Renamed(s: Store, op: Operation): Records
    requires Renames(s, op)
  {
    var records := EnsureLoaded(s, op.load).records;
    if op.RecordOp? then Record(records, op.input) else Revoke(records, op.pairId)
  }

  /** The file changes by its renames alone, and an operation reports an error although it has changed the file
      exactly when what fails comes after the rename and the renamed map is not the one that was there. */
  lemma ErrorsAndTheFile(s: Store, op: Operation)
    ensures Execute(s, op).0.file == if Renames(s, op) then Ok(Renamed(s, op)) else s.file
    ensures Execute(s, op).1.Failed? && Execute(s, op).0.file != s.file
       <==> Renames(s, op) && op.write.FailsAfterRename? && s.file != Ok(Renamed(s, op))
  {}

  /** Such an operation: the first record of an empty store, with a mode that cannot be set afterwards. */
  lemma FailedRecordIsKept(key: PublicKey)
    ensures
      var pem := Pem("PUBLIC KEY", Some(key));
      var op := RecordOp(RecordInput("p", pem, pem, 0, 1), Reads, FailsAfterRename);
      var (s, outcome) := Execute(Store(map[], NotLoaded, Ok(map[])), op);
      outcome == Failed(IoError) && s.file == Ok(map[Sha256("p") := Device(Sha256("p"), pem, pem, 0, 1, false)])
  {
    assert NamesPublicKey("PUBLIC KEY") by { assert "PUBLIC KEY"[..10] == "PUBLIC KEY"; }
  }

  // ---------- the store itself ----------

  class Disk {
    var image: Option<FileImage>

    constructor (image: Option<FileImage>)
      ensures this.image == image
    {
      this.image := image;
    }
  }

  class EncryptedEnrollmentRecordStore {
    const disk: Disk
    const key: string
    var records: Records
    var loading: Loading

    ghost function State(): Store
      reads this, disk
    {
      Store(records, loading, Decode(disk.image, key))
    }

    ghost predicate Valid()
      reads this
    {
      WellKept(records) && (!loading.Loaded? ==> records == map[])
    }

    constructor (disk: Disk, key: string)
      ensures Valid() && this.disk == disk && this.key == key
      ensures State() == Store(map[], NotLoaded, Decode(disk.image, key))
    {
      this.disk := disk;
      this.key := key;
      records := map[];
      loading := NotLoaded;
    }

    method Load(io: LoadIo)
      requires Valid()
      modifies this`records, this`loading
      ensures Valid() && State() == EnsureLoaded(old(State()), io)
    {
      if !loading.NotLoaded? { return; }
      if io.DirectoryRefused? { loading := LoadFailed(InsecureDirectory); return; }
      if io.ReadFails? { loading := LoadFailed(IoError); return; }
      if disk.image.None? { loading := Loaded; return; }
      DecodedWellKept(disk.image, key);
      var raw := disk.image.value;
      if raw.TooShort? || raw.magic != MAGIC { loading := LoadFailed(Corrupt); return; }
      if raw.version != FORMAT_VERSION { loading := LoadFailed(UnknownVersion); return; }
      var plaintext := Open(raw.box, key, raw.nonce);
      if plaintext.None? { loading := LoadFailed(Corrupt); return; }
      var devices := ParseStored(plaintext.value);
      if devices.None? { loading := LoadFailed(Corrupt); return; }
      for i := 0 to |devices.value|
        invariant records == Gather(devices.value[..i])
      {
        assert devices.value[..i + 1][..i] == devices.value[..i];
        records := records[devices.value[i].pairIdHash := devices.value[i]];
      }
      assert devices.value[..|devices.value|] == devices.value;
      loading := Loaded;
    }

    /** The values of the map, in an order of its own. */
    method Values() returns (devices: seq<Device>)
      requires Valid()
      ensures Gather(devices) == records
      ensures forall i :: 0 <= i < |devices| ==> Storable(devices[i])
    {
      devices := [];
      var keys := records.Keys;
      while keys != {}
        invariant keys <= records.Keys
        invariant forall i :: 0 <= i < |devices| ==> Storable(devices[i])
        invariant Gather(devices) == map k | k in records && k !in keys :: records[k]
      {
        var k :| k in keys;
        keys := keys - {k};
        assert (devices + [records[k]])[..|devices|] == devices;
        devices := devices + [records[k]];
      }
    }

    method PersistFile(io: WriteIo, nonce: string) returns (error: Option<StoreError>)
      requires Valid()
      modifies disk
      ensures State() == Persist(old(State()), io)
      ensures io.FailsBeforeRename? ==> disk.image == old(disk.image)
      ensures error == match io {
        case Written => None
        case FailsBeforeRename(e) => Some(e)
        case FailsAfterRename => Some(IoError)
      }
    {
      var devices := Values();
      FileRoundTrip(devices, key, nonce, key);
      var bytes := Encode(devices, key, nonce);
      if io.FailsBeforeRename? { return Some(io.refused); }
      disk.image := Some(bytes);
      if io.FailsAfterRename? { return Some(IoError); }
      return None;
    }

    method FindDevice(pairId: string, io: LoadIo) returns (outcome: Outcome)
      requires Valid()
      modifies this`records, this`loading
      ensures Valid() && (State(), outcome) == Execute(old(State()), FindOp(pairId, io))
    {
      Load(io);
      if loading.LoadFailed? { return Failed(loading.error); }
      return Found(if Sha256(pairId) in records then Some(records[Sha256(pairId)]) else None);
    }

    method RecordDevice(input: RecordInput, io: LoadIo, write: WriteIo, nonce: string) returns (outcome: Outcome)
      requires Valid()
      modifies this`records, this`loading, disk
      ensures Valid() && (State(), outcome) == Execute(old(State()), RecordOp(input, io, write))
      ensures loading.LoadFailed? ==> disk.image == old(disk.image)
    {
      if !Acceptable(input) { return Failed(InvalidInput); }
      Load(io);
      if loading.LoadFailed? { return Failed(loading.error); }
      records := records[Sha256(input.pairId) := DeviceOf(input)];
      var error := PersistFile(write, nonce);
      if error.Some? { return Failed(error.value); }
      return Recorded;
    }

    method RevokeDevice(pairId: string, io: LoadIo, write: WriteIo, nonce: string) returns (outcome: Outcome)
      requires Valid()
      modifies this`records, this`loading, disk
      ensures Valid() && (State(), outcome) == Execute(old(State()), RevokeOp(pairId, io, write))
      ensures loading.LoadFailed? ==> disk.image == old(disk.image)
    {
      Load(io);
      if loading.LoadFailed? { return Failed(loading.error); }
      if Sha256(pairId) !in records { return RevokedIs(false); }
      records := records[Sha256(pairId) := records[Sha256(pairId)].(revoked := true)];
      var error := PersistFile(write, nonce);
      if error.Some? { return Failed(error.value); }
      return RevokedIs(true);
    }
  }
}
