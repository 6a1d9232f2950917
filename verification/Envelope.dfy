/** The checksummed envelope a registry is persisted in, and what reading it back restores. */
module Envelope {
  import opened Wire
  import opened Crc
  import opened Framing
  import opened Fabric
  import opened Registry
  import opened RegistryLaws
  import opened Listing
  import opened Codec
  import opened Payload

  const MAGIC: seq<Byte> := [78, 86, 83, 70, 70, 65, 66, 49]
  const FORMAT_VERSION: Wire.U32 := 1

  datatype StoreError = INTEGRITY_FAILURE | FUTURE_VERSION
  datatype Restored = Registry(state: State) | Failed(error: StoreError)

  function FileHead(): (s: seq<Byte>)
    ensures |s| == 12
  {
    MAGIC + LittleEndian(FORMAT_VERSION, 4)
  }

  function Seal(crc: Checksum, payload: seq<Byte>): (s: seq<Byte>)
    ensures |s| == HEADER + |payload| + 4
  {
    FileHead() + LittleEndian(crc(FileHead()), 4) + payload + LittleEndian(crc(payload), 4)
  }

  /** serialize: the registry's snapshot, its records walked in the order of the listing. */
  function Serialize(crc: Checksum, r: State, e: BulkEdit): seq<Byte> {
    Seal(crc, EncodePayload(r.current, e))
  }

  /** What the envelope's checks come to: the payload when all pass. */
  datatype Opened = Contents(payload: seq<Byte>) | Rejected(error: StoreError)

  /** The checks that need no checksum, in the order they are made. */
  function HeadError(b: seq<Byte>): Option<StoreError>
    requires |b| >= HEADER
  {
    if b[..8] != MAGIC then Some(INTEGRITY_FAILURE)
    else if FromLittleEndian(b[8..12]) > FORMAT_VERSION then Some(FUTURE_VERSION)
    else if FromLittleEndian(b[8..12]) != FORMAT_VERSION then Some(INTEGRITY_FAILURE)
    else None
  }

  /** The two checksums, and a payload that is not empty. */
  function OpenBody(crc: Checksum, b: seq<Byte>): Opened
    requires |b| >= HEADER + 4
  {
    var n := |b| - HEADER - 4;
    if HeaderIntact(crc, b) && n > 0 && PayloadIntact(crc, b, n) then Contents(b[HEADER..HEADER + n]) else Rejected(INTEGRITY_FAILURE)
  }

  function Open(crc: Checksum, b: seq<Byte>): Opened {
    if |b| < HEADER + 4 then Rejected(INTEGRITY_FAILURE)
    else if HeadError(b).Some? then Rejected(HeadError(b).value)
    else OpenBody(crc, b)
  }

  /** The registry a decoded snapshot starts. */
  function Resume(t: Topology): State {
    State(t, Next(t.id), t.epoch, 1)
  }

  function Deserialize(crc: Checksum, b: seq<Byte>): Restored {
    match Open(crc, b)
    case Rejected(e) => Failed(e)
    case Contents(p) =>
      var t := ParseTopology(p);
      if t.None? then Failed(INTEGRITY_FAILURE) else Restored.Registry(Resume(t.value))
  }

  // ----- round trip -----

  lemma HeadReads(b: seq<Byte>)
    requires |b| >= 12 && b[..12] == FileHead()
    ensures b[..8] == MAGIC && FromLittleEndian(b[8..12]) == FORMAT_VERSION
  {
    var head := FileHead();
    assert b[..8] == head[..8] && b[8..12] == head[8..12];
    assert head[..8] == MAGIC && head[8..12] == LittleEndian(FORMAT_VERSION, 4);
    U32RoundTrip(FORMAT_VERSION);
  }

  /** A sealed payload opens to itself. */
  lemma OpensSealed(crc: Checksum, payload: seq<Byte>)
    requires payload != []
    ensures Open(crc, Seal(crc, payload)) == Contents(payload)
  {
    var b := Seal(crc, payload);
    assert b == b + [];
    BodyLayout(crc, FileHead(), payload, [], b);
    HeadReads(b);
  }

  lemma PayloadNonempty(t: Topology, e: BulkEdit)
    ensures EncodePayload(t, e) != []
  {
    assert EncodeFields(HEADER_KINDS, HeaderFields(t)) == EncodeField(HEADER_KINDS[0], HeaderFields(t)[0]) + EncodeFields(HEADER_KINDS[1..], HeaderFields(t)[1..]);
    assert |EncodeField(HEADER_KINDS[0], HeaderFields(t)[0])| == 8;
  }

  /** Persisting and restoring gives back the snapshot, the snapshot's epoch and the next snapshot id. */
  lemma RegistryRoundTrip(crc: Checksum, r: State, e: BulkEdit)
    requires WellFormed(r.current) && Bounded(r.current) && Lists(e, r.current)
    ensures Deserialize(crc, Serialize(crc, r, e)) == Restored.Registry(State(r.current, Next(r.current.id), r.current.epoch, 1))
  {
    PayloadNonempty(r.current, e);
    OpensSealed(crc, EncodePayload(r.current, e));
    TopologyRoundTrip(r.current, e);
  }

  /** In every run the next snapshot id follows the current one. */
  predicate IdsInStep(r: State) {
    r.nextSnapshotId == Next(r.current.id)
  }

  lemma {:induction false} RunIdsInStep(f: Mutators, r: State, es: seq<Event>)
    requires IdsInStep(r)
    ensures IdsInStep(Run(f, r, es))
    decreases |es|
  {
    if es != [] { RunIdsInStep(f, After(f, r, es[0]), es[1..]); }
  }

  /** A registry is restored exactly, but for its version counter, if and only if its epoch is its snapshot's. */
  lemma RestoredExactly(crc: Checksum, r: State, e: BulkEdit)
    requires WellFormed(r.current) && Bounded(r.current) && Lists(e, r.current) && IdsInStep(r)
    ensures Deserialize(crc, Serialize(crc, r, e)) == Restored.Registry(r.(version := 1)) <==> r.epoch == r.current.epoch
  {
    RegistryRoundTrip(crc, r, e);
  }

  // ----- corruption -----

  lemma DamageKeepsOut(crc: Checksum, b: seq<Byte>, k: nat, x: Byte)
    requires DetectsSingleByte(crc) && Open(crc, b).Contents? && k < |b| && b[k] != x
    ensures Open(crc, b[k := x]).Rejected?
  {
    if k < HEADER {
      DamagedHeader(crc, b, k, x);
    } else {
      DamagedBody(crc, b, |b| - HEADER - 4, k, x);
    }
  }

  /** Changing exactly one byte of a persisted registry makes reading it fail. */
  lemma StoreCorruptionDetected(r: State, e: BulkEdit, k: nat, x: Byte)
    requires k < |Serialize(Crc32, r, e)| && Serialize(Crc32, r, e)[k] != x
    ensures Deserialize(Crc32, Serialize(Crc32, r, e)[k := x]).Failed?
  {
    PayloadNonempty(r.current, e);
    OpensSealed(Crc32, EncodePayload(r.current, e));
    CrcDetectsSingleByte();
    DamageKeepsOut(Crc32, Serialize(Crc32, r, e), k, x);
  }

  // ----- runs from stored bytes -----

  lemma AcceptedWellFormed(crc: Checksum, b: seq<Byte>)
    requires Deserialize(crc, b).Registry?
    ensures WellFormed(Deserialize(crc, b).state.current) && IdsInStep(Deserialize(crc, b).state)
  {
    DecodedWellFormed(Open(crc, b).payload);
  }

  /** Every snapshot of every run from any bytes the reader accepts is well formed, and honest about provenance once mutated. */
  lemma RunFromBytes(crc: Checksum, b: seq<Byte>, es: seq<Event>)
    requires Deserialize(crc, b).Registry?
    ensures var start := Deserialize(crc, b).state; var r := Run(Propose, start, es);
      WellFormed(r.current) && IdsInStep(r) && (r.current == start.current || Honest(r.current))
  {
    AcceptedWellFormed(crc, b);
    MutatorsSound();
    var start := Deserialize(crc, b).state;
    RunWellFormed(Propose, start, es);
    RunIdsInStep(Propose, start, es);
    RunHonest(Propose, start, es);
  }
}
