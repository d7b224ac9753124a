/**
 The providers file `caps.dat` and the header generated beside it: both are written from one list, the first is read back
 by walking from record to record.
 */
module Caps {
  import opened Basics
  import opened Bytes

  const CAPS_SIZE_BYTES: nat := 36
  const CAPS_FLAGS: nat := 3
  const CAPS_MAX_QUEUE_SIZE: nat := 16
  const CAPS_MAX_PLAYERS: nat := 256
  const CAPS_BYTES_PER_SECOND: nat := 100000
  const CAPS_LATENCY: nat := 50
  const CAPS_TURNS_IN_TRANSIT: nat := 2
  const VALID_TURNS_PER_SECOND := {4, 6, 8, 10, 12}

  datatype Provider = Provider(id: string, name: string, subtitle: string, turnsPerSecond: int)

  // ----- Validation -----

  predicate IsAscii(s: string) {
    forall i :: 0 <= i < |s| ==> s[i] as int < 128
  }

  predicate ValidId(id: string) {
    |id| == 4 && IsAscii(id)
  }

  predicate ValidProvider(p: Provider) {
    ValidId(p.id) && p.turnsPerSecond in VALID_TURNS_PER_SECOND
  }

  /** A provider that has passed the checks. */
  type Loaded = p: Provider | ValidProvider(p) witness Provider("CNLK", "", "", 8)

  type PacketSize = n: nat | 128 <= n <= 512 witness 512

  datatype LoadError = NoProviders | BadPacketSize | BadId(index: nat) | BadTurns(index: nat)

  /** The provider at `index` fails a check, and none before it does. */
  predicate FirstAtFault(providers: seq<Provider>, index: nat) {
    && index < |providers| && !ValidProvider(providers[index])
    && forall i :: 0 <= i < index ==> ValidProvider(providers[i])
  }

  /** The checks made on the providers file, in order; the first failure is reported. */
  method LoadProviders(providers: seq<Provider>, maxPacketSize: int) returns (error: Option<LoadError>)
    ensures error.None? <==>
            && providers != [] && 128 <= maxPacketSize <= 512
            && forall i :: 0 <= i < |providers| ==> ValidProvider(providers[i])
    ensures error == Some(NoProviders) <==> providers == []
    ensures error == Some(BadPacketSize) <==> providers != [] && !(128 <= maxPacketSize <= 512)
    ensures error.Some? && error.value.BadId? ==>
              && FirstAtFault(providers, error.value.index)
              && !ValidId(providers[error.value.index].id)
    ensures error.Some? && error.value.BadTurns? ==>
              && FirstAtFault(providers, error.value.index)
              && ValidId(providers[error.value.index].id)
              && providers[error.value.index].turnsPerSecond !in VALID_TURNS_PER_SECOND
  {
    if providers == [] { return Some(NoProviders); }
    if !(128 <= maxPacketSize <= 512) { return Some(BadPacketSize); }
    for index := 0 to |providers|
      invariant forall i :: 0 <= i < index ==> ValidProvider(providers[i])
    {
      if !ValidId(providers[index].id) { return Some(BadId(index)); }
      if providers[index].turnsPerSecond !in VALID_TURNS_PER_SECOND { return Some(BadTurns(index)); }
    }
    return None;
  }

  // ----- Text -----

  predicate IsLatin1(s: string) {
    forall i :: 0 <= i < |s| ==> s[i] as int < 256
  }

  function Latin1(s: string): (r: seq<byte>)
    requires IsLatin1(s)
    ensures |r| == |s| && forall i :: 0 <= i < |s| ==> r[i] as int == s[i] as int
  {
    seq(|s|, i requires 0 <= i < |s| => s[i] as int as byte)
  }

  function FromLatin1(s: seq<byte>): (r: string)
    ensures |r| == |s| && forall i :: 0 <= i < |s| ==> r[i] as int == s[i] as int
  {
    seq(|s|, i requires 0 <= i < |s| => s[i] as int as char)
  }

  const OPENING := "Version: "

  /** The control characters turn the text green and back. */
  const MIDDLE := "\n\U{04}Peer to peer networking using ICE\n\U{01}"

  function Description(version: string, subtitle: string): string {
    OPENING + version + MIDDLE + subtitle + "\n"
  }

  /** The text can be written: it fits Latin-1 and holds no terminator. */
  predicate Writable(s: string) {
    IsLatin1(s) && forall i :: 0 <= i < |s| ==> s[i] != '\0'
  }

  // ----- Writing -----

  /** The id as a number: the first character is the most significant byte. */
  function ProviderId(id: string): nat
    requires |id| == 4 && IsAscii(id)
  {
    DecodeBE(Latin1(id))
  }

  function CapsFields(maxPacketSize: PacketSize, turnsPerSecond: nat): seq<nat> {
    [CAPS_SIZE_BYTES, CAPS_FLAGS, maxPacketSize, CAPS_MAX_QUEUE_SIZE, CAPS_MAX_PLAYERS, CAPS_BYTES_PER_SECOND, CAPS_LATENCY,
     turnsPerSecond, CAPS_TURNS_IN_TRANSIT]
  }

  function PackFields(fields: seq<nat>): (r: seq<byte>)
    ensures |r| == 4 * |fields|
  {
    if fields == [] then [] else EncodeLE(fields[0], 4) + PackFields(fields[1..])
  }

  /** The texts can be encoded, and the record's size fits its field. Otherwise the script stops with an error. */
  predicate Buildable(p: Loaded, version: string) {
    && IsLatin1(p.name) && IsLatin1(Description(version, p.subtitle))
    && RecordSize(p, version) < Pow256(4)
  }

  /** Its texts hold no NUL. */
  predicate Readable(p: Loaded, version: string) {
    Writable(p.name) && Writable(version) && Writable(p.subtitle)
  }

  function RecordSize(p: Loaded, version: string): nat {
    4 + |p.name| + 1 + |Description(version, p.subtitle)| + 1 + CAPS_SIZE_BYTES
  }

  lemma DescriptionIsWritable(version: string, subtitle: string)
    ensures Writable(Description(version, subtitle)) <==> Writable(version) && Writable(subtitle)
  {
    FixedTextIsWritable();
    WritableParts(OPENING, version);
    WritableParts(OPENING + version, MIDDLE);
    WritableParts(OPENING + version + MIDDLE, subtitle);
    WritableParts(OPENING + version + MIDDLE + subtitle, "\n");
  }

  lemma FixedTextIsWritable()
    ensures Writable(OPENING) && Writable(MIDDLE) && Writable("\n")
  {
  }

  lemma WritableParts(a: string, b: string)
    ensures Writable(a + b) <==> Writable(a) && Writable(b)
  {
    assert forall i :: 0 <= i < |a| ==> (a + b)[i] == a[i];
    assert forall i :: 0 <= i < |b| ==> (a + b)[|a| + i] == b[i];
  }

  /** A record behind its size field. */
  function EntryBytes(id: nat, name: string, description: string, caps: seq<byte>): (r: seq<byte>)
    requires IsLatin1(name) && IsLatin1(description)
    ensures |r| == 4 + |name| + 1 + |description| + 1 + |caps|
  {
    EncodeLE(id, 4) + (Latin1(name) + [0]) + (Latin1(description) + [0]) + caps
  }

  function Record(p: Loaded, version: string, maxPacketSize: PacketSize): (r: seq<byte>)
    requires Buildable(p, version)
    ensures |r| == 4 + RecordSize(p, version)
  {
    EncodeLE(RecordSize(p, version), 4)
    + EntryBytes(ProviderId(p.id), p.name, Description(version, p.subtitle),
                 PackFields(CapsFields(maxPacketSize, p.turnsPerSecond)))
  }

  function Records(ps: seq<Loaded>, version: string, maxPacketSize: PacketSize): (r: seq<seq<byte>>)
    requires forall p :: p in ps ==> Buildable(p, version)
    ensures |r| == |ps| && forall i :: 0 <= i < |ps| ==> r[i] == Record(ps[i], version, maxPacketSize)
  {
    seq(|ps|, i requires 0 <= i < |ps| => Record(ps[i], version, maxPacketSize))
  }

  function Join(parts: seq<seq<byte>>): seq<byte> {
    if parts == [] then [] else Join(parts[..|parts| - 1]) + parts[|parts| - 1]
  }

  function Blob(ps: seq<Loaded>, version: string, maxPacketSize: PacketSize): seq<byte>
    requires forall p :: p in ps ==> Buildable(p, version)
  {
    Join(Records(ps, version, maxPacketSize))
  }

  method BuildRecord(p: Loaded, version: string, maxPacketSize: PacketSize) returns (record: seq<byte>)
    requires Buildable(p, version)
    ensures record == Record(p, version, maxPacketSize)
  {
    var nameBytes := Latin1(p.name);
    var descriptionBytes := Latin1(Description(version, p.subtitle));
    var capsBytes := PackFields(CapsFields(maxPacketSize, p.turnsPerSecond));
    var size := 4 + |nameBytes| + 1 + |descriptionBytes| + 1 + |capsBytes|;
    record := EncodeLE(size, 4) + EncodeLE(ProviderId(p.id), 4);
    record := record + (nameBytes + [0]);
    record := record + (descriptionBytes + [0]);
    record := record + capsBytes;
  }

  /** The whole file, or None if a text cannot be encoded or a size does not fit. */
  method BuildCapsDat(ps: seq<Loaded>, version: string, maxPacketSize: PacketSize) returns (blob: Option<seq<byte>>)
    ensures blob.Some? <==> forall p :: p in ps ==> Buildable(p, version)
    ensures blob.Some? ==> blob.value == Blob(ps, version, maxPacketSize)
  {
    var written := [];
    for i := 0 to |ps|
      invariant forall p :: p in ps[..i] ==> Buildable(p, version)
      invariant written == Blob(ps[..i], version, maxPacketSize)
    {
      if !Buildable(ps[i], version) { return None; }
      BlobGrows(ps, i, version, maxPacketSize);
      var record := BuildRecord(ps[i], version, maxPacketSize);
      written := written + record;
    }
    assert ps[..|ps|] == ps;
    return Some(written);
  }

  lemma BlobGrows(ps: seq<Loaded>, i: nat, version: string, maxPacketSize: PacketSize)
    requires i < |ps| && Buildable(ps[i], version) && forall p :: p in ps[..i] ==> Buildable(p, version)
    ensures forall p :: p in ps[..i + 1] ==> Buildable(p, version)
    ensures Blob(ps[..i + 1], version, maxPacketSize)
         == Blob(ps[..i], version, maxPacketSize) + Record(ps[i], version, maxPacketSize)
  {
    assert ps[..i + 1] == ps[..i] + [ps[i]];
    assert Records(ps[..i + 1], version, maxPacketSize)[..i] == Records(ps[..i], version, maxPacketSize);
  }

  // ----- Reading back -----

  datatype Entry = Entry(id: nat, name: string, description: string, caps: seq<nat>)

  /** The bytes before the first NUL, or None if there is none. */
  function UpToNul(s: seq<byte>): (r: Option<seq<byte>>)
    ensures r.Some? ==> |r.value| < |s|
  {
    if s == [] then None
    else if s[0] == 0 then Some([])
    else match UpToNul(s[1..]) case None => None case Some(rest) => Some([s[0]] + rest)
  }

  function UnpackFields(s: seq<byte>): seq<nat> {
    if |s| < 4 then [] else [DecodeLE(s[..4])] + UnpackFields(s[4..])
  }

  /** One record without its size field: an id, two terminated strings and the caps. */
  function ReadEntry(s: seq<byte>): Option<Entry> {
    if |s| < 4 then None
    else
      match UpToNul(s[4..])
      case None => None
      case Some(name) =>
        var afterName := s[4 + |name| + 1..];
        match UpToNul(afterName)
        case None => None
        case Some(description) =>
          var caps := afterName[|description| + 1..];
          if |caps| != CAPS_SIZE_BYTES then None
          else Some(Entry(DecodeLE(s[..4]), FromLatin1(name), FromLatin1(description), UnpackFields(caps)))
  }

  /** Walks from record to record by the size fields, to the very end. The records are kept without their size fields. */
  function Walk(blob: seq<byte>): Option<seq<seq<byte>>>
    decreases |blob|
  {
    if blob == [] then Some([])
    else if |blob| < 4 || |blob| < 4 + DecodeLE(blob[..4]) then None
    else
      var end := 4 + DecodeLE(blob[..4]);
      match Walk(blob[end..])
      case None => None
      case Some(rest) => Some([blob[4..end]] + rest)
  }

  function ReadEach(records: seq<seq<byte>>): Option<seq<Entry>> {
    if records == [] then Some([])
    else
      match (ReadEntry(records[0]), ReadEach(records[1..]))
      case (Some(entry), Some(rest)) => Some([entry] + rest)
      case _ => None
  }

  function ReadAll(blob: seq<byte>): Option<seq<Entry>> {
    match Walk(blob)
    case None => None
    case Some(records) => ReadEach(records)
  }

  function EntryOf(p: Loaded, version: string, maxPacketSize: PacketSize): Entry {
    Entry(ProviderId(p.id), p.name, Description(version, p.subtitle), CapsFields(maxPacketSize, p.turnsPerSecond))
  }

  function EntriesOf(ps: seq<Loaded>, version: string, maxPacketSize: PacketSize): (r: seq<Entry>)
    ensures |r| == |ps| && forall i :: 0 <= i < |ps| ==> r[i] == EntryOf(ps[i], version, maxPacketSize)
  {
    seq(|ps|, i requires 0 <= i < |ps| => EntryOf(ps[i], version, maxPacketSize))
  }

  lemma Latin1BackAndForth(text: string)
    requires IsLatin1(text)
    ensures FromLatin1(Latin1(text)) == text
  {
    assert forall i :: 0 <= i < |text| ==> FromLatin1(Latin1(text))[i] as int == text[i] as int;
  }

  lemma Latin1First(text: string, rest: seq<byte>)
    requires IsLatin1(text) && text != ""
    ensures Latin1(text) + [0] + rest == [text[0] as int as byte] + (Latin1(text[1..]) + [0] + rest)
  {
    assert Latin1(text) == [text[0] as int as byte] + Latin1(text[1..]);
  }

  lemma UpToNulStep(first: byte, rest: seq<byte>)
    ensures UpToNul([first] + rest) ==
      if first == 0 then Some([]) else match UpToNul(rest) case None => None case Some(r) => Some([first] + r)
  {
    assert ([first] + rest)[1..] == rest;
  }

  lemma {:induction false} NulEndsString(text: string, rest: seq<byte>)
    requires Writable(text)
    ensures UpToNul(Latin1(text) + [0] + rest) == Some(Latin1(text))
  {
    if text != "" {
      NulEndsString(text[1..], rest);
      Latin1First(text, rest);
      assert text[0] as int != '\0' as int;
      UpToNulStep(text[0] as int as byte, Latin1(text[1..]) + [0] + rest);
      assert Latin1(text) == [text[0] as int as byte] + Latin1(text[1..]);
    } else {
      assert Latin1(text) + [0] + rest == [0] + rest;
      UpToNulStep(0, rest);
    }
  }

  lemma {:induction false} FieldsRoundTrip(fields: seq<nat>)
    requires forall i :: 0 <= i < |fields| ==> fields[i] < Pow256(4)
    ensures UnpackFields(PackFields(fields)) == fields
  {
    if fields == [] {
    } else {
      RoundTripLE(fields[0], 4);
      FieldsRoundTrip(fields[1..]);
      var s := PackFields(fields);
      assert s[..4] == EncodeLE(fields[0], 4) && s[4..] == PackFields(fields[1..]);
    }
  }

  lemma Pow256Of4()
    ensures Pow256(4) == 0x1_0000_0000
  {
    assert Pow256(4) == 256 * (256 * (256 * (256 * Pow256(0))));
  }

  /** A NUL inside a text ends it early. */
  lemma {:induction false} NulCutsString(text: string, rest: seq<byte>)
    requires IsLatin1(text) && !Writable(text)
    ensures
      var r := UpToNul(Latin1(text) + [0] + rest);
      r.Some? && |r.value| < |text|
  {
    Latin1First(text, rest);
    UpToNulStep(text[0] as int as byte, Latin1(text[1..]) + [0] + rest);
    if text[0] as int != '\0' as int {
      var i :| 0 <= i < |text| && text[i] == '\0';
      assert text[1..][i - 1] == '\0';
      NulCutsString(text[1..], rest);
    }
  }

  lemma FirstPart(a: seq<byte>, b: seq<byte>)
    ensures (a + b)[..|a|] == a && (a + b)[|a|..] == b
  {
  }

  /** The entry as its reader cuts it up. */
  lemma EntryParts(id: nat, name: string, description: string, caps: seq<byte>)
    requires id < Pow256(4) && IsLatin1(name) && IsLatin1(description)
    ensures
      var s := EntryBytes(id, name, description, caps);
      var afterName := Latin1(description) + [0] + caps;
      && DecodeLE(s[..4]) == id
      && s[4..] == Latin1(name) + [0] + afterName
      && s[4 + |name| + 1..] == afterName
      && afterName[|description| + 1..] == caps
  {
    var s := EntryBytes(id, name, description, caps);
    var afterName := Latin1(description) + [0] + caps;
    RoundTripLE(id, 4);
    EntryShape(EncodeLE(id, 4), Latin1(name) + [0], Latin1(description) + [0], caps);
    FirstPart(EncodeLE(id, 4), Latin1(name) + [0] + afterName);
    FirstPart(EncodeLE(id, 4) + (Latin1(name) + [0]), afterName);
    FirstPart(Latin1(description) + [0], caps);
    assert s == EncodeLE(id, 4) + (Latin1(name) + [0] + afterName);
    assert s == EncodeLE(id, 4) + (Latin1(name) + [0]) + afterName;
  }

  lemma EntryShape(a: seq<byte>, b: seq<byte>, c: seq<byte>, d: seq<byte>)
    ensures a + b + c + d == a + (b + (c + d)) == a + b + (c + d)
  {
  }

  lemma TornName(id: nat, name: string, description: string, caps: seq<byte>)
    requires id < Pow256(4) && IsLatin1(name) && IsLatin1(description) && !Writable(name)
    ensures
      var read := ReadEntry(EntryBytes(id, name, description, caps));
      read.Some? ==> read.value.name != name
  {
    EntryParts(id, name, description, caps);
    NulCutsString(name, Latin1(description) + [0] + caps);
  }

  lemma TornDescription(id: nat, name: string, description: string, caps: seq<byte>)
    requires id < Pow256(4) && Writable(name) && IsLatin1(description) && !Writable(description)
    ensures
      var read := ReadEntry(EntryBytes(id, name, description, caps));
      read.Some? ==> read.value.description != description
  {
    EntryParts(id, name, description, caps);
    NulEndsString(name, Latin1(description) + [0] + caps);
    NulCutsString(description, caps);
  }

  lemma WholeEntry(id: nat, name: string, description: string, caps: seq<byte>)
    requires id < Pow256(4) && Writable(name) && Writable(description) && |caps| == CAPS_SIZE_BYTES
    ensures ReadEntry(EntryBytes(id, name, description, caps)) == Some(Entry(id, name, description, UnpackFields(caps)))
  {
    EntryParts(id, name, description, caps);
    NulEndsString(name, Latin1(description) + [0] + caps);
    NulEndsString(description, caps);
    Latin1BackAndForth(name);
    Latin1BackAndForth(description);
  }

  /** An entry is read back as it was written exactly if neither text holds a NUL. */
  lemma EntryRoundTrip(id: nat, name: string, description: string, caps: seq<byte>)
    requires id < Pow256(4) && IsLatin1(name) && IsLatin1(description) && |caps| == CAPS_SIZE_BYTES
    ensures ReadEntry(EntryBytes(id, name, description, caps)) == Some(Entry(id, name, description, UnpackFields(caps)))
       <==> Writable(name) && Writable(description)
  {
    if !Writable(name) { TornName(id, name, description, caps); }
    else if !Writable(description) { TornDescription(id, name, description, caps); }
    else { WholeEntry(id, name, description, caps); }
  }

  lemma RecordRoundTrip(p: Loaded, version: string, maxPacketSize: PacketSize)
    requires Buildable(p, version)
    ensures
      var r := Record(p, version, maxPacketSize);
      && DecodeLE(r[..4]) == RecordSize(p, version)
      && (ReadEntry(r[4..]) == Some(EntryOf(p, version, maxPacketSize)) <==> Readable(p, version))
  {
    var fields := CapsFields(maxPacketSize, p.turnsPerSecond);
    var description := Description(version, p.subtitle);
    Pow256Of4();
    DescriptionIsWritable(version, p.subtitle);
    BytesBackBE(Latin1(p.id));
    RoundTripLE(RecordSize(p, version), 4);
    FieldsRoundTrip(fields);
    EntryRoundTrip(ProviderId(p.id), p.name, description, PackFields(fields));
    FirstPart(EncodeLE(RecordSize(p, version), 4), EntryBytes(ProviderId(p.id), p.name, description, PackFields(fields)));
  }

  lemma {:induction false} JoinFront(parts: seq<seq<byte>>)
    requires parts != []
    ensures Join(parts) == parts[0] + Join(parts[1..])
  {
    if |parts| == 1 {
    } else {
      var front, last := parts[..|parts| - 1], parts[|parts| - 1];
      JoinFront(front);
      assert front[1..] == parts[1..][..|parts[1..]| - 1] && parts[1..][|parts[1..]| - 1] == last;
      assert Join(parts[1..]) == Join(front[1..]) + last;
      assert parts[0] + Join(front[1..]) + last == parts[0] + (Join(front[1..]) + last);
    }
  }

  /** Walking over one record by its size field leaves the rest. */
  lemma WalkOne(r: seq<byte>, rest: seq<byte>)
    requires |r| >= 4 && DecodeLE(r[..4]) == |r| - 4
    ensures Walk(r + rest) == match Walk(rest) case None => None case Some(rs) => Some([r[4..]] + rs)
  {
    assert (r + rest)[..4] == r[..4];
    assert (r + rest)[4..|r|] == r[4..];
    assert (r + rest)[|r|..] == rest;
  }

  lemma BlobFront(ps: seq<Loaded>, version: string, maxPacketSize: PacketSize)
    requires ps != [] && forall p :: p in ps ==> Buildable(p, version)
    ensures forall p :: p in ps[1..] ==> Buildable(p, version)
    ensures Blob(ps, version, maxPacketSize)
         == Record(ps[0], version, maxPacketSize) + Blob(ps[1..], version, maxPacketSize)
  {
    JoinFront(Records(ps, version, maxPacketSize));
    assert Records(ps, version, maxPacketSize)[1..] == Records(ps[1..], version, maxPacketSize);
  }

  lemma EntriesFront(ps: seq<Loaded>, version: string, maxPacketSize: PacketSize)
    requires ps != []
    ensures EntriesOf(ps, version, maxPacketSize)
         == [EntryOf(ps[0], version, maxPacketSize)] + EntriesOf(ps[1..], version, maxPacketSize)
  {
  }

  lemma SameListParts(x: Option<Entry>, xs: Option<seq<Entry>>, e: Entry, es: seq<Entry>)
    ensures (x == Some(e) && xs == Some(es))
       <==> (x.Some? && xs.Some? && [x.value] + xs.value == [e] + es)
  {
    if x.Some? && xs.Some? && [x.value] + xs.value == [e] + es {
      assert ([x.value] + xs.value)[0] == x.value && ([e] + es)[0] == e;
      assert ([x.value] + xs.value)[1..] == xs.value && ([e] + es)[1..] == es;
    }
  }

  /** The records without their size fields. */
  function Bodies(ps: seq<Loaded>, version: string, maxPacketSize: PacketSize): (r: seq<seq<byte>>)
    requires forall p :: p in ps ==> Buildable(p, version)
    ensures |r| == |ps| && forall i :: 0 <= i < |ps| ==> r[i] == Record(ps[i], version, maxPacketSize)[4..]
  {
    seq(|ps|, i requires 0 <= i < |ps| => Record(ps[i], version, maxPacketSize)[4..])
  }

  lemma BodiesFront(ps: seq<Loaded>, version: string, maxPacketSize: PacketSize)
    requires ps != [] && forall p :: p in ps ==> Buildable(p, version)
    ensures forall p :: p in ps[1..] ==> Buildable(p, version)
    ensures Bodies(ps, version, maxPacketSize)
         == [Record(ps[0], version, maxPacketSize)[4..]] + Bodies(ps[1..], version, maxPacketSize)
  {
  }

  /** Whatever the texts: each record begins where the size before it says, and the last one ends the file. */
  lemma {:induction false} WalkFindsRecords(ps: seq<Loaded>, version: string, maxPacketSize: PacketSize)
    requires forall p :: p in ps ==> Buildable(p, version)
    ensures Walk(Blob(ps, version, maxPacketSize)) == Some(Bodies(ps, version, maxPacketSize))
  {
    if ps == [] {
    } else {
      BlobFront(ps, version, maxPacketSize);
      BodiesFront(ps, version, maxPacketSize);
      RecordRoundTrip(ps[0], version, maxPacketSize);
      WalkFindsRecords(ps[1..], version, maxPacketSize);
      WalkOne(Record(ps[0], version, maxPacketSize), Blob(ps[1..], version, maxPacketSize));
    }
  }

  lemma ReadEachFront(record: seq<byte>, records: seq<seq<byte>>)
    ensures ReadEach([record] + records) ==
      match (ReadEntry(record), ReadEach(records)) case (Some(e), Some(es)) => Some([e] + es) case _ => None
  {
    assert ([record] + records)[1..] == records;
  }

  lemma {:induction false} EachReadBack(ps: seq<Loaded>, version: string, maxPacketSize: PacketSize)
    requires forall p :: p in ps ==> Buildable(p, version)
    ensures ReadEach(Bodies(ps, version, maxPacketSize)) == Some(EntriesOf(ps, version, maxPacketSize))
       <==> forall p :: p in ps ==> Readable(p, version)
  {
    if ps == [] {
    } else {
      BodiesFront(ps, version, maxPacketSize);
      EntriesFront(ps, version, maxPacketSize);
      RecordRoundTrip(ps[0], version, maxPacketSize);
      EachReadBack(ps[1..], version, maxPacketSize);
      var body, bodies := Record(ps[0], version, maxPacketSize)[4..], Bodies(ps[1..], version, maxPacketSize);
      ReadEachFront(body, bodies);
      SameListParts(ReadEntry(body), ReadEach(bodies),
                    EntryOf(ps[0], version, maxPacketSize), EntriesOf(ps[1..], version, maxPacketSize));
      AllReadable(ps, version);
    }
  }

  /** Every entry is read back as it was meant exactly if no text holds a NUL, which the script does not check. */
  lemma CapsDatRoundTrip(ps: seq<Loaded>, version: string, maxPacketSize: PacketSize)
    requires forall p :: p in ps ==> Buildable(p, version)
    ensures ReadAll(Blob(ps, version, maxPacketSize)) == Some(EntriesOf(ps, version, maxPacketSize))
       <==> forall p :: p in ps ==> Readable(p, version)
  {
    WalkFindsRecords(ps, version, maxPacketSize);
    EachReadBack(ps, version, maxPacketSize);
  }

  /** What is read back of each provider, literally. */
  lemma EntryIsExact(ps: seq<Loaded>, version: string, maxPacketSize: PacketSize, k: nat)
    requires k < |ps| && forall p :: p in ps ==> Buildable(p, version) && Readable(p, version)
    ensures
      var entries := ReadAll(Blob(ps, version, maxPacketSize));
      && entries.Some? && |entries.value| == |ps|
      && entries.value[k].name == ps[k].name
      && entries.value[k].description
         == "Version: " + version + "\n\U{04}Peer to peer networking using ICE\n\U{01}" + ps[k].subtitle + "\n"
      && entries.value[k].caps == [36, 3, maxPacketSize, 16, 256, 100000, 50, ps[k].turnsPerSecond, 2]
      && entries.value[k].id == ps[k].id[0] as nat * 0x100_0000 + ps[k].id[1] as nat * 0x1_0000
                                + ps[k].id[2] as nat * 0x100 + ps[k].id[3] as nat
  {
    CapsDatRoundTrip(ps, version, maxPacketSize);
    IdIsExact(ps[k].id);
  }

  /** The id reads like a multi-character constant: the first character is the most significant. */
  lemma IdIsExact(id: string)
    requires |id| == 4 && IsAscii(id)
    ensures ProviderId(id)
         == id[0] as nat * 0x100_0000 + id[1] as nat * 0x1_0000 + id[2] as nat * 0x100 + id[3] as nat
  {
    var s := Latin1(id);
    assert s[..3][..2] == s[..2] && s[..2][..1] == s[..1] && s[..1][..0] == [];
    assert DecodeBE(s[..1]) == s[0] as nat;
    assert DecodeBE(s[..2]) == DecodeBE(s[..1]) * 256 + s[1] as nat;
    assert DecodeBE(s[..3]) == DecodeBE(s[..2]) * 256 + s[2] as nat;
  }

  /** The size and the caps as they lie in the file: unsigned, four bytes each, the lowest first. */
  lemma {:induction false} FieldsAreLittleEndian(fields: seq<nat>, k: nat, i: nat)
    requires k < |fields| && i < 4
    ensures PackFields(fields)[4 * k + i] as nat == fields[k] / Pow256(i) % 256
  {
    var first, rest := EncodeLE(fields[0], 4), PackFields(fields[1..]);
    assert PackFields(fields) == first + rest;
    if k == 0 {
      LowByteFirst(fields[0], 4, i);
    } else {
      FieldsAreLittleEndian(fields[1..], k - 1, i);
      assert (first + rest)[4 * k + i] == rest[4 * (k - 1) + i];
    }
  }

  lemma NulProviderIsBuildable(p: Provider)
    requires p == Provider("CNLK", "Crown\0Link", "", 8)
    ensures ValidProvider(p) && Buildable(p, "1")
  {
    Pow256Of4();
    FixedTextIsWritable();
    assert Writable("1") && Writable("");
    DescriptionIsWritable("1", "");
    assert |OPENING| < 100 && |MIDDLE| < 100;
  }

  /** One provider, accepted by all checks, that is not read back: its name holds a NUL. */
  lemma NulNameIsLost()
    ensures
      var p := Provider("CNLK", "Crown\0Link", "", 8);
      && ValidProvider(p) && Buildable(p, "1")
      && ReadAll(Blob([p], "1", 512)) != Some(EntriesOf([p], "1", 512))
  {
    var p := Provider("CNLK", "Crown\0Link", "", 8);
    NulProviderIsBuildable(p);
    assert p.name[5] == '\0';
    assert p in [p] && !Readable(p, "1");
    assert forall q :: q in [p] ==> q == p;
    CapsDatRoundTrip([p], "1", 512);
  }

  lemma AllReadable(ps: seq<Loaded>, version: string)
    requires ps != []
    ensures (forall p :: p in ps ==> Readable(p, version))
       <==> Readable(ps[0], version) && forall p :: p in ps[1..] ==> Readable(p, version)
  {
    assert ps == [ps[0]] + ps[1..];
  }

  // ----- The header -----

  function HexDigit(d: nat): char
    requires d < 16
  {
    "0123456789ABCDEF"[d]
  }

  function HexText(v: nat, digits: nat): (r: string)
    ensures |r| == digits
  {
    if digits == 0 then "" else HexText(v / 16, digits - 1) + [HexDigit(v % 16)]
  }

  function Constant(id: nat): (r: string)
    ensures |r| == 10
  {
    "0x" + HexText(id, 8)
  }

  function Ids(ps: seq<Loaded>): (r: seq<nat>)
    ensures |r| == |ps| && forall i :: 0 <= i < |ps| ==> r[i] == ProviderId(ps[i].id)
  {
    seq(|ps|, i requires 0 <= i < |ps| => ProviderId(ps[i].id))
  }

  /** The initializer of `provider_ids`: the ids in hexadecimal, with commas between. */
  function RenderIds(ids: seq<nat>): (r: string)
    ensures ids != [] ==> |r| >= 10
  {
    if ids == [] then ""
    else if |ids| == 1 then Constant(ids[0])
    else Constant(ids[0]) + ", " + RenderIds(ids[1..])
  }

  function DigitValue(c: char): Option<nat> {
    if '0' <= c <= '9' then Some(c as int - '0' as int)
    else if 'A' <= c <= 'F' then Some(c as int - 'A' as int + 10)
    else None
  }

  function ReadHex(text: string): Option<nat> {
    if text == "" then Some(0)
    else
      match (ReadHex(text[..|text| - 1]), DigitValue(text[|text| - 1]))
      case (Some(high), Some(low)) => Some(high * 16 + low)
      case _ => None
  }

  /** The values of a list of eight-digit constants, as a compiler reads it. */
  function ReadConstants(text: string): Option<seq<nat>>
    decreases |text|
  {
    if text == "" then Some([])
    else if |text| < 10 || text[..2] != "0x" || (|text| > 10 && (|text| <= 12 || text[10..12] != ", ")) then None
    else
      match (ReadHex(text[2..10]), ReadConstants(if |text| == 10 then "" else text[12..]))
      case (Some(value), Some(rest)) => Some([value] + rest)
      case _ => None
  }

  function Pow16(n: nat): nat {
    if n == 0 then 1 else 16 * Pow16(n - 1)
  }

  lemma DigitBack(d: nat)
    requires d < 16
    ensures DigitValue(HexDigit(d)) == Some(d)
  {
  }

  lemma ReadHexAppend(text: string, c: char, high: nat, low: nat)
    requires ReadHex(text) == Some(high) && DigitValue(c) == Some(low)
    ensures ReadHex(text + [c]) == Some(high * 16 + low)
  {
    assert (text + [c])[..|text|] == text;
  }

  lemma HexStep(v: nat, digits: nat)
    requires digits > 0 && ReadHex(HexText(v / 16, digits - 1)) == Some(v / 16)
    ensures ReadHex(HexText(v, digits)) == Some(v)
  {
    DigitBack(v % 16);
    ReadHexAppend(HexText(v / 16, digits - 1), HexDigit(v % 16), v / 16, v % 16);
  }

  lemma {:induction false} HexRoundTrip(v: nat, digits: nat)
    requires v < Pow16(digits)
    ensures ReadHex(HexText(v, digits)) == Some(v)
  {
    if digits == 0 {
    } else {
      HexRoundTrip(v / 16, digits - 1);
      HexStep(v, digits);
    }
  }

  lemma ConstantFirst(id: nat, rest: string)
    ensures
      var text := Constant(id) + rest;
      text[..2] == "0x" && text[2..10] == HexText(id, 8) && text[10..] == rest
  {
  }

  lemma ReadLastConstant(id: nat)
    requires id < Pow16(8)
    ensures ReadConstants(Constant(id)) == Some([id])
  {
    HexRoundTrip(id, 8);
    ConstantFirst(id, "");
    var text := Constant(id);
    assert text + "" == text && text[2..10] == HexText(id, 8) && text[..2] == "0x";
    assert ReadConstants("") == Some([]);
    assert [id] + [] == [id];
  }

  lemma ReadNextConstant(id: nat, tail: string)
    requires id < Pow16(8) && tail != ""
    ensures ReadConstants(Constant(id) + (", " + tail)) ==
      match ReadConstants(tail) case None => None case Some(rest) => Some([id] + rest)
  {
    var text := Constant(id) + (", " + tail);
    HexRoundTrip(id, 8);
    ConstantFirst(id, ", " + tail);
    assert text[10..12] == text[10..][..2] == ", " && text[12..] == text[10..][2..] == tail;
  }

  /** The constants in the header are the ids. */
  lemma {:induction false} HeaderHoldsIds(ids: seq<nat>)
    requires forall i :: 0 <= i < |ids| ==> ids[i] < Pow16(8)
    ensures ReadConstants(RenderIds(ids)) == Some(ids)
  {
    if |ids| == 1 {
      ReadLastConstant(ids[0]);
      assert ids == [ids[0]];
    } else if ids != [] {
      HeaderHoldsIds(ids[1..]);
      ReadNextConstant(ids[0], RenderIds(ids[1..]));
      assert RenderIds(ids) == Constant(ids[0]) + (", " + RenderIds(ids[1..]));
      assert [ids[0]] + ids[1..] == ids;
    }
  }

  lemma IdsFit(ps: seq<Loaded>)
    ensures forall i :: 0 <= i < |ps| ==> Ids(ps)[i] < Pow16(8)
  {
    Pow256Of4();
    assert Pow16(8) == 16 * (16 * (16 * (16 * Pow16(4)))) && Pow16(4) == 16 * (16 * (16 * (16 * Pow16(0))));
    forall i | 0 <= i < |ps| ensures Ids(ps)[i] < Pow16(8) {
      BytesBackBE(Latin1(ps[i].id));
    }
  }

  /** The ids read from the file and the constants read from the header are the same list. */
  lemma FileAndHeaderAgree(ps: seq<Loaded>, version: string, maxPacketSize: PacketSize, k: nat)
    requires k < |ps| && forall p :: p in ps ==> Buildable(p, version) && Readable(p, version)
    ensures
      var entries := ReadAll(Blob(ps, version, maxPacketSize));
      var constants := ReadConstants(RenderIds(Ids(ps)));
      && entries.Some? && constants.Some? && |entries.value| == |constants.value| == |ps|
      && entries.value[k].id == constants.value[k]
  {
    CapsDatRoundTrip(ps, version, maxPacketSize);
    IdsFit(ps);
    HeaderHoldsIds(Ids(ps));
  }

  /** Different ids stay different as numbers. */
  lemma IdsAreInjective(a: string, b: string)
    requires |a| == |b| == 4 && IsAscii(a) && IsAscii(b) && ProviderId(a) == ProviderId(b)
    ensures a == b
  {
    BytesBackBE(Latin1(a));
    BytesBackBE(Latin1(b));
    assert FromLatin1(Latin1(a)) == a && FromLatin1(Latin1(b)) == b;
  }
}
