/** SunSpec discovery: the common model (model 1 of the SunSpec Information Model
    Specification) behind the "SunS" marker, read by the Modbus client and, in a
    simpler way, by the `detect_device` probe. */
module SunSpec {
  import opened Common
  import opened Bytes
  import opened Registers

  /** Holding registers of a connected device: address and count to bytes, or an error. */
  type Device = (word, word) -> Option<seq<byte>>

  datatype Info = Info(manufacturer: seq<byte>, model: seq<byte>, serial: seq<byte>, version: seq<byte>, base: word)

  /** What trying one base address says. `Nothing` and `Failed` both make discovery move on. */
  datatype Attempt = Known(info: Info) | Nothing | Failed

  const SUN: word := 0x5375
  const SPEC: word := 0x6E53
  const COMMON_MODEL: word := 1
  const BASES: seq<word> := [40000, 50000]
  const PADDING: set<byte> := {NUL, SPACE}

  /** A field as the client reads it: up to the first NUL, then without trailing padding. */
  function FieldText(bytes: seq<byte>): seq<byte> {
    TrimRight(UpToNul(bytes), PADDING)
  }

  function InfoOf(regs: seq<word>, base: word): Info
    requires |regs| >= 64
  {
    Info(FieldText(Pack(regs[0..16])), FieldText(Pack(regs[16..32])),
         FieldText(Pack(regs[48..64])), FieldText(Pack(regs[40..48])), base)
  }

  function Read(device: Device, addr: int, count: word): Option<seq<word>> {
    match device(addr % 0x1_0000, count)
    case None => None
    case Some(data) => Some(Unpack(data))
  }

  predicate Blank(info: Info) {
    info.manufacturer == [] && info.model == [] && info.serial == []
  }

  /** A valid, non-blank common model is readable at `base`: the marker, model id 1, a length of
      at least 64, and 64 registers of content. */
  predicate CommonModelAt(device: Device, base: word) {
    var marker, header, content := Read(device, base, 2), Read(device, base + 2, 2), Read(device, base + 4, 64);
    && marker.Some? && |marker.value| >= 2 && marker.value[..2] == [SUN, SPEC]
    && header.Some? && |header.value| >= 2 && header.value[0] == COMMON_MODEL && header.value[1] >= 64
    && content.Some? && |content.value| >= 64 && !Blank(InfoOf(content.value, base))
  }

  function InfoAt(device: Device, base: word): Info
    requires CommonModelAt(device, base)
  {
    InfoOf(Read(device, base + 4, 64).value, base)
  }

  method ReadWords(device: Device, addr: int, count: word) returns (regs: Option<seq<word>>)
    ensures regs == Read(device, addr, count)
  {
    var data := device(addr % 0x1_0000, count);
    if data.None? { return None; }
    var words := BytesToRegisters(data.value);
    regs := Some(words[..]);
  }

  method Field(regs: seq<word>) returns (text: seq<byte>)
    ensures text == FieldText(Pack(regs))
  {
    var cut := DecodeString(regs);
    text := TrimRight(cut, PADDING);
  }

  method TryBase(device: Device, base: word) returns (a: Attempt)
    ensures a.Known? <==> CommonModelAt(device, base)
    ensures a.Known? ==> a.info == InfoAt(device, base)
  {
    hide Read, FieldText;
    var marker := ReadWords(device, base, 2);
    if marker.None? { return Failed; }
    if |marker.value| < 2 || marker.value[0] != SUN || marker.value[1] != SPEC { return Nothing; }

    var header := ReadWords(device, base + 2, 2);
    if header.None? { return Failed; }
    if |header.value| < 2 { return Nothing; }
    var modelID, modelLen := header.value[0], header.value[1];
    if modelID != COMMON_MODEL { return Failed; }
    if modelLen < 64 { return Failed; }

    var length: int, readLen: int := modelLen, 64;
    if length < readLen { readLen := length; }
    var content := ReadWords(device, base + 4, readLen);
    if content.None? { return Failed; }
    var regs := content.value;
    if |regs| < readLen { return Failed; }

    var manufacturer := Field(regs[0..16]);
    var model := Field(regs[16..32]);
    var version := Field(regs[40..48]);
    var serial := Field(regs[48..64]);
    if manufacturer == [] && model == [] && serial == [] { return Nothing; }
    a := Known(Info(manufacturer, model, serial, version, base));
  }

  /** The first listed base with a valid, non-blank common model. */
  ghost predicate Discovered(device: Device, r: Option<Info>) {
    match r
    case None => forall k :: 0 <= k < |BASES| ==> !CommonModelAt(device, BASES[k])
    case Some(info) =>
      (exists k :: 0 <= k < |BASES| && IsFirst(device, k) && info == InfoAt(device, BASES[k]))
  }

  ghost predicate IsFirst(device: Device, k: nat)
    requires k < |BASES|
  {
    CommonModelAt(device, BASES[k]) && forall i :: 0 <= i < k ==> !CommonModelAt(device, BASES[i])
  }

  method Discover(device: Device) returns (r: Option<Info>)
    ensures Discovered(device, r)
  {
    hide CommonModelAt, InfoAt, Read;
    for k := 0 to |BASES|
      invariant forall i :: 0 <= i < k ==> !CommonModelAt(device, BASES[i])
    {
      var a := TryBase(device, BASES[k]);
      if a.Known? {
        assert IsFirst(device, k);
        return Some(a.info);
      }
    }
    r := None;
  }

  lemma DiscoveredUnique(device: Device, r: Option<Info>, q: Option<Info>)
    requires Discovered(device, r) && Discovered(device, q)
    ensures r == q
  {
    hide CommonModelAt, InfoAt, Read;
    if r.Some? && q.Some? {
      var i :| 0 <= i < |BASES| && IsFirst(device, i) && r.value == InfoAt(device, BASES[i]);
      var k :| 0 <= k < |BASES| && IsFirst(device, k) && q.value == InfoAt(device, BASES[k]);
      assert i == k;
    }
  }

  // ---- fields ----

  /** A padded field reads back as the text that was put in exactly when that text has no
      NUL and does not end in a space. */
  lemma FieldRoundTrip(text: seq<byte>, padding: seq<byte>)
    requires AllIn(padding, PADDING)
    ensures FieldText(text + padding) == text <==> NUL !in text && (text == [] || text[|text| - 1] != SPACE)
  {
    var bytes := text + padding;
    var cut := UpToNul(bytes);
    var read := TrimRight(cut, PADDING);
    assert forall i :: 0 <= i < |text| ==> bytes[i] == text[i];
    if NUL !in text && (text == [] || text[|text| - 1] != SPACE) {
      assert text <= cut;
      assert cut == bytes[..|cut|];
      forall i | 0 <= i < |cut[|text|..]| ensures cut[|text|..][i] in PADDING {
        assert cut[|text|..][i] == bytes[|text| + i] == padding[i];
      }
      TrimRightUnique(cut, text, PADDING);
    }
  }

  ghost predicate NulPadded(bytes: seq<byte>) {
    AllIn(bytes[|UpToNul(bytes)|..], PADDING)
  }

  /** The probe trims padding without looking for a NUL first. Both readings of a field are the
      same exactly when nothing but padding follows its first NUL. */
  lemma ReadingsAgree(bytes: seq<byte>)
    ensures FieldText(bytes) == TrimRight(bytes, PADDING) <==> NulPadded(bytes)
  {
    var cut := UpToNul(bytes);
    var read := TrimRight(cut, PADDING);
    var full := TrimRight(bytes, PADDING);
    var tail := bytes[|cut|..];
    assert forall i :: |cut| <= i < |bytes| ==> bytes[i] == tail[i - |cut|];
    if AllIn(tail, PADDING) {
      forall i | 0 <= i < |bytes[|read|..]| ensures bytes[|read|..][i] in PADDING {
        if |read| + i < |cut| { assert bytes[|read| + i] == cut[|read| + i]; }
      }
      assert read <= bytes;
      TrimRightUnique(bytes, read, PADDING);
    }
  }

  /** Some byte before the first NUL is not a space. */
  ghost predicate SaysSomething(bytes: seq<byte>) {
    exists k :: 0 <= k < |bytes| && NUL !in bytes[..k + 1] && bytes[k] != SPACE
  }

  lemma BlankIff(bytes: seq<byte>)
    ensures FieldText(bytes) != [] <==> SaysSomething(bytes)
  {
    var cut := UpToNul(bytes);
    var read := TrimRight(cut, PADDING);
    if read != [] {
      var k := |read| - 1;
      assert bytes[..k + 1] == cut[..k + 1];
      assert forall i :: 0 <= i < k + 1 ==> cut[..k + 1][i] == cut[i] && cut[i] in cut;
      assert bytes[k] == cut[k] == read[k];
    }
    if SaysSomething(bytes) {
      var k :| 0 <= k < |bytes| && NUL !in bytes[..k + 1] && bytes[k] != SPACE;
      assert forall i :: 0 <= i <= k ==> bytes[i] == bytes[..k + 1][i];
      assert bytes[k] == cut[k];
      assert bytes[..k + 1][k] == bytes[k];
    }
  }

  // ---- writing a common model ----

  /** The bytes of a field, as its length and the padding leave them. */
  ghost predicate FieldHolds(field: seq<word>, text: seq<byte>) {
    |text| <= |Pack(field)| && Pack(field)[..|text|] == text && AllIn(Pack(field)[|text|..], PADDING)
  }

  ghost predicate Clean(text: seq<byte>) {
    NUL !in text && (text == [] || text[|text| - 1] != SPACE)
  }

  lemma FieldHeldIsRead(field: seq<word>, text: seq<byte>)
    requires FieldHolds(field, text) && Clean(text)
    ensures FieldText(Pack(field)) == text
  {
    FieldRoundTrip(text, Pack(field)[|text|..]);
    assert Pack(field) == text + Pack(field)[|text|..];
  }

  /** Register memory of which only some addresses can be read. */
  function DeviceOf(memory: map<int, word>): Device {
    (addr: word, count: word) =>
      if forall i :: addr <= i < addr + count ==> i in memory
      then Some(Pack(Cells(memory, addr, count)))
      else None
  }

  function Cells(memory: map<int, word>, addr: int, count: nat): (r: seq<word>)
    requires forall i :: addr <= i < addr + count ==> i in memory
    ensures |r| == count && forall i :: 0 <= i < count ==> r[i] == memory[addr + i]
  {
    seq<word>(count, i requires 0 <= i < count => memory[addr + i])
  }

  ghost predicate StoredAt(memory: map<int, word>, addr: int, block: seq<word>) {
    forall a :: addr <= a < addr + |block| ==> a in memory && memory[a] == block[a - addr]
  }

  lemma ReadStored(memory: map<int, word>, addr: int, block: seq<word>, offset: nat, count: word)
    requires StoredAt(memory, addr, block)
    requires offset + count <= |block| && 0 <= addr && addr + |block| <= 0x1_0000 && offset < |block|
    ensures Read(DeviceOf(memory), addr + offset, count) == Some(block[offset..offset + count])
  {
    var cells := Cells(memory, addr + offset, count);
    assert cells == block[offset..offset + count];
    UnpackPack(cells);
    assert (addr + offset) % 0x1_0000 == addr + offset;
  }

  lemma ReadMemory(memory: map<int, word>, addr: word, count: word)
    ensures var read := Read(DeviceOf(memory), addr, count);
      && (read.Some? <==> forall i :: addr <= i < addr + count ==> i in memory)
      && (read.Some? ==> read.value == Cells(memory, addr, count))
  {
    hide Pack, Unpack;
    if forall i :: addr <= i < addr + count ==> i in memory {
      UnpackPack(Cells(memory, addr, count));
    }
  }

  lemma CellsSlice(memory: map<int, word>, addr: int, count: nat, from: nat, to: nat)
    requires (forall i :: addr <= i < addr + count ==> i in memory) && from <= to <= count
    ensures Cells(memory, addr, count)[from..to] == Cells(memory, addr + from, to - from)
  {
  }

  lemma ReadsModel(memory: map<int, word>, base: word)
    requires base + 68 <= 0x1_0000
    ensures var device := DeviceOf(memory);
      var marker, header, content := Read(device, base, 2), Read(device, base + 2, 2), Read(device, base + 4, 64);
      && (marker.Some? && header.Some? && content.Some? <==> forall a :: base <= a < base + 68 ==> a in memory)
      && (marker.Some? && header.Some? && content.Some? ==>
            && marker.value == Cells(memory, base, 2) && header.value == Cells(memory, base + 2, 2)
            && content.value == Cells(memory, base + 4, 64))
  {
    hide Read, DeviceOf;
    ReadMemory(memory, base, 2);
    ReadMemory(memory, base + 2, 2);
    ReadMemory(memory, base + 4, 64);
  }

  lemma ContentSays(memory: map<int, word>, base: word)
    requires forall a :: base + 4 <= a < base + 68 ==> a in memory
    ensures !Blank(InfoOf(Cells(memory, base + 4, 64), base)) <==>
      || SaysSomething(Pack(Cells(memory, base + 4, 16)))
      || SaysSomething(Pack(Cells(memory, base + 20, 16)))
      || SaysSomething(Pack(Cells(memory, base + 52, 16)))
  {
    hide FieldText, SaysSomething, Pack, Cells;
    var content := Cells(memory, base + 4, 64);
    CellsSlice(memory, base + 4, 64, 0, 16);
    CellsSlice(memory, base + 4, 64, 16, 32);
    CellsSlice(memory, base + 4, 64, 48, 64);
    BlankIff(Pack(content[0..16]));
    BlankIff(Pack(content[16..32]));
    BlankIff(Pack(content[48..64]));
  }

  /** On any memory: a common model is found at `base` exactly when all of its 68 registers can be read,
      the first four are the marker, model id 1 and a length of at least 64, and manufacturer, model or
      serial number say something. */
  lemma CommonModelIff(memory: map<int, word>, base: word)
    requires base + 68 <= 0x1_0000
    ensures CommonModelAt(DeviceOf(memory), base) <==>
      && (forall a :: base <= a < base + 68 ==> a in memory)
      && Cells(memory, base, 2) == [0x5375, 0x6E53]
      && Cells(memory, base + 2, 2)[0] == 1 && Cells(memory, base + 2, 2)[1] >= 64
      && (|| SaysSomething(Pack(Cells(memory, base + 4, 16)))
          || SaysSomething(Pack(Cells(memory, base + 20, 16)))
          || SaysSomething(Pack(Cells(memory, base + 52, 16))))
  {
    ReadsModel(memory, base);
    hide Read, DeviceOf, InfoOf, Blank, SaysSomething, Pack, Cells;
    if forall a :: base <= a < base + 68 ==> a in memory {
      ContentSays(memory, base);
    }
  }

  /** Nothing is discovered exactly when neither base has a common model; 40000 comes first. */
  lemma DiscoveredWhere(device: Device, r: Option<Info>)
    requires Discovered(device, r)
    ensures r.None? <==> !CommonModelAt(device, 40000) && !CommonModelAt(device, 50000)
    ensures r.Some? && CommonModelAt(device, 40000) ==> r.value == InfoAt(device, 40000)
    ensures r.Some? && !CommonModelAt(device, 40000) ==> r.value == InfoAt(device, 50000)
  {
    hide CommonModelAt, InfoAt, Read;
    assert BASES[0] == 40000 && BASES[1] == 50000;
    if r.Some? {
      var k :| 0 <= k < |BASES| && IsFirst(device, k) && r.value == InfoAt(device, BASES[k]);
      assert k == 0 || k == 1;
    }
  }

  /** The four text fields, with eight option registers between model and version. */
  ghost predicate WellFormed(options: seq<word>, fields: seq<seq<word>>) {
    |fields| == 4 && |fields[0]| == 16 && |fields[1]| == 16 && |options| == 8 && |fields[2]| == 8 && |fields[3]| == 16
  }

  function Content(options: seq<word>, fields: seq<seq<word>>): (r: seq<word>)
    requires WellFormed(options, fields)
    ensures |r| == 64
    ensures r[0..16] == fields[0] && r[16..32] == fields[1] && r[40..48] == fields[2] && r[48..64] == fields[3]
  {
    fields[0] + fields[1] + options + fields[2] + fields[3]
  }

  function Block(length: word, options: seq<word>, fields: seq<seq<word>>): seq<word>
    requires WellFormed(options, fields)
  {
    [SUN, SPEC, COMMON_MODEL, length] + Content(options, fields)
  }

  lemma ServedReads(memory: map<int, word>, base: word, length: word, options: seq<word>, fields: seq<seq<word>>)
    requires WellFormed(options, fields) && base + 68 <= 0x1_0000
    requires StoredAt(memory, base, Block(length, options, fields))
    ensures var device := DeviceOf(memory);
      && Read(device, base, 2) == Some([SUN, SPEC])
      && Read(device, base + 2, 2) == Some([COMMON_MODEL, length])
      && Read(device, base + 4, 64) == Some(Content(options, fields))
  {
    hide Read, DeviceOf;
    var block := Block(length, options, fields);
    ReadStored(memory, base, block, 0, 2);
    ReadStored(memory, base, block, 2, 2);
    ReadStored(memory, base, block, 4, 64);
    assert block[0..2] == [SUN, SPEC] && block[2..4] == [COMMON_MODEL, length];
    assert block[4..68] == Content(options, fields);
  }

  /** The fields hold the four strings of `info`, each of them readable back. */
  ghost predicate Carries(options: seq<word>, fields: seq<seq<word>>, info: Info) {
    && WellFormed(options, fields)
    && FieldHolds(fields[0], info.manufacturer) && Clean(info.manufacturer)
    && FieldHolds(fields[1], info.model) && Clean(info.model)
    && FieldHolds(fields[2], info.version) && Clean(info.version)
    && FieldHolds(fields[3], info.serial) && Clean(info.serial)
  }

  lemma CarriedInfo(options: seq<word>, fields: seq<seq<word>>, info: Info)
    requires Carries(options, fields, info)
    ensures InfoOf(Content(options, fields), info.base) == info
  {
    hide FieldText, Content;
    FieldHeldIsRead(fields[0], info.manufacturer);
    FieldHeldIsRead(fields[1], info.model);
    FieldHeldIsRead(fields[2], info.version);
    FieldHeldIsRead(fields[3], info.serial);
  }

  lemma ServedModel(memory: map<int, word>, length: word, options: seq<word>, fields: seq<seq<word>>, info: Info)
    requires info.base + 68 <= 0x1_0000 && length >= 64 && !Blank(info)
    requires Carries(options, fields, info)
    requires StoredAt(memory, info.base, Block(length, options, fields))
    ensures CommonModelAt(DeviceOf(memory), info.base)
    ensures InfoAt(DeviceOf(memory), info.base) == info
  {
    hide Read, DeviceOf, InfoOf, Content, FieldHolds, Clean;
    ServedReads(memory, info.base, length, options, fields);
    CarriedInfo(options, fields, info);
  }

  /** Whatever else the device's memory holds, discovery returns the four strings that were
      written at a listed base, if no earlier base serves a common model. */
  lemma DiscoverServed(memory: map<int, word>, k: nat, length: word, options: seq<word>, fields: seq<seq<word>>,
                       info: Info, r: Option<Info>)
    requires k < |BASES| && info.base == BASES[k] && length >= 64 && !Blank(info)
    requires Carries(options, fields, info)
    requires StoredAt(memory, info.base, Block(length, options, fields))
    requires forall i :: 0 <= i < k ==> !CommonModelAt(DeviceOf(memory), BASES[i])
    requires Discovered(DeviceOf(memory), r)
    ensures r == Some(info)
  {
    hide CommonModelAt, InfoAt, Read, DeviceOf;
    ServedModel(memory, length, options, fields, info);
    assert IsFirst(DeviceOf(memory), k);
    assert Discovered(DeviceOf(memory), Some(info));
    DiscoveredUnique(DeviceOf(memory), r, Some(info));
  }

  // ---- the detect_device probe ----

  datatype Detection = PortClosed | ConnectFailed | ReadFailed
    | Detected(sunSpec: bool, vendor: Option<seq<byte>>, model: Option<seq<byte>>)

  function ProbedField(device: Device, addr: int): Option<seq<byte>> {
    match Read(device, addr, 16)
    case None => None
    case Some(regs) => Some(TrimRight(Pack(regs), PADDING))
  }

  method ProbeField(device: Device, addr: int) returns (text: Option<seq<byte>>)
    ensures text == ProbedField(device, addr)
  {
    var regs := ReadWords(device, addr, 16);
    if regs.None? { return None; }
    var b: seq<byte> := [];
    for i := 0 to |regs.value|
      invariant b == Pack(regs.value[..i])
    {
      b := b + [regs.value[i] / 256, regs.value[i] % 256];
      assert regs.value[..i + 1] == regs.value[..i] + [regs.value[i]];
      assert b == Pack(regs.value[..i + 1]);
    }
    assert regs.value[..|regs.value|] == regs.value;
    text := Some(TrimRight(b, PADDING));
  }

  method DetectDevice(portOpen: bool, connected: bool, device: Device) returns (d: Detection)
    ensures d.Detected? <==> portOpen && connected && Read(device, 40000, 2).Some?
    ensures d.Detected? ==>
      && d.sunSpec == (|Read(device, 40000, 2).value| >= 2 && Read(device, 40000, 2).value[..2] == [SUN, SPEC])
      && d.vendor == (if d.sunSpec then ProbedField(device, 40004) else None)
      && d.model == (if d.sunSpec then ProbedField(device, 40020) else None)
  {
    if !portOpen { return PortClosed; }
    if !connected { return ConnectFailed; }
    var values := ReadWords(device, 40000, 2);
    if values.None? { return ReadFailed; }
    var sunSpec := |values.value| >= 2 && values.value[0] == SUN && values.value[1] == SPEC;
    var vendor, model := None, None;
    if sunSpec {
      vendor := ProbeField(device, 40004);
      model := ProbeField(device, 40020);
    }
    d := Detected(sunSpec, vendor, model);
  }

  /** On a device that serves a common model at 40000, the probe's vendor and model are the
      client's exactly when neither field has text after a NUL. */
  lemma DetectAgrees(memory: map<int, word>, length: word, options: seq<word>, fields: seq<seq<word>>)
    requires WellFormed(options, fields) && StoredAt(memory, 40000, Block(length, options, fields))
    ensures var device, info := DeviceOf(memory), InfoOf(Content(options, fields), 40000);
      && (ProbedField(device, 40004) == Some(info.manufacturer) <==> NulPadded(Pack(fields[0])))
      && (ProbedField(device, 40020) == Some(info.model) <==> NulPadded(Pack(fields[1])))
  {
    hide Read, DeviceOf, FieldText, NulPadded, Content;
    var block := Block(length, options, fields);
    ReadStored(memory, 40000, block, 4, 16);
    ReadStored(memory, 40000, block, 20, 16);
    assert block[4..20] == Content(options, fields)[0..16];
    assert block[20..36] == Content(options, fields)[16..32];
    ReadingsAgree(Pack(fields[0]));
    ReadingsAgree(Pack(fields[1]));
  }

  /** A field that begins with the bytes 'A', NUL, 'B' is one on which they differ. */
  lemma DetectDisagrees(memory: map<int, word>, length: word, options: seq<word>, fields: seq<seq<word>>)
    requires WellFormed(options, fields) && StoredAt(memory, 40000, Block(length, options, fields))
    requires fields[0][0] == 0x4100 && fields[0][1] / 256 == 0x42
    ensures ProbedField(DeviceOf(memory), 40004) != Some(InfoOf(Content(options, fields), 40000).manufacturer)
  {
    TextAfterNul(fields[0]);
    hide NulPadded, ProbedField, DeviceOf, InfoOf, Content, Block;
    DetectAgrees(memory, length, options, fields);
  }

  lemma TextAfterNul(field: seq<word>)
    requires |field| >= 2 && field[0] == 0x4100 && field[1] / 256 == 0x42
    ensures !NulPadded(Pack(field))
  {
    var bytes := Pack(field);
    assert bytes[..3] == [0x41, NUL, 0x42];
    UpToNulUnique(bytes, bytes[..1]);
    assert bytes[1..][1] == 0x42;
  }

  lemma HeldIsPadded(field: seq<word>, text: seq<byte>)
    requires FieldHolds(field, text) && Clean(text)
    ensures NulPadded(Pack(field))
  {
    hide Pack;
    var bytes := Pack(field);
    var cut := UpToNul(bytes);
    assert forall k :: 0 <= k < |text| ==> bytes[k] == text[k] && text[k] in text;
    assert |text| <= |cut|;
    forall i | 0 <= i < |bytes[|cut|..]| ensures bytes[|cut|..][i] in PADDING {
      assert bytes[|cut|..][i] == bytes[|text|..][|cut| - |text| + i];
    }
  }

  /** On fields that hold clean texts padded with NULs or spaces, probe and discovery agree. */
  lemma DetectAgreesOnPadded(memory: map<int, word>, length: word, options: seq<word>, fields: seq<seq<word>>,
                             info: Info)
    requires Carries(options, fields, info)
    requires StoredAt(memory, 40000, Block(length, options, fields))
    ensures ProbedField(DeviceOf(memory), 40004) == Some(info.manufacturer)
    ensures ProbedField(DeviceOf(memory), 40020) == Some(info.model)
  {
    HeldIsPadded(fields[0], info.manufacturer);
    HeldIsPadded(fields[1], info.model);
    DetectAgrees(memory, length, options, fields);
    hide NulPadded, ProbedField, DeviceOf, Block, FieldHolds, Clean;
    CarriedInfo(options, fields, info.(base := 40000));
    hide InfoOf, Content;
  }
}
