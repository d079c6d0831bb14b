/** Read Device Identification (function code 43, MEI type 14): the list of
    id/length/value objects in a response, section 6.21 of the MODBUS Application
    Protocol Specification V1.1b3. */
module DeviceIdentification {
  import opened Common
  import opened Bytes

  datatype Object = Object(id: byte, value: seq<byte>)

  datatype Identification = Identification(
    vendorName: seq<byte>, productCode: seq<byte>, revision: seq<byte>, vendorURL: seq<byte>,
    productName: seq<byte>, modelName: seq<byte>, userAppName: seq<byte>)

  datatype Reply =
    | Identified(id: Identification)
    | TransportFailed
    | NotSupported
    | UnexpectedFunction
    | ResponseTooShort

  const REQUEST_FUNCTION: byte := 0x2B
  const EXCEPTION_FUNCTION: byte := 0xAB
  const HEADER_LENGTH: nat := 6
  const EMPTY: Identification := Identification([], [], [], [], [], [], [])

  // ---- the wire form ----

  ghost predicate Sendable(o: Object) {
    |o.value| < 256
  }

  function Encode(o: Object): seq<byte>
    requires Sendable(o)
  {
    [o.id, |o.value|] + o.value
  }

  function EncodeAll(objects: seq<Object>): seq<byte>
    requires forall o :: o in objects ==> Sendable(o)
  {
    if objects == [] then [] else Encode(objects[0]) + EncodeAll(objects[1..])
  }

  /** What `bytes` holds from `pos` on begins with these objects, each of them complete. */
  ghost predicate BeginsWith(bytes: seq<byte>, pos: nat, objects: seq<Object>)
    requires pos <= |bytes|
  {
    (forall o :: o in objects ==> Sendable(o)) && EncodeAll(objects) <= bytes[pos..]
  }

  // ---- parsing ----

  function ObjectAt(bytes: seq<byte>, pos: nat): (r: Option<Object>)
    ensures r.Some? ==> Sendable(r.value) && pos + 2 + |r.value.value| <= |bytes|
  {
    if pos + 2 <= |bytes| && pos + 2 + bytes[pos + 1] <= |bytes|
    then Some(Object(bytes[pos], bytes[pos + 2..pos + 2 + bytes[pos + 1]]))
    else None
  }

  /** At most `limit` objects, stopping at the first incomplete one. */
  function Objects(bytes: seq<byte>, pos: nat, limit: nat): seq<Object>
    decreases limit
  {
    if limit == 0 then []
    else match ObjectAt(bytes, pos)
      case None => []
      case Some(o) => [o] + Objects(bytes, pos + 2 + |o.value|, limit - 1)
  }

  function Store(id: Identification, o: Object): Identification {
    var text := TrimRight(o.value, {NUL});
    match o.id
    case 0 => id.(vendorName := text)
    case 1 => id.(productCode := text)
    case 2 => id.(revision := text)
    case 3 => id.(vendorURL := text)
    case 4 => id.(productName := text)
    case 5 => id.(modelName := text)
    case 6 => id.(userAppName := text)
    case _ => id
  }

  function StoreAll(id: Identification, objects: seq<Object>): Identification
    decreases |objects|
  {
    if objects == [] then id else StoreAll(Store(id, objects[0]), objects[1..])
  }

  lemma NoMoreObjects(id: Identification, bytes: seq<byte>, pos: nat, limit: nat)
    requires limit == 0 || ObjectAt(bytes, pos).None?
    ensures StoreAll(id, Objects(bytes, pos, limit)) == id
  {
  }

  /** One turn of the parser's loop stores a complete object. */
  lemma NextObject(id: Identification, bytes: seq<byte>, pos: nat, limit: nat, o: Object)
    requires 0 < limit && ObjectAt(bytes, pos) == Some(o)
    ensures StoreAll(id, Objects(bytes, pos, limit)) ==
            StoreAll(Store(id, o), Objects(bytes, pos + 2 + |o.value|, limit - 1))
  {
    assert Objects(bytes, pos, limit)[1..] == Objects(bytes, pos + 2 + |o.value|, limit - 1);
  }

  method SetField(fields: Identification, objID: byte, objValue: seq<byte>) returns (id: Identification)
    ensures id == Store(fields, Object(objID, objValue))
  {
    var value := TrimRight(objValue, {NUL});
    id := fields;
    match objID {
      case 0 => id := id.(vendorName := value);
      case 1 => id := id.(productCode := value);
      case 2 => id := id.(revision := value);
      case 3 => id := id.(vendorURL := value);
      case 4 => id := id.(productName := value);
      case 5 => id := id.(modelName := value);
      case 6 => id := id.(userAppName := value);
      case _ =>
    }
  }

  /** The object loop. */
  method ParseObjects(data: seq<byte>, start: nat, numObjects: nat) returns (id: Identification)
    ensures id == StoreAll(EMPTY, Objects(data, start, numObjects))
  {
    hide Objects, StoreAll, Store;
    id := EMPTY;
    var pos := start;
    var i := 0;
    while i < numObjects && pos + 2 <= |data|
      invariant 0 <= i <= numObjects && start <= pos
      invariant StoreAll(id, Objects(data, pos, numObjects - i)) == StoreAll(EMPTY, Objects(data, start, numObjects))
    {
      var objID, objLen := data[pos], data[pos + 1];
      ghost var at := pos;
      pos := pos + 2;
      if pos + objLen > |data| {
        NoMoreObjects(id, data, at, numObjects - i);
        return;
      }
      var objValue := data[pos..pos + objLen];
      NextObject(id, data, at, numObjects - i, Object(objID, objValue));
      pos := pos + objLen;
      id := SetField(id, objID, objValue);
      i := i + 1;
    }
    NoMoreObjects(id, data, pos, numObjects - i);
  }

  /** The client's parser, over the bytes after the function code. */
  method ReadDeviceIdentification(sent: bool, functionCode: byte, data: seq<byte>) returns (reply: Reply)
    ensures reply ==
      if !sent then TransportFailed
      else if functionCode == EXCEPTION_FUNCTION then NotSupported
      else if functionCode != REQUEST_FUNCTION then UnexpectedFunction
      else if |data| < HEADER_LENGTH then ResponseTooShort
      else Identified(StoreAll(EMPTY, Objects(data, HEADER_LENGTH, data[5])))
  {
    if !sent { return TransportFailed; }
    if functionCode == EXCEPTION_FUNCTION { return NotSupported; }
    if functionCode != REQUEST_FUNCTION { return UnexpectedFunction; }
    if |data| < HEADER_LENGTH { return ResponseTooShort; }
    var id := ParseObjects(data, HEADER_LENGTH, data[5]);
    reply := Identified(id);
  }

  // ---- what the parser consumes ----

  lemma PrefixSplits(a: seq<byte>, b: seq<byte>, s: seq<byte>)
    ensures a + b <= s <==> a <= s && b <= s[|a|..]
  {
    if a + b <= s {
      assert s[|a|..] == (a + b)[|a|..] + s[|a| + |b|..];
    }
  }

  /** An object is complete where its encoding is. */
  lemma ObjectAtIff(bytes: seq<byte>, pos: nat, o: Object)
    requires pos <= |bytes|
    ensures ObjectAt(bytes, pos) == Some(o) <==> Sendable(o) && Encode(o) <= bytes[pos..]
  {
    var tail := bytes[pos..];
    if Sendable(o) && Encode(o) <= tail {
      assert tail[0] == o.id && tail[1] == |o.value|;
      assert bytes[pos + 2..pos + 2 + |o.value|] == tail[2..2 + |o.value|] == o.value;
    }
    if ObjectAt(bytes, pos) == Some(o) {
      assert tail[..2 + |o.value|] == bytes[pos..pos + 2 + |o.value|] == Encode(o);
    }
  }

  lemma {:induction false} EncodeAllCons(bytes: seq<byte>, pos: nat, o: Object, rest: seq<Object>)
    requires pos <= |bytes|
    ensures BeginsWith(bytes, pos, [o] + rest) <==>
      ObjectAt(bytes, pos) == Some(o) && BeginsWith(bytes, pos + 2 + |o.value|, rest)
  {
    var objects := [o] + rest;
    assert objects[1..] == rest;
    assert forall x :: x in objects <==> x == o || x in rest;
    ObjectAtIff(bytes, pos, o);
    if Sendable(o) && forall x :: x in rest ==> Sendable(x) {
      assert EncodeAll(objects) == Encode(o) + EncodeAll(rest);
      PrefixSplits(Encode(o), EncodeAll(rest), bytes[pos..]);
      if pos + 2 + |o.value| <= |bytes| {
        assert bytes[pos..][2 + |o.value|..] == bytes[pos + 2 + |o.value|..];
      }
    }
  }

  lemma {:induction false} RunsArePrefixes(bytes: seq<byte>, pos: nat, limit: nat, objects: seq<Object>)
    requires pos <= |bytes| && |objects| <= limit && BeginsWith(bytes, pos, objects)
    ensures objects <= Objects(bytes, pos, limit)
    decreases limit
  {
    if objects != [] {
      var o, rest := objects[0], objects[1..];
      assert objects == [o] + rest;
      EncodeAllCons(bytes, pos, o, rest);
      RunsArePrefixes(bytes, pos + 2 + |o.value|, limit - 1, rest);
    }
  }

  lemma {:induction false} PrefixesAreRuns(bytes: seq<byte>, pos: nat, limit: nat, objects: seq<Object>)
    requires pos <= |bytes| && objects <= Objects(bytes, pos, limit)
    ensures |objects| <= limit && BeginsWith(bytes, pos, objects)
    decreases limit
  {
    if objects != [] {
      var o, rest := objects[0], objects[1..];
      assert objects == [o] + rest;
      var next := pos + 2 + |o.value|;
      assert Objects(bytes, pos, limit) == [o] + Objects(bytes, next, limit - 1);
      assert rest <= Objects(bytes, next, limit - 1) by {
        assert Objects(bytes, pos, limit)[1..] == Objects(bytes, next, limit - 1);
      }
      PrefixesAreRuns(bytes, next, limit - 1, rest);
      EncodeAllCons(bytes, pos, o, rest);
    }
  }

  /** The parser takes the longest run of complete objects there is, up to the limit: the runs
      present are exactly the prefixes of what it takes. */
  lemma LongestRun(bytes: seq<byte>, pos: nat, limit: nat, objects: seq<Object>)
    requires pos <= |bytes|
    ensures |Objects(bytes, pos, limit)| <= limit && BeginsWith(bytes, pos, Objects(bytes, pos, limit))
    ensures |objects| <= limit && BeginsWith(bytes, pos, objects) <==> objects <= Objects(bytes, pos, limit)
  {
    PrefixesAreRuns(bytes, pos, limit, Objects(bytes, pos, limit));
    if objects <= Objects(bytes, pos, limit) {
      PrefixesAreRuns(bytes, pos, limit, objects);
    }
    if |objects| <= limit && BeginsWith(bytes, pos, objects) {
      RunsArePrefixes(bytes, pos, limit, objects);
    }
  }

  // ---- what the fields say ----

  /** The text of the last object with this id, trailing NULs removed; empty if there is none. */
  function LastText(objects: seq<Object>, id: byte): seq<byte> {
    if objects == [] then []
    else if objects[|objects| - 1].id == id then TrimRight(objects[|objects| - 1].value, {NUL})
    else LastText(objects[..|objects| - 1], id)
  }

  function Fields(objects: seq<Object>): Identification {
    Identification(LastText(objects, 0), LastText(objects, 1), LastText(objects, 2), LastText(objects, 3),
                   LastText(objects, 4), LastText(objects, 5), LastText(objects, 6))
  }

  lemma {:induction false} StoreAllSnoc(id: Identification, objects: seq<Object>, o: Object)
    ensures StoreAll(id, objects + [o]) == Store(StoreAll(id, objects), o)
    decreases |objects|
  {
    if objects == [] {
      assert ([] + [o])[1..] == [];
    } else {
      StoreAllSnoc(Store(id, objects[0]), objects[1..], o);
      assert (objects + [o])[1..] == objects[1..] + [o];
    }
  }

  lemma {:induction false} LastValueWins(objects: seq<Object>)
    ensures StoreAll(EMPTY, objects) == Fields(objects)
  {
    if objects != [] {
      var front, o := objects[..|objects| - 1], objects[|objects| - 1];
      assert objects == front + [o];
      LastValueWins(front);
      StoreAllSnoc(EMPTY, front, o);
    }
  }

  // ---- round trip and truncation ----

  /** The response a server sends: five header bytes, the object count, the objects. */
  function Response(header: seq<byte>, objects: seq<Object>): seq<byte>
    requires |header| == 5 && |objects| < 256
    requires forall o :: o in objects ==> Sendable(o)
  {
    header + [|objects|] + EncodeAll(objects)
  }

  /** Reading a response back gives, per id, the last value sent; trailing bytes are ignored. */
  lemma RoundTrip(header: seq<byte>, objects: seq<Object>, trailing: seq<byte>)
    requires |header| == 5 && |objects| < 256
    requires forall o :: o in objects ==> Sendable(o)
    ensures var data := Response(header, objects) + trailing;
      && Objects(data, HEADER_LENGTH, data[5]) == objects
      && StoreAll(EMPTY, Objects(data, HEADER_LENGTH, data[5])) == Fields(objects)
  {
    var data := Response(header, objects) + trailing;
    assert data[6..] == EncodeAll(objects) + trailing;
    assert BeginsWith(data, 6, objects);
    LongestRun(data, 6, |objects|, objects);
    LastValueWins(objects);
  }

  /** A response cut short after its header yields the fields of a prefix of its object list,
      namely of the longest prefix that fits into what is left. */
  lemma Truncated(data: seq<byte>, cut: nat)
    requires HEADER_LENGTH <= cut <= |data|
    ensures var kept, all := Objects(data[..cut], HEADER_LENGTH, data[5]), Objects(data, HEADER_LENGTH, data[5]);
      && kept <= all
      && StoreAll(EMPTY, kept) == Fields(kept)
      && (forall objects :: objects <= all && BeginsWith(data[..cut], HEADER_LENGTH, objects) ==> objects <= kept)
  {
    var kept, all := Objects(data[..cut], HEADER_LENGTH, data[5]), Objects(data, HEADER_LENGTH, data[5]);
    LongestRun(data[..cut], HEADER_LENGTH, data[5], kept);
    assert data[..cut][HEADER_LENGTH..] <= data[HEADER_LENGTH..];
    assert BeginsWith(data, HEADER_LENGTH, kept);
    LongestRun(data, HEADER_LENGTH, data[5], kept);
    LastValueWins(kept);
    forall objects | objects <= all && BeginsWith(data[..cut], HEADER_LENGTH, objects) ensures objects <= kept {
      LongestRun(data[..cut], HEADER_LENGTH, data[5], objects);
    }
  }
}
