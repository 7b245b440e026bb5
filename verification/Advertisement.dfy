/**
 The advertisement codec (advertisement.cc, advertisement_capabilities.cc): a bit-packed
 header byte, salt and key, an optional length-prefixed device name, and a tail of
 type-length-value elements.
 */
module AdvertisementCodec {
  import opened Wrappers

  newtype byte = x: int | 0 <= x < 256

  const SALT_SIZE := 2
  const KEY_SIZE := 14
  const MINIMUM_SIZE := 1 + SALT_SIZE + KEY_SIZE

  const QR_CODE: byte := 1
  const VENDOR_ID: byte := 2
  const CAPABILITIES: byte := 3

  datatype Capability = Invalid | FileSync

  // `version` and `deviceType` stand for the low bits that the header keeps of them.
  datatype Advertisement = Advertisement(
    version: bv8, salt: seq<byte>, key: seq<byte>, deviceType: bv8,
    deviceName: Option<seq<byte>>, vendorId: byte, capabilities: seq<Capability>)

  // The header byte -----------------------------------------------------------------

  function ConvertVersion(version: bv8): bv8 { (version & 0x7) << 5 }

  function ConvertHasDeviceName(hasDeviceName: bool): bv8 { if hasDeviceName then 0 else 1 << 4 }

  function ConvertDeviceType(deviceType: bv8): bv8 { (deviceType & 0x7) << 1 }

  function HeaderBits(version: bv8, hasDeviceName: bool, deviceType: bv8): bv8 {
    ConvertVersion(version) | ConvertHasDeviceName(hasDeviceName) | ConvertDeviceType(deviceType)
  }

  function ParseVersion(b: bv8): bv8 { (b >> 5) & 0x7 }

  predicate ParseHasDeviceName(b: bv8) { (b >> 4) & 0x1 == 0 }

  predicate IsKnownDeviceValue(value: bv8) { value <= 6 }

  function ParseDeviceType(b: bv8): bv8 {
    var value := (b >> 1) & 0x7;
    if IsKnownDeviceValue(value) then value else 0
  }

  // The three header fields do not overlap: each is read back as it was packed, but for the one
  // device type that is not known.
  lemma HeaderFields(version: bv8, named: bool, deviceType: bv8)
    ensures var b := HeaderBits(version, named, deviceType);
            && ParseVersion(b) == version & 0x7
            && ParseHasDeviceName(b) == named
            && ParseDeviceType(b) == if deviceType & 0x7 == 7 then 0 else deviceType & 0x7
  {
  }

  lemma ByteBits(b: bv8)
    ensures (b as byte) as bv8 == b
  {
  }

  // Capabilities --------------------------------------------------------------------

  function ParseCapabilities(data: seq<byte>): seq<Capability> {
    if data == [] then []
    else (if data[0] == 1 then [FileSync] else []) + ParseCapabilities(data[1..])
  }

  // One byte with a bit for every capability present; no byte when there is none.
  function CapabilityBytes(capabilities: seq<Capability>): seq<byte> {
    if FileSync in capabilities then [1] else []
  }

  method ParseCapabilitiesLoop(data: seq<byte>) returns (capabilities: seq<Capability>)
    ensures capabilities == ParseCapabilities(data)
  {
    capabilities := [];
    var i := 0;
    while i < |data|
      invariant 0 <= i <= |data|
      invariant capabilities + ParseCapabilities(data[i..]) == ParseCapabilities(data)
    {
      if data[i] == 1 {
        capabilities := capabilities + [FileSync];
      }
      assert data[i..][1..] == data[i + 1..];
      i := i + 1;
    }
  }

  method CapabilitiesToBytes(capabilities: seq<Capability>) returns (bytes: seq<byte>)
    ensures bytes == CapabilityBytes(capabilities)
  {
    bytes := [];
    var i := 0;
    while i < |capabilities|
      invariant 0 <= i <= |capabilities|
      invariant bytes == CapabilityBytes(capabilities[..i])
    {
      if capabilities[i] == FileSync {
        if bytes == [] {
          bytes := [0];
        }
        bytes := bytes[0 := (bytes[0] as bv8 | 1) as byte];
      }
      assert capabilities[..i + 1] == capabilities[..i] + [capabilities[i]];
      i := i + 1;
    }
    assert capabilities[..i] == capabilities;
  }

  // Printing ------------------------------------------------------------------------

  function NameBytes(name: Option<seq<byte>>): seq<byte>
    requires name.Some? ==> |name.value| <= 255
  {
    if name.None? then [] else [|name.value| as byte] + name.value
  }

  function VendorElement(vendorId: byte): seq<byte> {
    if vendorId == 0 then [] else [VENDOR_ID, 1, vendorId]
  }

  function CapabilitiesElement(capabilities: seq<Capability>): seq<byte> {
    var data := CapabilityBytes(capabilities);
    if data == [] then [] else [CAPABILITIES, |data| as byte] + data
  }

  function Tail(a: Advertisement): seq<byte> {
    VendorElement(a.vendorId) + CapabilitiesElement(a.capabilities)
  }

  // What NewInstance checks.
  predicate WellSized(a: Advertisement) {
    |a.salt| == SALT_SIZE && |a.key| == KEY_SIZE && (a.deviceName.Some? ==> |a.deviceName.value| <= 255)
  }

  function Header(a: Advertisement): byte {
    HeaderBits(a.version, a.deviceName.Some?, a.deviceType) as byte
  }

  function Print(a: Advertisement): seq<byte>
    requires WellSized(a)
  {
    [Header(a)] + a.salt + a.key + NameBytes(a.deviceName) + Tail(a)
  }

  method ToEndpointInfo(a: Advertisement) returns (info: seq<byte>)
    requires WellSized(a)
    ensures info == Print(a)
  {
    var data := CapabilitiesToBytes(a.capabilities);
    info := [Header(a)];
    info := info + a.salt;
    info := info + a.key;
    ghost var fixed := info;
    if a.deviceName.Some? {
      info := info + [|a.deviceName.value| as byte];
      info := info + a.deviceName.value;
    }
    ghost var named := info;
    assert named == fixed + NameBytes(a.deviceName);
    if a.vendorId != 0 {
      info := info + [VENDOR_ID];
      info := info + [1];
      info := info + [a.vendorId];
    }
    ghost var vendored := info;
    assert vendored == named + VendorElement(a.vendorId);
    if a.capabilities != [] && data != [] {
      info := info + [CAPABILITIES];
      info := info + [|data| as byte];
      info := info + data;
    }
    assert info == vendored + CapabilitiesElement(a.capabilities);
    assert info == named + Tail(a);
  }

  // Parsing -------------------------------------------------------------------------

  function ConvertVendorId(vendorId: byte): byte { if vendorId == 1 then 1 else 0 }

  // What the tail of an advertisement carries.
  datatype Extras = Extras(vendorId: byte, capabilities: seq<Capability>)

  // The bytes left after the first element.
  function AfterElement(tail: seq<byte>): seq<byte>
    requires |tail| >= 2 && |tail| - 2 >= tail[1] as int
  {
    tail[2 + tail[1] as int..]
  }

  // The element's effect, or None when its length is wrong for its type.
  function ReadElement(kind: byte, value: seq<byte>, extras: Extras): Option<Extras> {
    if kind == VENDOR_ID then
      if |value| == 1 then Some(extras.(vendorId := ConvertVendorId(value[0]))) else None
    else if kind == CAPABILITIES then Some(extras.(capabilities := ParseCapabilities(value)))
    else Some(extras)
  }

  function ParseTail(tail: seq<byte>, extras: Extras): Option<Extras>
    decreases |tail|
  {
    if |tail| < 2 then Some(extras)
    else if |tail| - 2 < tail[1] as int then None
    else
      var read := ReadElement(tail[0], tail[2..2 + tail[1] as int], extras);
      if read.None? then None else ParseTail(AfterElement(tail), read.value)
  }

  function NewInstance(salt: seq<byte>, key: seq<byte>, deviceType: bv8, deviceName: Option<seq<byte>>,
                       vendorId: byte, capabilities: seq<Capability>): (a: Option<Advertisement>)
    ensures a.Some? ==> WellSized(a.value)
  {
    if |salt| != SALT_SIZE || |key| != KEY_SIZE || (deviceName.Some? && |deviceName.value| > 255) then None
    else Some(Advertisement(0, salt, key, deviceType, deviceName, vendorId, capabilities))
  }

  function Finish(header: bv8, fixed: seq<byte>, name: Option<seq<byte>>, tail: seq<byte>): Option<Advertisement>
    requires |fixed| == SALT_SIZE + KEY_SIZE
  {
    var extras := ParseTail(tail, Extras(0, []));
    if extras.None? then None
    else NewInstance(fixed[..SALT_SIZE], fixed[SALT_SIZE..], ParseDeviceType(header), name,
                     extras.value.vendorId, extras.value.capabilities)
  }

  function Parse(info: seq<byte>): Option<Advertisement> {
    if |info| < MINIMUM_SIZE || ParseVersion(info[0] as bv8) > 1 then None
    else
      var header, rest := info[0] as bv8, info[MINIMUM_SIZE..];
      if !ParseHasDeviceName(header) then Finish(header, info[1..MINIMUM_SIZE], None, rest)
      else if rest == [] || rest[0] == 0 || |rest| - 1 < rest[0] as int then None
      else
        var n := rest[0] as int;
        Finish(header, info[1..MINIMUM_SIZE], Some(rest[1..1 + n]), rest[1 + n..])
  }

  // The parser with its cursor: every read is in bounds and every element moves the cursor on.
  method FromEndpointInfo(info: seq<byte>) returns (a: Option<Advertisement>)
    ensures a == Parse(info)
  {
    if |info| < MINIMUM_SIZE {
      return None;
    }
    var iter := 0;
    var firstByte := info[iter] as bv8;
    iter := iter + 1;
    if ParseVersion(firstByte) > 1 {
      return None;
    }
    var salt := info[iter..iter + SALT_SIZE];
    iter := iter + SALT_SIZE;
    var key := info[iter..iter + KEY_SIZE];
    iter := iter + KEY_SIZE;
    var name: Option<seq<byte>> := None;
    if ParseHasDeviceName(firstByte) {
      name, iter := ReadDeviceName(info, iter);
      if name.None? {
        return None;
      }
    }
    var extras := ReadElements(info, iter);
    if extras.None? {
      return None;
    }
    assert info[1..MINIMUM_SIZE][..SALT_SIZE] == salt && info[1..MINIMUM_SIZE][SALT_SIZE..] == key;
    a := NewInstance(salt, key, ParseDeviceType(firstByte), name, extras.value.vendorId, extras.value.capabilities);
  }

  // The length-prefixed name of FromEndpointInfo at the cursor's position, and where it ends.
  method ReadDeviceName(info: seq<byte>, start: nat) returns (name: Option<seq<byte>>, iter: nat)
    requires start <= |info|
    ensures name.Some? <==> start < |info| && 0 < info[start] as int <= |info| - start - 1
    ensures name.Some? ==>
      && iter == start + 1 + info[start] as int <= |info|
      && name.value == info[start..][1..1 + info[start] as int]
      && info[iter..] == info[start..][1 + info[start] as int..]
  {
    iter := start;
    var length := 0;
    if iter != |info| {
      length := info[iter] as int;
      iter := iter + 1;
    }
    if length == 0 || |info| - iter < length {
      return None, iter;
    }
    name := Some(info[iter..iter + length]);
    iter := iter + length;
  }

  // The element loop of FromEndpointInfo, from the cursor's position to the end.
  method ReadElements(info: seq<byte>, start: nat) returns (extras: Option<Extras>)
    requires start <= |info|
    ensures extras == ParseTail(info[start..], Extras(0, []))
  {
    var iter := start;
    var vendorId, capabilities := 0, [];
    ghost var parsed := ParseTail(info[start..], Extras(0, []));
    while |info| - iter >= 2
      invariant start <= iter <= |info|
      invariant ParseTail(info[iter..], Extras(vendorId, capabilities)) == parsed
      decreases |info| - iter
    {
      TailAt(info, iter, Extras(vendorId, capabilities));
      var kind := info[iter];
      iter := iter + 1;
      var length := info[iter] as int;
      iter := iter + 1;
      if |info| - iter < length {
        return None;
      }
      if kind == VENDOR_ID {
        if length != 1 {
          return None;
        }
        vendorId := ConvertVendorId(info[iter]);
        iter := iter + 1;
      } else if kind == CAPABILITIES {
        capabilities := ParseCapabilitiesLoop(info[iter..iter + length]);
        iter := iter + length;
      } else {
        iter := iter + length;
      }
    }
    extras := Some(Extras(vendorId, capabilities));
  }

  // One turn of that loop.
  lemma TailAt(info: seq<byte>, iter: nat, extras: Extras)
    requires iter + 2 <= |info|
    ensures var (length, rest) := (info[iter + 1] as int, ParseTail(info[iter..], extras));
            if |info| - iter - 2 < length then rest.None?
            else
              var read := ReadElement(info[iter], info[iter + 2..iter + 2 + length], extras);
              rest == if read.None? then None else ParseTail(info[iter + 2 + length..], read.value)
  {
    var here, length := info[iter..], info[iter + 1] as int;
    if |info| - iter - 2 >= length {
      assert here[2..2 + length] == info[iter + 2..iter + 2 + length];
      assert AfterElement(here) == info[iter + 2 + length..];
    }
  }

  // Equality as operator== has it: capabilities are compared by what they print.
  predicate Same(a: Advertisement, b: Advertisement) {
    && a.version == b.version && a.salt == b.salt && a.key == b.key && a.deviceType == b.deviceType
    && a.deviceName == b.deviceName && a.vendorId == b.vendorId
    && CapabilityBytes(a.capabilities) == CapabilityBytes(b.capabilities)
  }

  // Round trips ---------------------------------------------------------------------

  // The advertisements that survive printing: a caller can check this before ToEndpointInfo.
  predicate Printable(a: Advertisement) {
    && a.version == 0
    && a.deviceName != Some([])
    && a.vendorId <= 1
    && a.deviceType <= 6
  }

  // The printed tail reads back as the vendor id, as far as it is supported, and capabilities
  // that print the same.
  lemma TailReadsBack(vendorId: byte, capabilities: seq<Capability>)
    ensures ParseTail(VendorElement(vendorId) + CapabilitiesElement(capabilities), Extras(0, []))
         == Some(Extras(if vendorId == 1 then 1 else 0, if FileSync in capabilities then [FileSync] else []))
  {
    var caps := CapabilitiesElement(capabilities);
    var extras := Extras(if vendorId == 1 then 1 else 0, []);
    assert ParseTail(caps, extras)
        == Some(extras.(capabilities := if FileSync in capabilities then [FileSync] else [])) by {
      if caps != [] {
        assert caps == [CAPABILITIES, 1, 1];
        assert caps[2..3] == [1] && AfterElement(caps) == [];
        assert ParseCapabilities([1]) == [FileSync];
      }
    }
    var tail := VendorElement(vendorId) + caps;
    if vendorId == 0 {
      assert tail == caps;
    } else {
      assert tail[2..3] == [vendorId] && AfterElement(tail) == caps;
    }
  }

  lemma PrintedParts(a: Advertisement)
    requires WellSized(a)
    ensures var info := Print(a);
            && |info| >= MINIMUM_SIZE && info[0] == Header(a)
            && info[1..MINIMUM_SIZE] == a.salt + a.key
            && info[MINIMUM_SIZE..] == NameBytes(a.deviceName) + Tail(a)
  {
  }

  // What parsing a printed advertisement gives: nothing above version 1 or with an empty name.
  lemma ParsePrinted(a: Advertisement)
    requires WellSized(a)
    ensures Parse(Print(a)) == if a.version & 0x7 > 1 || a.deviceName == Some([]) then None else
      Some(Advertisement(0, a.salt, a.key, if a.deviceType & 0x7 == 7 then 0 else a.deviceType & 0x7,
                         a.deviceName, if a.vendorId == 1 then 1 else 0,
                         if FileSync in a.capabilities then [FileSync] else []))
  {
    var info := Print(a);
    PrintedParts(a);
    HeaderFields(a.version, a.deviceName.Some?, a.deviceType);
    ByteBits(HeaderBits(a.version, a.deviceName.Some?, a.deviceType));
    TailReadsBack(a.vendorId, a.capabilities);
    assert (a.salt + a.key)[..SALT_SIZE] == a.salt && (a.salt + a.key)[SALT_SIZE..] == a.key;
    var rest := info[MINIMUM_SIZE..];
    if a.deviceName.None? {
      assert rest == Tail(a);
    } else {
      NameReadsBack(a.deviceName.value, Tail(a));
    }
  }

  lemma NameReadsBack(name: seq<byte>, tail: seq<byte>)
    requires |name| <= 255
    ensures var rest, n := NameBytes(Some(name)) + tail, |name|;
            && |rest| == 1 + n + |tail| && rest[0] as int == n && (rest[0] == 0 <==> name == [])
            && rest[1..1 + n] == name && rest[1 + n..] == tail
  {
    LengthByte(|name|);
  }

  lemma LengthByte(n: nat)
    requires n <= 255
    ensures (n as byte) as int == n
    ensures (n as byte == 0) <==> n == 0
  {
  }

  lemma KnownDeviceBits(deviceType: bv8)
    ensures (if deviceType & 0x7 == 7 then 0 else deviceType & 0x7) == deviceType <==> deviceType <= 6
  {
  }

  // An advertisement reads back as itself exactly when it is printable.
  lemma RoundTripIffPrintable(a: Advertisement)
    requires WellSized(a)
    ensures (Parse(Print(a)).Some? && Same(Parse(Print(a)).value, a)) <==> Printable(a)
  {
    if a.version == 0 {
      ParsePrinted(a);
      KnownDeviceBits(a.deviceType);
    }
  }

  // Whatever the bytes, what the parser accepts is printable and was made by NewInstance.
  lemma {:induction false} ParsedIsPrintable(info: seq<byte>)
    requires Parse(info).Some?
    ensures var a := Parse(info).value;
            WellSized(a) && a.version == 0 && Printable(a) && Invalid !in a.capabilities
  {
    var rest := info[MINIMUM_SIZE..];
    if ParseHasDeviceName(info[0] as bv8) {
      var n := rest[0] as int;
      TailExtras(rest[1 + n..], Extras(0, []));
    } else {
      TailExtras(rest, Extras(0, []));
    }
  }

  lemma {:induction false} TailExtras(tail: seq<byte>, extras: Extras)
    requires extras.vendorId <= 1 && Invalid !in extras.capabilities
    ensures ParseTail(tail, extras).Some? ==>
      ParseTail(tail, extras).value.vendorId <= 1 && Invalid !in ParseTail(tail, extras).value.capabilities
    decreases |tail|
  {
    if |tail| >= 2 && |tail| - 2 >= tail[1] as int {
      var value := tail[2..2 + tail[1] as int];
      var read := ReadElement(tail[0], value, extras);
      if read.Some? {
        OnlyFileSync(value);
        TailExtras(AfterElement(tail), read.value);
      }
    }
  }

  lemma {:induction false} OnlyFileSync(data: seq<byte>)
    ensures Invalid !in ParseCapabilities(data)
  {
    if data != [] {
      OnlyFileSync(data[1..]);
    }
  }

  // parse . print . parse is parse, on all byte strings.
  lemma ParsePrintParse(info: seq<byte>)
    requires Parse(info).Some?
    ensures Parse(Print(Parse(info).value)).Some?
    ensures Same(Parse(Print(Parse(info).value)).value, Parse(info).value)
  {
    ParsedIsPrintable(info);
    RoundTripIffPrintable(Parse(info).value);
  }

  // Skipped elements ----------------------------------------------------------------

  predicate Skipped(kind: byte) {
    kind != VENDOR_ID && kind != CAPABILITIES
  }

  // `boundary` is a position at which the parser of `tail` starts reading an element, or stops.
  predicate AtBoundary(tail: seq<byte>, boundary: nat)
    decreases |tail|
  {
    boundary == 0 ||
    (|tail| >= 2 && |tail| - 2 >= tail[1] as int && boundary >= 2 + tail[1] as int
      && AtBoundary(AfterElement(tail), boundary - 2 - tail[1] as int))
  }

  lemma {:induction false} BoundaryInTail(tail: seq<byte>, boundary: nat)
    requires AtBoundary(tail, boundary)
    ensures boundary <= |tail|
    decreases |tail|
  {
    if boundary != 0 {
      BoundaryInTail(AfterElement(tail), boundary - 2 - tail[1] as int);
    }
  }

  function Insert(bytes: seq<byte>, at: nat, element: seq<byte>): seq<byte>
    requires at <= |bytes|
  {
    bytes[..at] + element + bytes[at..]
  }

  // An insertion at a later boundary leaves the first element alone.
  lemma InsertKeepsFirst(tail: seq<byte>, boundary: nat, element: seq<byte>)
    requires |tail| >= 2 && 2 + tail[1] as int <= boundary <= |tail|
    ensures var longer, n := Insert(tail, boundary, element), 2 + tail[1] as int;
            && longer[0] == tail[0] && longer[1] == tail[1] && n <= |longer| && longer[2..n] == tail[2..n]
            && AfterElement(longer) == Insert(AfterElement(tail), boundary - n, element)
  {
  }

  lemma SkippedAtFront(tail: seq<byte>, element: seq<byte>, extras: Extras)
    requires |element| >= 2 && |element| - 2 == element[1] as int && Skipped(element[0])
    ensures ParseTail(element + tail, extras) == ParseTail(tail, extras)
  {
    assert AfterElement(element + tail) == tail;
  }

  // Inserting a well-formed element of a skipped type at an element boundary changes nothing:
  // the same extras are read, or parsing fails as before.
  lemma {:induction false} InsertSkippedElement(tail: seq<byte>, boundary: nat, element: seq<byte>, extras: Extras)
    requires AtBoundary(tail, boundary) && boundary <= |tail|
    requires |element| >= 2 && |element| - 2 == element[1] as int && Skipped(element[0])
    ensures ParseTail(Insert(tail, boundary, element), extras) == ParseTail(tail, extras)
    decreases |tail|
  {
    if boundary == 0 {
      assert Insert(tail, boundary, element) == element + tail;
      SkippedAtFront(tail, element, extras);
    } else {
      var n := 2 + tail[1] as int;
      BoundaryInTail(AfterElement(tail), boundary - n);
      InsertKeepsFirst(tail, boundary, element);
      var read := ReadElement(tail[0], tail[2..n], extras);
      if read.Some? {
        InsertSkippedElement(AfterElement(tail), boundary - n, element, read.value);
      }
      SameFirst(tail, Insert(tail, boundary, element), extras);
    }
  }

  // Tails with the same first element read the same if what follows reads the same.
  lemma SameFirst(a: seq<byte>, b: seq<byte>, extras: Extras)
    requires 2 <= |a| && 2 <= |b| && a[0] == b[0] && a[1] == b[1]
    requires 2 + a[1] as int <= |a| && 2 + a[1] as int <= |b| && a[2..2 + a[1] as int] == b[2..2 + a[1] as int]
    requires var read := ReadElement(a[0], a[2..2 + a[1] as int], extras);
             read.Some? ==> ParseTail(AfterElement(a), read.value) == ParseTail(AfterElement(b), read.value)
    ensures ParseTail(a, extras) == ParseTail(b, extras)
  {
  }

  // Where the tail starts: after the fixed part and the announced name.
  function TailStart(info: seq<byte>): nat
    requires |info| >= MINIMUM_SIZE
  {
    if ParseHasDeviceName(info[0] as bv8) && |info| > MINIMUM_SIZE
    then MINIMUM_SIZE + 1 + info[MINIMUM_SIZE] as int
    else MINIMUM_SIZE
  }

  // The parser as a function of the header, the fixed part, the name and the tail.
  function ParseParts(front: seq<byte>, tail: seq<byte>): Option<Advertisement>
    requires |front| >= MINIMUM_SIZE && TailStart(front) == |front|
  {
    var header := front[0] as bv8;
    if ParseVersion(header) > 1 then None
    else if !ParseHasDeviceName(header) then Finish(header, front[1..MINIMUM_SIZE], None, tail)
    else if |front| <= MINIMUM_SIZE + 1 then None
    else Finish(header, front[1..MINIMUM_SIZE], Some(front[MINIMUM_SIZE + 1..]), tail)
  }

  lemma ParseByParts(info: seq<byte>)
    requires |info| >= MINIMUM_SIZE && TailStart(info) <= |info|
    requires ParseHasDeviceName(info[0] as bv8) ==> |info| > MINIMUM_SIZE
    ensures var front := info[..TailStart(info)];
            TailStart(front) == |front| && Parse(info) == ParseParts(front, info[TailStart(info)..])
  {
    var start := TailStart(info);
    var front, rest := info[..start], info[MINIMUM_SIZE..];
    assert front[1..MINIMUM_SIZE] == info[1..MINIMUM_SIZE];
    if ParseHasDeviceName(info[0] as bv8) {
      var n := rest[0] as int;
      assert front[MINIMUM_SIZE] == rest[0];
      assert rest[1..1 + n] == front[MINIMUM_SIZE + 1..] && rest[1 + n..] == info[start..];
    } else {
      assert rest == info[start..];
    }
  }

  lemma SameFront(info: seq<byte>, other: seq<byte>)
    requires |info| >= MINIMUM_SIZE && TailStart(info) <= |info|
    requires ParseHasDeviceName(info[0] as bv8) ==> |info| > MINIMUM_SIZE
    requires TailStart(info) <= |other| && other[..TailStart(info)] == info[..TailStart(info)]
    ensures TailStart(other) == TailStart(info) && other[0] == info[0]
  {
    var start := TailStart(info);
    assert forall k :: 0 <= k < start ==> other[k] == other[..start][k] == info[k];
  }

  lemma InsertSlices(info: seq<byte>, start: nat, boundary: nat, element: seq<byte>)
    requires start + boundary <= |info|
    ensures var longer := Insert(info, start + boundary, element);
            && |longer| >= |info| && longer[..start] == info[..start]
            && longer[start..] == Insert(info[start..], boundary, element)
  {
  }

  // The same for whole advertisements.
  lemma InsertSkippedInAdvertisement(info: seq<byte>, boundary: nat, element: seq<byte>)
    requires |info| >= MINIMUM_SIZE && TailStart(info) + boundary <= |info|
    requires ParseHasDeviceName(info[0] as bv8) ==> |info| > MINIMUM_SIZE
    requires AtBoundary(info[TailStart(info)..], boundary)
    requires |element| >= 2 && |element| - 2 == element[1] as int && Skipped(element[0])
    ensures Parse(Insert(info, TailStart(info) + boundary, element)) == Parse(info)
  {
    var longer := Insert(info, TailStart(info) + boundary, element);
    InsertSkippedElement(info[TailStart(info)..], boundary, element, Extras(0, []));
    InsertSlices(info, TailStart(info), boundary, element);
    SameFront(info, longer);
    SameTail(info, longer);
  }

  lemma SameTail(info: seq<byte>, other: seq<byte>)
    requires |info| >= MINIMUM_SIZE && |other| >= |info| && TailStart(info) <= |info|
    requires ParseHasDeviceName(info[0] as bv8) ==> |info| > MINIMUM_SIZE
    requires other[0] == info[0] && TailStart(other) == TailStart(info)
    requires other[..TailStart(info)] == info[..TailStart(info)]
    requires ParseTail(other[TailStart(info)..], Extras(0, [])) == ParseTail(info[TailStart(info)..], Extras(0, []))
    ensures Parse(other) == Parse(info)
  {
    ParseByParts(info);
    ParseByParts(other);
  }
}
