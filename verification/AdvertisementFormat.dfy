/**
 The format of an advertisement, byte by byte and on all byte strings, independent of the order
 in which the codec goes through it.
 */
module AdvertisementFormat {
  import opened Wrappers
  import opened AdvertisementCodec

  // The header: three bits of version, one that is set without a name, three bits of device type.
  lemma HeaderLayout(version: bv8, named: bool, deviceType: bv8)
    ensures HeaderBits(version, named, deviceType)
         == ((version & 0x7) << 5) | (if named then 0x00 else 0x10) | ((deviceType & 0x7) << 1)
  {
  }

  // Two bytes of salt, fourteen of key, the name behind its length, and then the two elements: a
  // vendor id other than 0 as element 2, capabilities as element 3.
  lemma PrintedLayout(a: Advertisement)
    requires WellSized(a)
    ensures Print(a) ==
      [HeaderBits(a.version, a.deviceName.Some?, a.deviceType) as byte] + a.salt + a.key
      + (if a.deviceName.None? then [] else [|a.deviceName.value| as byte] + a.deviceName.value)
      + (if a.vendorId == 0 then [] else [2, 1, a.vendorId])
      + (if FileSync in a.capabilities then [3, 1, 1] else [])
  {
    var named := [Header(a)] + a.salt + a.key + NameBytes(a.deviceName);
    assert named + Tail(a) == named + VendorElement(a.vendorId) + CapabilitiesElement(a.capabilities);
  }

  lemma HeaderReads(b: bv8)
    ensures ParseVersion(b) > 1 <==> b & 0xC0 != 0
    ensures ParseHasDeviceName(b) <==> b & 0x10 == 0
    ensures ParseDeviceType(b) == if b & 0x0E == 0x0E then 0 else (b & 0x0E) >> 1
  {
  }

  // Where the tail of elements starts, if the name ends where its length says.
  function TailOf(info: seq<byte>): (start: nat) {
    if |info| > 17 && info[0] as bv8 & 0x10 == 0 then 18 + info[17] as int else 17
  }

  // What may precede the tail: a version 0 or 1, and a name that is present, if it is announced,
  // not empty, and complete.
  predicate FrontOk(info: seq<byte>) {
    && |info| >= 17 && info[0] as bv8 & 0xC0 == 0
    && (info[0] as bv8 & 0x10 == 0 ==> |info| > 17 && info[17] > 0)
    && TailOf(info) <= |info|
  }

  // Every byte string is accepted exactly if its front and its tail are, and each field is taken
  // from its place; the version is not kept.
  lemma ParsedLayout(info: seq<byte>)
    ensures Parse(info).Some? <==> FrontOk(info) && ParseTail(info[TailOf(info)..], Extras(0, [])).Some?
    ensures Parse(info).Some? ==>
      var (a, extras) := (Parse(info).value, ParseTail(info[TailOf(info)..], Extras(0, [])).value);
      && a.version == 0 && a.salt == info[1..3] && a.key == info[3..17]
      && a.deviceType == (if info[0] as bv8 & 0x0E == 0x0E then 0 else (info[0] as bv8 & 0x0E) >> 1)
      && a.deviceName == (if info[0] as bv8 & 0x10 == 0 then Some(info[18..TailOf(info)]) else None)
      && a.vendorId == extras.vendorId && a.capabilities == extras.capabilities
  {
    if |info| >= 17 {
      HeaderReads(info[0] as bv8);
      var rest := info[17..];
      assert info[1..17][..2] == info[1..3] && info[1..17][2..] == info[3..17];
      if info[0] as bv8 & 0x10 == 0 && rest != [] && |rest| - 1 >= rest[0] as int {
        var n := rest[0] as int;
        assert rest[1..1 + n] == info[18..18 + n] && rest[1 + n..] == info[18 + n..];
      }
    }
  }

  // Elements ---------------------------------------------------------------------------

  datatype Element = Element(kind: byte, value: seq<byte>)

  predicate Encodable(elements: seq<Element>) {
    forall i :: 0 <= i < |elements| ==> |elements[i].value| < 256
  }

  function Encode(elements: seq<Element>): seq<byte>
    requires Encodable(elements)
  {
    if elements == [] then []
    else [elements[0].kind, |elements[0].value| as byte] + elements[0].value + Encode(elements[1..])
  }

  // The value of the last element of a kind.
  function LastOf(elements: seq<Element>, kind: byte): Option<seq<byte>> {
    if elements == [] then None
    else if Last(elements).kind == kind then Some(Last(elements).value)
    else LastOf(Init(elements), kind)
  }

  // A vendor id takes one byte.
  predicate VendorsFit(elements: seq<Element>) {
    forall i :: 0 <= i < |elements| && elements[i].kind == 2 ==> |elements[i].value| == 1
  }

  // One capability for each byte that equals 1.
  function Ones(data: seq<byte>): seq<Capability> {
    if data == [] then [] else Ones(Init(data)) + if Last(data) == 1 then [FileSync] else []
  }

  function Vendor(value: Option<seq<byte>>, otherwise: byte): byte {
    if value.None? then otherwise else if value.value == [1] then 1 else 0
  }

  function Capabilities(value: Option<seq<byte>>, otherwise: seq<Capability>): seq<Capability> {
    if value.None? then otherwise else Ones(value.value)
  }

  lemma {:induction false} OnesIsParse(data: seq<byte>)
    ensures ParseCapabilities(data) == Ones(data)
  {
    if data != [] {
      OnesConcat([data[0]], data[1..]);
      OnesIsParse(data[1..]);
      assert [data[0]] + data[1..] == data && Init([data[0]]) == [];
    }
  }

  lemma {:induction false} OnesConcat(a: seq<byte>, b: seq<byte>)
    ensures Ones(a + b) == Ones(a) + Ones(b)
  {
    if b == [] {
      assert a + b == a;
    } else {
      assert Init(a + b) == a + Init(b);
      OnesConcat(a, Init(b));
    }
  }

  lemma {:induction false} LastOfRest(elements: seq<Element>, kind: byte)
    requires elements != []
    ensures LastOf(elements, kind)
         == var later := LastOf(elements[1..], kind);
            if later.Some? then later else if elements[0].kind == kind then Some(elements[0].value) else None
  {
    if |elements| > 1 {
      assert Init(elements)[1..] == Init(elements[1..]);
      LastOfRest(Init(elements), kind);
    }
  }

  // One element at the front of a tail.
  lemma ReadsFirst(e: Element, rest: seq<byte>, extras: Extras)
    requires |e.value| < 256
    ensures ParseTail([e.kind, |e.value| as byte] + e.value + rest, extras)
         == if e.kind == 2 && |e.value| != 1 then None
            else ParseTail(rest, Extras(Vendor(if e.kind == 2 then Some(e.value) else None, extras.vendorId),
                                        Capabilities(if e.kind == 3 then Some(e.value) else None, extras.capabilities)))
  {
    var tail := [e.kind, |e.value| as byte] + e.value + rest;
    LengthByte(|e.value|);
    assert tail[2..2 + |e.value|] == e.value && AfterElement(tail) == rest;
    OnesIsParse(e.value);
  }

  // The tail of elements, however many and of whatever kinds, is read if and only if no vendor
  // element has another length than one, and then the last of each kind decides. What follows
  // the elements is as for an empty list of them.
  lemma {:induction false} ElementsDecide(elements: seq<Element>, rest: seq<byte>, extras: Extras)
    requires Encodable(elements)
    ensures ParseTail(Encode(elements) + rest, extras)
         == if !VendorsFit(elements) then None
            else ParseTail(rest, Extras(Vendor(LastOf(elements, 2), extras.vendorId),
                                        Capabilities(LastOf(elements, 3), extras.capabilities)))
  {
    if elements == [] {
      assert Encode(elements) + rest == rest;
    } else {
      var e, later := elements[0], elements[1..];
      assert Encode(elements) + rest == [e.kind, |e.value| as byte] + e.value + (Encode(later) + rest);
      ReadsFirst(e, Encode(later) + rest, extras);
      LastOfRest(elements, 2);
      LastOfRest(elements, 3);
      FitAll(elements);
      ElementsDecide(later, rest,
                     Extras(Vendor(if e.kind == 2 then Some(e.value) else None, extras.vendorId),
                            Capabilities(if e.kind == 3 then Some(e.value) else None, extras.capabilities)));
    }
  }

  lemma FitAll(elements: seq<Element>)
    requires elements != []
    ensures VendorsFit(elements)
            <==> (elements[0].kind == 2 ==> |elements[0].value| == 1) && VendorsFit(elements[1..])
  {
    assert forall i :: 0 < i < |elements| ==> elements[i] == elements[1..][i - 1];
  }

  // An end that is no element: fewer than two bytes, which are ignored, or an element that is cut
  // short, which is not accepted.
  predicate Stray(rest: seq<byte>) {
    |rest| < 2
  }

  predicate CutShort(rest: seq<byte>) {
    |rest| >= 2 && |rest| - 2 < rest[1] as int
  }

  // Every tail is a list of elements and such an end, and so its meaning is known.
  lemma {:induction false} EveryTailSplits(tail: seq<byte>) returns (elements: seq<Element>, rest: seq<byte>)
    ensures Encodable(elements) && tail == Encode(elements) + rest && (Stray(rest) || CutShort(rest))
    ensures ParseTail(tail, Extras(0, []))
         == if CutShort(rest) || !VendorsFit(elements) then None
            else Some(Extras(Vendor(LastOf(elements, 2), 0), Capabilities(LastOf(elements, 3), [])))
  {
    elements, rest := Split(tail);
    ElementsDecide(elements, rest, Extras(0, []));
  }

  lemma {:induction false} Split(tail: seq<byte>) returns (elements: seq<Element>, rest: seq<byte>)
    ensures Encodable(elements) && tail == Encode(elements) + rest && (Stray(rest) || CutShort(rest))
    decreases |tail|
  {
    if Stray(tail) || CutShort(tail) {
      elements, rest := [], tail;
    } else {
      var n := tail[1] as int;
      var e := Element(tail[0], tail[2..2 + n]);
      var later;
      later, rest := Split(tail[2 + n..]);
      elements := [e] + later;
      LengthByte(n);
      assert elements[1..] == later;
      assert tail == [e.kind, n as byte] + e.value + tail[2 + n..];
    }
  }
}
