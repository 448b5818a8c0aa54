/** The voter display strings of a match record, built by template literals
    from a voter's optional name and address parts. */
module Display {
  import opened Records

  /** `${x}`: a missing value prints as "undefined". */
  function Interpolate(f: Option<string>): string
  {
    match f
    case None => "undefined"
    case Some(s) => s
  }

  /** A template's `x ? ... : ''` test: present and non-empty. */
  predicate Truthy(f: Option<string>)
  {
    f.Some? && f.value != ""
  }

  /** `${x ? ` ${x}` : ''}`. */
  function SpaceBefore(f: Option<string>): string
  {
    if Truthy(f) then " " + f.value else ""
  }

  /** `${x ? `${x} ` : ''}`, used only for the name prefix. */
  function SpaceAfter(f: Option<string>): string
  {
    if Truthy(f) then f.value + " " else ""
  }

  /** The 'voter name' template: prefix, first, middle, last, suffix. */
  function VoterName(v: Voter): string
  {
    SpaceAfter(v.namePrefix) + Interpolate(v.nameFirst) +
    SpaceBefore(v.nameMiddle) + SpaceBefore(v.nameLast) + SpaceBefore(v.nameSuffix)
  }

  /** The 'voter address' template: house number, fraction, pre-direction,
      street, type, post-direction, building number, apartment number. */
  function VoterAddress(v: Voter): string
  {
    Interpolate(v.houseNumber) + SpaceBefore(v.houseFraction) + SpaceBefore(v.preDir) +
    SpaceBefore(v.street) + SpaceBefore(v.streetType) + SpaceBefore(v.postDir) +
    SpaceBefore(v.buildingNumber) + SpaceBefore(v.apartmentNumber)
  }

  /** The optional parts that are present and non-empty, in order. */
  function Present(parts: seq<Option<string>>): (r: seq<string>)
    ensures |r| <= |parts|
    ensures forall w :: w in r ==> w != ""
    ensures forall k :: 0 <= k < |parts| && Truthy(parts[k]) ==> parts[k].value in r
    ensures forall w :: w in r ==> exists k :: 0 <= k < |parts| && Truthy(parts[k]) && parts[k].value == w
  {
    assert forall k :: 1 <= k < |parts| ==> parts[k] == parts[1..][k - 1];
    if parts == [] then []
    else (if Truthy(parts[0]) then [parts[0].value] else []) + Present(parts[1..])
  }

  /** The present parts of two runs of parts are those of the first run,
      then those of the second: the order of the parts is kept. */
  lemma {:induction false} PresentAppend(a: seq<Option<string>>, b: seq<Option<string>>)
    ensures Present(a + b) == Present(a) + Present(b)
  {
    if a == [] {
      assert a + b == b;
    } else {
      assert (a + b)[1..] == a[1..] + b;
      PresentAppend(a[1..], b);
    }
  }

  /** Each word preceded by one space. */
  function SpaceJoined(words: seq<string>): string
  {
    if words == [] then "" else " " + words[0] + SpaceJoined(words[1..])
  }

  lemma {:induction false} SpaceJoinedAppend(a: seq<string>, b: seq<string>)
    ensures SpaceJoined(a + b) == SpaceJoined(a) + SpaceJoined(b)
  {
    if a != [] {
      assert (a + b)[1..] == a[1..] + b;
      SpaceJoinedAppend(a[1..], b);
    } else {
      assert a + b == b;
    }
  }

  /** Joining a list of optional parts is joining the parts one at a time. */
  lemma JoinedCons(part: Option<string>, rest: seq<Option<string>>)
    ensures SpaceJoined(Present([part] + rest)) == SpaceBefore(part) + SpaceJoined(Present(rest))
  {
    assert ([part] + rest)[1..] == rest;
    var head := if Truthy(part) then [part.value] else [];
    SpaceJoinedAppend(head, Present(rest));
    assert head != [] ==> SpaceJoined(head) == " " + part.value + SpaceJoined([]);
  }

  /** The three optional name parts after the first name, joined. */
  lemma NamePartsJoined(v: Voter)
    ensures SpaceJoined(Present([v.nameMiddle, v.nameLast, v.nameSuffix])) ==
      SpaceBefore(v.nameMiddle) + (SpaceBefore(v.nameLast) + SpaceBefore(v.nameSuffix))
  {
    var r2 := [v.nameSuffix];
    var r1 := [v.nameLast] + r2;
    var r0 := [v.nameMiddle] + r1;
    assert r0 == [v.nameMiddle, v.nameLast, v.nameSuffix];
    JoinedCons(v.nameSuffix, []);
    assert [v.nameSuffix] + [] == r2;
    JoinedCons(v.nameLast, r2);
    JoinedCons(v.nameMiddle, r1);
  }

  /** The voter name is the first name (or "undefined") followed by the
      present middle, last and suffix parts, each after a single space, with a
      present prefix and one space in front. */
  lemma VoterNameLayout(v: Voter)
    ensures VoterName(v) ==
      SpaceAfter(v.namePrefix) + Interpolate(v.nameFirst) +
      SpaceJoined(Present([v.nameMiddle, v.nameLast, v.nameSuffix]))
  {
    NamePartsJoined(v);
    ReassociateFour(SpaceAfter(v.namePrefix) + Interpolate(v.nameFirst),
      SpaceBefore(v.nameMiddle), SpaceBefore(v.nameLast), SpaceBefore(v.nameSuffix));
  }

  /** Left-to-right concatenation of four strings, re-associated to the right,
      stated over plain strings like `Reassociate` below. */
  lemma ReassociateFour(a: string, b1: string, b2: string, b3: string)
    ensures a + b1 + b2 + b3 == a + (b1 + (b2 + b3))
  {
  }

  /** The building and apartment numbers, joined. */
  lemma LastAddressPartsJoined(v: Voter)
    ensures SpaceJoined(Present([v.buildingNumber, v.apartmentNumber])) ==
      SpaceBefore(v.buildingNumber) + SpaceBefore(v.apartmentNumber)
  {
    var r6 := [v.apartmentNumber];
    assert [v.buildingNumber] + r6 == [v.buildingNumber, v.apartmentNumber];
    JoinedCons(v.apartmentNumber, []);
    assert [v.apartmentNumber] + [] == r6;
    JoinedCons(v.buildingNumber, r6);
  }

  /** The last four optional address parts, joined. */
  lemma TrailingAddressPartsJoined(v: Voter)
    ensures SpaceJoined(Present([v.streetType, v.postDir, v.buildingNumber, v.apartmentNumber])) ==
      SpaceBefore(v.streetType) + (SpaceBefore(v.postDir) + (SpaceBefore(v.buildingNumber) +
      SpaceBefore(v.apartmentNumber)))
  {
    var r5 := [v.buildingNumber, v.apartmentNumber];
    var r4 := [v.postDir] + r5;
    var r3 := [v.streetType] + r4;
    assert r3 == [v.streetType, v.postDir, v.buildingNumber, v.apartmentNumber];
    LastAddressPartsJoined(v);
    JoinedCons(v.postDir, r5);
    JoinedCons(v.streetType, r4);
  }

  /** The seven optional address parts, joined. */
  lemma AddressPartsJoined(v: Voter)
    ensures SpaceJoined(Present([v.houseFraction, v.preDir, v.street, v.streetType,
                                 v.postDir, v.buildingNumber, v.apartmentNumber])) ==
      SpaceBefore(v.houseFraction) + (SpaceBefore(v.preDir) + (SpaceBefore(v.street) +
      (SpaceBefore(v.streetType) + (SpaceBefore(v.postDir) + (SpaceBefore(v.buildingNumber) +
      SpaceBefore(v.apartmentNumber))))))
  {
    var r3 := [v.streetType, v.postDir, v.buildingNumber, v.apartmentNumber];
    var r2 := [v.street] + r3;
    var r1 := [v.preDir] + r2;
    var r0 := [v.houseFraction] + r1;
    assert r0 == [v.houseFraction, v.preDir, v.street, v.streetType,
                  v.postDir, v.buildingNumber, v.apartmentNumber];
    TrailingAddressPartsJoined(v);
    JoinedCons(v.street, r3);
    JoinedCons(v.preDir, r2);
    JoinedCons(v.houseFraction, r1);
  }

  /** Left-to-right concatenation of eight strings, re-associated to the right.
      Stated over plain strings, so that the sequence reasoning does not split
      on the optional parts' tests. */
  lemma Reassociate(a: string, b1: string, b2: string, b3: string, b4: string, b5: string, b6: string, b7: string)
    ensures a + b1 + b2 + b3 + b4 + b5 + b6 + b7 == a + (b1 + (b2 + (b3 + (b4 + (b5 + (b6 + b7))))))
  {
  }

  /** The voter address is the house number (or "undefined") followed by the
      present optional address parts in their fixed order, each after a single space. */
  lemma VoterAddressLayout(v: Voter)
    ensures VoterAddress(v) ==
      Interpolate(v.houseNumber) +
      SpaceJoined(Present([v.houseFraction, v.preDir, v.street, v.streetType,
                           v.postDir, v.buildingNumber, v.apartmentNumber]))
  {
    AddressPartsJoined(v);
    Reassociate(Interpolate(v.houseNumber), SpaceBefore(v.houseFraction), SpaceBefore(v.preDir),
      SpaceBefore(v.street), SpaceBefore(v.streetType), SpaceBefore(v.postDir),
      SpaceBefore(v.buildingNumber), SpaceBefore(v.apartmentNumber));
  }
}
