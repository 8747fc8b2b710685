/** `addAttributesToUserProfile` and the address synthesis of the
    deprecated flat `UserProfile`: a walk over the decrypted attribute
    list that dispatches on each attribute's name. */
module AttributeMapper {
  import opened Wrappers
  import opened GoStrings
  import opened YotiTypes
  import ImageValue
  import Time
  import Strconv

  const AttributeAgeOver: string := "age_over:"
  const AttributeAgeUnder: string := "age_under:"
  const FormattedAddressKey: string := "formatted_address"

  /** The names with a case of their own in the switch. */
  const WellKnownNames: set<string> := {
    AttrSelfie, AttrGivenNames, AttrFamilyName, AttrFullName, AttrMobileNumber,
    AttrEmailAddress, AttrDateOfBirth, AttrAddress, AttrStructuredPostalAddress,
    AttrGender, AttrNationality }

  /** The names whose case copies the value into a string field. */
  const StringFieldNames: set<string> := {
    AttrGivenNames, AttrFamilyName, AttrFullName, AttrMobileNumber,
    AttrEmailAddress, AttrAddress, AttrGender, AttrNationality }

  predicate IsAgeAttribute(name: string) {
    AttributeAgeOver <= name || AttributeAgeUnder <= name
  }

  /** The string field of the profile that the attribute `name` sets. */
  function StringField(u: UserProfile, name: string): string
    requires name in StringFieldNames
  {
    if name == AttrGivenNames then u.givenNames
    else if name == AttrFamilyName then u.familyName
    else if name == AttrFullName then u.fullName
    else if name == AttrMobileNumber then u.mobileNumber
    else if name == AttrEmailAddress then u.emailAddress
    else if name == AttrAddress then u.address
    else if name == AttrGender then u.gender
    else u.nationality
  }

  /** `parseIsAgeVerifiedValue`: nil exactly when `strconv.ParseBool`
      rejects the value read as a string. */
  function ParseIsAgeVerifiedValue(value: seq<byte>): (r: Option<bool>)
    ensures r.Some? <==> GoString(value) in Strconv.TrueLiterals + Strconv.FalseLiterals
    ensures r == Some(true) <==> GoString(value) in Strconv.TrueLiterals
  {
    Strconv.ParseBool(GoString(value))
  }

  /** The `OtherAttributes` type for a content type; `None` for the
      content types the inner switch has no case for. */
  function StoredType(ct: ContentType): (t: Option<AttributeType>)
    ensures t.None? <==> ct.OTHER?
  {
    match ct
    case DATE => Some(TypeDate)
    case STRING => Some(TypeText)
    case JPEG => Some(TypeJPEG)
    case PNG => Some(TypePNG)
    case JSON => Some(TypeJSON)
    case OTHER(_) => None
  }

  /** The selfie image for a content type: only JPEG and PNG make one. */
  function SelfieImage(ct: ContentType, value: seq<byte>): (img: Option<ImageValue.Image>)
    ensures img.Some? <==> ct == JPEG || ct == PNG
    ensures img.Some? ==> img.value.data == value
    ensures ct == JPEG ==> img == Some(ImageValue.Image(ImageValue.ImageTypeJpeg, value))
    ensures ct == PNG ==> img == Some(ImageValue.Image(ImageValue.ImageTypePng, value))
  {
    match ct
    case JPEG => Some(ImageValue.Image(ImageValue.ImageTypeJpeg, value))
    case PNG => Some(ImageValue.Image(ImageValue.ImageTypePng, value))
    case _ => None
  }

  /** The profile the walk starts from: the ID and an empty map. */
  function NewUserProfile(id: string): (u: UserProfile)
    ensures u.id == id && u.otherAttributes == map[]
    ensures u == ZeroUserProfile().(id := id)
  {
    ZeroUserProfile().(id := id)
  }

  /** One pass of the loop body: the switch on the attribute's name. */
  function ApplyAttribute(libs: Libraries, p: UserProfile, a: Attribute): (r: UserProfile)
    ensures r.id == p.id
    ensures a.name in WellKnownNames ==>
      r.otherAttributes == p.otherAttributes && r.isAgeVerified == p.isAgeVerified
  {
    if a.name == AttrSelfie then
      match SelfieImage(a.contentType, a.value)
      case Some(img) => p.(selfie := Some(img))
      case None => p
    else if a.name == AttrGivenNames then p.(givenNames := GoString(a.value))
    else if a.name == AttrFamilyName then p.(familyName := GoString(a.value))
    else if a.name == AttrFullName then p.(fullName := GoString(a.value))
    else if a.name == AttrMobileNumber then p.(mobileNumber := GoString(a.value))
    else if a.name == AttrEmailAddress then p.(emailAddress := GoString(a.value))
    else if a.name == AttrDateOfBirth then
      match Time.ParseDate(GoString(a.value))
      case Some(d) => p.(dateOfBirth := Some(d))
      case None => p
    else if a.name == AttrAddress then p.(address := GoString(a.value))
    else if a.name == AttrStructuredPostalAddress then
      match libs.unmarshalJSON(a.value)
      case Success(j) => p.(structuredPostalAddress := j)
      case Failure(_) => p
    else if a.name == AttrGender then p.(gender := GoString(a.value))
    else if a.name == AttrNationality then p.(nationality := GoString(a.value))
    else
      var q :=
        if IsAgeAttribute(a.name) then
          match ParseIsAgeVerifiedValue(a.value)
          case Some(b) => p.(isAgeVerified := Some(b))
          case None => p
        else p;
      match StoredType(a.contentType)
      case Some(t) => q.(otherAttributes := q.otherAttributes[a.name := AttributeValue(t, a.value)])
      case None => q
  }

  /** A selfie that is neither JPEG nor PNG changes nothing. */
  lemma NonImageSelfieIgnored(libs: Libraries, p: UserProfile, a: Attribute)
    requires a.name == AttrSelfie && a.contentType != JPEG && a.contentType != PNG
    ensures ApplyAttribute(libs, p, a) == p
  {
  }

  /** An attribute of the default branch whose content type the inner
      switch does not list is dropped. */
  lemma UnknownContentTypeDropped(libs: Libraries, p: UserProfile, a: Attribute)
    requires a.name !in WellKnownNames && !IsAgeAttribute(a.name) && a.contentType.OTHER?
    ensures ApplyAttribute(libs, p, a) == p
  {
  }

  /** The profile after the loop has visited every attribute of `attrs`
      in order. */
  function MapAttributes(libs: Libraries, p: UserProfile, attrs: seq<Attribute>): (r: UserProfile)
    ensures r.id == p.id
    decreases |attrs|
  {
    if attrs == [] then p
    else ApplyAttribute(libs, MapAttributes(libs, p, attrs[..|attrs| - 1]), attrs[|attrs| - 1])
  }

  // Reference definitions: each scans the list backwards for the
  // attribute that decides a field.

  function LastNamed(attrs: seq<Attribute>, name: string): (r: Option<Attribute>)
    ensures r.Some? ==> r.value in attrs && r.value.name == name
    decreases |attrs|
  {
    if attrs == [] then None
    else if attrs[|attrs| - 1].name == name then Some(attrs[|attrs| - 1])
    else LastNamed(attrs[..|attrs| - 1], name)
  }

  function LastSelfie(attrs: seq<Attribute>): (r: Option<ImageValue.Image>)
    decreases |attrs|
  {
    if attrs == [] then None
    else
      var a := attrs[|attrs| - 1];
      if a.name == AttrSelfie && (a.contentType == JPEG || a.contentType == PNG) then SelfieImage(a.contentType, a.value)
      else LastSelfie(attrs[..|attrs| - 1])
  }

  function LastDateOfBirth(attrs: seq<Attribute>): (r: Option<Time.Date>)
    decreases |attrs|
  {
    if attrs == [] then None
    else
      var a := attrs[|attrs| - 1];
      if a.name == AttrDateOfBirth && Time.ParseDate(GoString(a.value)).Some? then Time.ParseDate(GoString(a.value))
      else LastDateOfBirth(attrs[..|attrs| - 1])
  }

  function LastStructuredAddress(libs: Libraries, attrs: seq<Attribute>): (r: Option<JsonValue>)
    decreases |attrs|
  {
    if attrs == [] then None
    else
      var a := attrs[|attrs| - 1];
      if a.name == AttrStructuredPostalAddress && libs.unmarshalJSON(a.value).Success? then Some(libs.unmarshalJSON(a.value).value)
      else LastStructuredAddress(libs, attrs[..|attrs| - 1])
  }

  function LastAgeVerification(attrs: seq<Attribute>): (r: Option<bool>)
    decreases |attrs|
  {
    if attrs == [] then None
    else
      var a := attrs[|attrs| - 1];
      if a.name !in WellKnownNames && IsAgeAttribute(a.name) && ParseIsAgeVerifiedValue(a.value).Some? then ParseIsAgeVerifiedValue(a.value)
      else LastAgeVerification(attrs[..|attrs| - 1])
  }

  /** The last attribute under `name` that the default branch stores. */
  function LastStored(attrs: seq<Attribute>, name: string): (r: Option<AttributeValue>)
    ensures r.Some? ==> name !in WellKnownNames
    decreases |attrs|
  {
    if attrs == [] then None
    else
      var a := attrs[|attrs| - 1];
      if a.name == name && name !in WellKnownNames && StoredType(a.contentType).Some? then
        Some(AttributeValue(StoredType(a.contentType).value, a.value))
      else LastStored(attrs[..|attrs| - 1], name)
  }

  function Lookup(m: map<string, AttributeValue>, k: string): Option<AttributeValue> {
    if k in m then Some(m[k]) else None
  }

  function OrElse<T>(o: Option<T>, d: Option<T>): Option<T> {
    if o.Some? then o else d
  }

  /** One attribute changes at most the string field of its own name. */
  lemma ApplyStringFrame(libs: Libraries, p: UserProfile, a: Attribute)
    ensures var q := ApplyAttribute(libs, p, a);
      (a.name != AttrGivenNames ==> q.givenNames == p.givenNames)
      && (a.name != AttrFamilyName ==> q.familyName == p.familyName)
      && (a.name != AttrFullName ==> q.fullName == p.fullName)
      && (a.name != AttrMobileNumber ==> q.mobileNumber == p.mobileNumber)
      && (a.name != AttrEmailAddress ==> q.emailAddress == p.emailAddress)
      && (a.name != AttrAddress ==> q.address == p.address)
      && (a.name != AttrGender ==> q.gender == p.gender)
      && (a.name != AttrNationality ==> q.nationality == p.nationality)
  {
  }

  lemma ApplyStringField(libs: Libraries, p: UserProfile, a: Attribute, f: string)
    requires f in StringFieldNames
    ensures StringField(ApplyAttribute(libs, p, a), f) == if a.name == f then GoString(a.value) else StringField(p, f)
  {
    ApplyStringFrame(libs, p, a);
  }

  /** One attribute changes the selfie only by being a JPEG or PNG selfie. */
  lemma ApplySelfie(libs: Libraries, p: UserProfile, a: Attribute)
    ensures ApplyAttribute(libs, p, a).selfie ==
      if a.name == AttrSelfie && (a.contentType == JPEG || a.contentType == PNG) then SelfieImage(a.contentType, a.value) else p.selfie
  {
  }

  lemma ApplyDateOfBirth(libs: Libraries, p: UserProfile, a: Attribute)
    ensures ApplyAttribute(libs, p, a).dateOfBirth ==
      if a.name == AttrDateOfBirth && Time.ParseDate(GoString(a.value)).Some? then Time.ParseDate(GoString(a.value)) else p.dateOfBirth
  {
  }

  lemma ApplyStructuredAddress(libs: Libraries, p: UserProfile, a: Attribute)
    ensures ApplyAttribute(libs, p, a).structuredPostalAddress ==
      if a.name == AttrStructuredPostalAddress && libs.unmarshalJSON(a.value).Success? then libs.unmarshalJSON(a.value).value else p.structuredPostalAddress
  {
  }

  lemma ApplyAgeVerified(libs: Libraries, p: UserProfile, a: Attribute)
    ensures ApplyAttribute(libs, p, a).isAgeVerified ==
      if a.name !in WellKnownNames && IsAgeAttribute(a.name) && ParseIsAgeVerifiedValue(a.value).Some? then ParseIsAgeVerifiedValue(a.value) else p.isAgeVerified
  {
  }

  lemma ApplyOther(libs: Libraries, p: UserProfile, a: Attribute, k: string)
    ensures Lookup(ApplyAttribute(libs, p, a).otherAttributes, k) ==
      if a.name == k && k !in WellKnownNames && StoredType(a.contentType).Some? then Some(AttributeValue(StoredType(a.contentType).value, a.value))
      else Lookup(p.otherAttributes, k)
  {
  }

  /** A string field holds the value of the last attribute of its name. */
  lemma {:induction false} StringFieldLastWins(libs: Libraries, p: UserProfile, attrs: seq<Attribute>, f: string)
    requires f in StringFieldNames
    ensures StringField(MapAttributes(libs, p, attrs), f) ==
      match LastNamed(attrs, f)
      case Some(a) => GoString(a.value)
      case None => StringField(p, f)
    decreases |attrs|
  {
    if attrs != [] {
      var init := attrs[..|attrs| - 1];
      StringFieldLastWins(libs, p, init, f);
      ApplyStringField(libs, MapAttributes(libs, p, init), attrs[|attrs| - 1], f);
    }
  }

  /** The selfie is the last JPEG or PNG selfie; any other selfie leaves it. */
  lemma {:induction false} SelfieLastWins(libs: Libraries, p: UserProfile, attrs: seq<Attribute>)
    ensures MapAttributes(libs, p, attrs).selfie == OrElse(LastSelfie(attrs), p.selfie)
    decreases |attrs|
  {
    if attrs != [] {
      var init := attrs[..|attrs| - 1];
      SelfieLastWins(libs, p, init);
      ApplySelfie(libs, MapAttributes(libs, p, init), attrs[|attrs| - 1]);
    }
  }

  /** The date of birth is the last one that parses; one that does not
      parse leaves the previous value. */
  lemma {:induction false} DateOfBirthLastWins(libs: Libraries, p: UserProfile, attrs: seq<Attribute>)
    ensures MapAttributes(libs, p, attrs).dateOfBirth == OrElse(LastDateOfBirth(attrs), p.dateOfBirth)
    decreases |attrs|
  {
    if attrs != [] {
      var init := attrs[..|attrs| - 1];
      DateOfBirthLastWins(libs, p, init);
      ApplyDateOfBirth(libs, MapAttributes(libs, p, init), attrs[|attrs| - 1]);
    }
  }

  lemma {:induction false} StructuredAddressLastWins(libs: Libraries, p: UserProfile, attrs: seq<Attribute>)
    ensures MapAttributes(libs, p, attrs).structuredPostalAddress ==
      match LastStructuredAddress(libs, attrs)
      case Some(j) => j
      case None => p.structuredPostalAddress
    decreases |attrs|
  {
    if attrs != [] {
      var init := attrs[..|attrs| - 1];
      StructuredAddressLastWins(libs, p, init);
      ApplyStructuredAddress(libs, MapAttributes(libs, p, init), attrs[|attrs| - 1]);
    }
  }

  lemma {:induction false} AgeVerifiedLastWins(libs: Libraries, p: UserProfile, attrs: seq<Attribute>)
    ensures MapAttributes(libs, p, attrs).isAgeVerified == OrElse(LastAgeVerification(attrs), p.isAgeVerified)
    decreases |attrs|
  {
    if attrs != [] {
      var init := attrs[..|attrs| - 1];
      AgeVerifiedLastWins(libs, p, init);
      ApplyAgeVerified(libs, MapAttributes(libs, p, init), attrs[|attrs| - 1]);
    }
  }

  /** `OtherAttributes[k]` is the last stored attribute named `k`, or what
      the map held before; no other key appears. */
  lemma {:induction false} OtherAttributesLastStored(libs: Libraries, p: UserProfile, attrs: seq<Attribute>, k: string)
    ensures Lookup(MapAttributes(libs, p, attrs).otherAttributes, k) == OrElse(LastStored(attrs, k), Lookup(p.otherAttributes, k))
    decreases |attrs|
  {
    if attrs != [] {
      var init := attrs[..|attrs| - 1];
      OtherAttributesLastStored(libs, p, init, k);
      ApplyOther(libs, MapAttributes(libs, p, init), attrs[|attrs| - 1], k);
    }
  }

  /** Starting from an empty map, a well-known name is never stored. */
  lemma WellKnownNeverStored(libs: Libraries, id: string, attrs: seq<Attribute>, k: string)
    requires k in WellKnownNames
    ensures k !in MapAttributes(libs, NewUserProfile(id), attrs).otherAttributes
  {
    OtherAttributesLastStored(libs, NewUserProfile(id), attrs, k);
  }

  /** `retrieveFormattedAddressFromStructuredPostalAddress`: both type
      assertions are unchecked, so a value that is not an object, or a
      `formatted_address` that is not a string, panics. */
  function RetrieveFormattedAddress(j: JsonValue): (r: Outcome<string>)
    ensures r.Panicked? <==>
      !j.JObject? || (FormattedAddressKey in j.members && !j.members[FormattedAddressKey].JString?)
    ensures r.Returned? ==>
      r.value == if FormattedAddressKey in j.members then j.members[FormattedAddressKey].s else ""
    ensures r.Returned? ==> IsByteString(r.value)
  {
    match j
    case JObject(members) =>
      if FormattedAddressKey in members then
        match members[FormattedAddressKey]
        case JString(s) => Returned(s)
        case _ => Panicked
      else Returned("")
    case _ => Panicked
  }

  /** `ensureAddressUserProfile`; its error result is always nil, because
      the retrieval never sets one. */
  function EnsureAddressUserProfile(u: UserProfile): (r: Outcome<string>)
    ensures u.address != "" || u.structuredPostalAddress == JNull ==> r == Returned("")
    ensures u.address == "" && u.structuredPostalAddress != JNull ==> r == RetrieveFormattedAddress(u.structuredPostalAddress)
  {
    if u.address == "" && u.structuredPostalAddress != JNull then
      RetrieveFormattedAddress(u.structuredPostalAddress)
    else Returned("")
  }

  /** Whether the synthesis replaces the address. */
  predicate HasFormattedAddress(u: UserProfile) {
    u.address == "" && u.structuredPostalAddress.JObject?
    && FormattedAddressKey in u.structuredPostalAddress.members
    && u.structuredPostalAddress.members[FormattedAddressKey].JString?
    && u.structuredPostalAddress.members[FormattedAddressKey].s != ""
  }

  /** Lines 400-405: `Address` becomes the formatted address only when it
      is empty, the structured address is set and has a non-empty string
      under `formatted_address`; every other field is kept. */
  function SynthesiseAddress(u: UserProfile): (r: Outcome<UserProfile>)
    ensures r.Panicked? <==>
      u.address == "" && u.structuredPostalAddress != JNull
      && (!u.structuredPostalAddress.JObject?
          || (FormattedAddressKey in u.structuredPostalAddress.members
              && !u.structuredPostalAddress.members[FormattedAddressKey].JString?))
    ensures r.Returned? && HasFormattedAddress(u) ==>
      r.value == u.(address := u.structuredPostalAddress.members[FormattedAddressKey].s)
    ensures r.Returned? && !HasFormattedAddress(u) ==> r.value == u
  {
    var fa :- EnsureAddressUserProfile(u);
    Returned(if fa != "" then u.(address := fa) else u)
  }

  /** What `addAttributesToUserProfile` returns for a possibly nil list. */
  function UserProfileOf(libs: Libraries, id: string, list: Option<seq<Attribute>>): (r: Outcome<UserProfile>)
    ensures list.None? ==> r == Returned(NewUserProfile(id))
    ensures r.Returned? ==> r.value.id == id
  {
    match list
    case None => Returned(NewUserProfile(id))
    case Some(attrs) => SynthesiseAddress(MapAttributes(libs, NewUserProfile(id), attrs))
  }

  /** The loop over the attribute list, then the address synthesis. */
  method AddAttributesToUserProfile(libs: Libraries, id: string, list: Option<seq<Attribute>>)
    returns (result: Outcome<UserProfile>)
    ensures result == UserProfileOf(libs, id, list)
  {
    var profile := NewUserProfile(id);
    if list.None? {
      return Returned(profile);
    }
    var attrs := list.value;
    var i := 0;
    while i < |attrs|
      invariant 0 <= i <= |attrs|
      invariant profile == MapAttributes(libs, NewUserProfile(id), attrs[..i])
    {
      assert attrs[..i + 1][..i] == attrs[..i];
      profile := ApplyAttribute(libs, profile, attrs[i]);
      i := i + 1;
    }
    assert attrs[..i] == attrs;
    var formattedAddress :- EnsureAddressUserProfile(profile);
    if formattedAddress != "" {
      profile := profile.(address := formattedAddress);
    }
    return Returned(profile);
  }
}
