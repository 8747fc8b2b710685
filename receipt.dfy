/** `handleSuccessfulResponse` and the two receipt decryptions: from the
    decoded response to the deprecated `UserProfile`, the `ActivityDetails`
    and the list of error messages. */
module ReceiptHandling {
  import opened Wrappers
  import opened GoStrings
  import opened YotiTypes
  import AttributeMapper
  import Pkcs7

  /** `aes.BlockSize`. */
  const AesBlockSize: nat := 16

  /** `decipherAes`: CBC decryption in the library, then removal of the
      PKCS#7 padding; bad padding is an error. */
  function DecipherAes(libs: Libraries, key: seq<byte>, iv: seq<byte>, cipherText: seq<byte>): (r: Result<seq<byte>, Error>)
    ensures libs.cbcDecrypt(key, iv, cipherText).Failure? ==> r == Failure(libs.cbcDecrypt(key, iv, cipherText).error)
    ensures r.Success? ==> Pkcs7.Pad(r.value, AesBlockSize) == libs.cbcDecrypt(key, iv, cipherText).value
    ensures libs.cbcDecrypt(key, iv, cipherText).Success? ==>
      (r.Success? <==> Pkcs7.Unpad(libs.cbcDecrypt(key, iv, cipherText).value, AesBlockSize).Some?)
    ensures libs.cbcDecrypt(key, iv, cipherText).Success? && r.Failure? ==> r.error == PaddingError
  {
    var plain :- libs.cbcDecrypt(key, iv, cipherText);
    match Pkcs7.Unpad(plain, AesBlockSize)
    case Some(data) =>
      Pkcs7.PadUnpad(plain, AesBlockSize);
      Success(data)
    case None => Failure(PaddingError)
  }

  /** Text padded the way the test helper pads it before encrypting comes
      back out of `decipherAes` unchanged. */
  lemma DecipherPadded(libs: Libraries, key: seq<byte>, iv: seq<byte>, cipherText: seq<byte>, plain: seq<byte>)
    requires libs.cbcDecrypt(key, iv, cipherText) == Success(Pkcs7.Pad(plain, AesBlockSize))
    ensures DecipherAes(libs, key, iv, cipherText) == Success(plain)
  {
    Pkcs7.UnpadPad(plain, AesBlockSize);
  }

  /** The body shared by `decryptCurrentUserReceipt` and
      `decryptCurrentApplicationProfile`: unwrap the receipt key, and only
      then treat empty content as a nil list; otherwise decode, decrypt and
      decode again, each failure being returned. */
  function DecryptProfileContent(libs: Libraries, key: PrivateKey, wrappedKey: string, content: string)
    : (r: Result<Option<seq<Attribute>>, Error>)
    ensures libs.unwrapKey(wrappedKey, key).Failure? ==> r == Failure(libs.unwrapKey(wrappedKey, key).error)
    ensures libs.unwrapKey(wrappedKey, key).Success? && content == "" ==> r == Success(None)
    ensures libs.unwrapKey(wrappedKey, key).Success? && content != "" && libs.base64ToBytes(content).Failure? ==>
      r == Failure(libs.base64ToBytes(content).error)
    ensures r.Success? && content != "" ==> r.value.Some?
    ensures libs.unwrapKey(wrappedKey, key).Success? && content != "" && libs.base64ToBytes(content).Success? ==>
      var encrypted := libs.unmarshalEncryptedData(libs.base64ToBytes(content).value);
      encrypted.Failure? ==> r == Failure(encrypted.error)
    ensures libs.unwrapKey(wrappedKey, key).Success? && content != "" && libs.base64ToBytes(content).Success?
            && libs.unmarshalEncryptedData(libs.base64ToBytes(content).value).Success? ==>
      var encrypted := libs.unmarshalEncryptedData(libs.base64ToBytes(content).value).value;
      var deciphered := DecipherAes(libs, libs.unwrapKey(wrappedKey, key).value, encrypted.iv, encrypted.cipherText);
      (deciphered.Failure? ==> r == Failure(deciphered.error))
      && (deciphered.Success? && libs.unmarshalAttributeList(deciphered.value).Failure? ==>
            r == Failure(libs.unmarshalAttributeList(deciphered.value).error))
      && (deciphered.Success? && libs.unmarshalAttributeList(deciphered.value).Success? ==>
            r == Success(Some(libs.unmarshalAttributeList(deciphered.value).value)))
  {
    var unwrappedKey :- libs.unwrapKey(wrappedKey, key);
    if content == "" then Success(None)
    else
      var contentBytes :- libs.base64ToBytes(content);
      var encryptedData :- libs.unmarshalEncryptedData(contentBytes);
      var deciphered :- DecipherAes(libs, unwrappedKey, encryptedData.iv, encryptedData.cipherText);
      var attributeList :- libs.unmarshalAttributeList(deciphered);
      Success(Some(attributeList))
  }

  /** The whole decryption succeeds on content built the way the test
      helper builds it. */
  lemma DecryptPaddedContent(libs: Libraries, key: PrivateKey, wrappedKey: string, content: string,
                             unwrapped: seq<byte>, contentBytes: seq<byte>, data: EncryptedData,
                             plain: seq<byte>, attrs: seq<Attribute>)
    requires content != ""
    requires libs.unwrapKey(wrappedKey, key) == Success(unwrapped)
    requires libs.base64ToBytes(content) == Success(contentBytes)
    requires libs.unmarshalEncryptedData(contentBytes) == Success(data)
    requires libs.cbcDecrypt(unwrapped, data.iv, data.cipherText) == Success(Pkcs7.Pad(plain, AesBlockSize))
    requires libs.unmarshalAttributeList(plain) == Success(attrs)
    ensures DecryptProfileContent(libs, key, wrappedKey, content) == Success(Some(attrs))
  {
    DecipherPadded(libs, unwrapped, data.iv, data.cipherText, plain);
  }

  /** `decryptCurrentUserReceipt`: the other party's profile content. */
  function DecryptCurrentUserReceipt(libs: Libraries, receipt: Receipt, key: PrivateKey): (r: Result<Option<seq<Attribute>>, Error>)
    ensures libs.unwrapKey(receipt.wrappedReceiptKey, key).Failure? ==> r.Failure?
    ensures r == Success(None) <==> libs.unwrapKey(receipt.wrappedReceiptKey, key).Success? && receipt.otherPartyProfileContent == ""
    ensures r == DecryptProfileContent(libs, key, receipt.wrappedReceiptKey, receipt.otherPartyProfileContent)
  {
    DecryptProfileContent(libs, key, receipt.wrappedReceiptKey, receipt.otherPartyProfileContent)
  }

  /** `decryptCurrentApplicationProfile`: the application's profile content,
      under a second unwrap of the same key. */
  function DecryptCurrentApplicationProfile(libs: Libraries, receipt: Receipt, key: PrivateKey): (r: Result<Option<seq<Attribute>>, Error>)
    ensures libs.unwrapKey(receipt.wrappedReceiptKey, key).Failure? ==> r.Failure?
    ensures r == Success(None) <==> libs.unwrapKey(receipt.wrappedReceiptKey, key).Success? && receipt.profileContent == ""
    ensures r == DecryptProfileContent(libs, key, receipt.wrappedReceiptKey, receipt.profileContent)
  {
    DecryptProfileContent(libs, key, receipt.wrappedReceiptKey, receipt.profileContent)
  }

  /** `createAttributeSlice`: a copy of the list, empty for a nil list. */
  function CreateAttributeSlice(list: Option<seq<Attribute>>): (slice: seq<Attribute>)
    ensures list.None? ==> slice == []
    ensures list.Some? ==> slice == list.value
  {
    if list.Some? then [] + list.value else []
  }

  /** The first attribute of the slice with the given name. */
  function FindFirst(slice: seq<Attribute>, name: string): (r: Option<Attribute>)
    ensures r.None? <==> forall i :: 0 <= i < |slice| ==> slice[i].name != name
    ensures r.Some? ==>
      exists i :: 0 <= i < |slice| && slice[i] == r.value && r.value.name == name
        && forall j :: 0 <= j < i ==> slice[j].name != name
    decreases |slice|
  {
    if slice == [] then None
    else if slice[0].name == name then Some(slice[0])
    else
      var r := FindFirst(slice[1..], name);
      assert forall i :: 1 <= i < |slice| ==> slice[i] == slice[1..][i - 1];
      r
  }

  /** `getProtobufAttribute`: the loop looks for the structured postal
      address whatever `key` is. */
  method GetProtobufAttribute(profile: Profile, key: string) returns (r: Option<Attribute>)
    ensures r == FindFirst(profile.attributeSlice, AttrStructuredPostalAddress)
  {
    var slice := profile.attributeSlice;
    var i := 0;
    while i < |slice|
      invariant 0 <= i <= |slice|
      invariant FindFirst(slice[i..], AttrStructuredPostalAddress) == FindFirst(slice, AttrStructuredPostalAddress)
    {
      if slice[i].name == AttrStructuredPostalAddress {
        return Some(slice[i]);
      }
      assert slice[i..][1..] == slice[i + 1..];
      i := i + 1;
    }
    return None;
  }

  /** `Profile.StructuredPostalAddress()`: the first attribute under that
      name, parsed as JSON; none is not an error. */
  function StructuredPostalAddressOf(libs: Libraries, profile: Profile): (r: Result<Option<JsonValue>, Error>)
    ensures FindFirst(profile.attributeSlice, AttrStructuredPostalAddress).None? ==> r == Success(None)
    ensures r.Success? && r.value.Some? ==>
      FindFirst(profile.attributeSlice, AttrStructuredPostalAddress).Some?
    ensures FindFirst(profile.attributeSlice, AttrStructuredPostalAddress).Some? ==>
      var json := libs.unmarshalJSON(FindFirst(profile.attributeSlice, AttrStructuredPostalAddress).value.value);
      (json.Failure? ==> r == Failure(json.error)) && (json.Success? ==> r == Success(Some(json.value)))
  {
    match FindFirst(profile.attributeSlice, AttrStructuredPostalAddress)
    case None => Success(None)
    case Some(a) =>
      match libs.unmarshalJSON(a.value)
      case Failure(e) => Failure(e)
      case Success(j) => Success(Some(j))
  }

  /** `ensureAddressProfile`. The `reflect.DeepEqual` test compares a
      pointer with a struct value, which never holds, so the guard is only
      "not nil". */
  function EnsureAddressProfile(libs: Libraries, profile: Profile): (r: Outcome<Result<string, Error>>)
    ensures FindFirst(profile.attributeSlice, AttrAddress).Some? ==> r == Returned(Success(""))
    ensures r.Returned? && r.value.Success? && r.value.value != "" ==>
      FindFirst(profile.attributeSlice, AttrAddress).None?
      && StructuredPostalAddressOf(libs, profile).Success?
      && FindFirst(profile.attributeSlice, AttrStructuredPostalAddress).Some?
    ensures r.Panicked? <==>
      FindFirst(profile.attributeSlice, AttrAddress).None?
      && StructuredPostalAddressOf(libs, profile).Success? && StructuredPostalAddressOf(libs, profile).value.Some?
      && AttributeMapper.RetrieveFormattedAddress(StructuredPostalAddressOf(libs, profile).value.value).Panicked?
    ensures FindFirst(profile.attributeSlice, AttrAddress).None? && StructuredPostalAddressOf(libs, profile).Failure? ==>
      r == Returned(Failure(StructuredPostalAddressOf(libs, profile).error))
    ensures FindFirst(profile.attributeSlice, AttrAddress).None? && StructuredPostalAddressOf(libs, profile) == Success(None) ==>
      r == Returned(Success(""))
    ensures FindFirst(profile.attributeSlice, AttrAddress).None?
            && StructuredPostalAddressOf(libs, profile).Success? && StructuredPostalAddressOf(libs, profile).value.Some?
            && AttributeMapper.RetrieveFormattedAddress(StructuredPostalAddressOf(libs, profile).value.value).Returned? ==>
      r == Returned(Success(AttributeMapper.RetrieveFormattedAddress(StructuredPostalAddressOf(libs, profile).value.value).value))
    ensures r.Returned? && r.value.Success? ==> IsByteString(r.value.value)
  {
    if FindFirst(profile.attributeSlice, AttrAddress).None? then
      match StructuredPostalAddressOf(libs, profile)
      case Failure(e) => Returned(Failure(e))
      case Success(None) => Returned(Success(""))
      case Success(Some(j)) =>
        var formattedAddress :- AttributeMapper.RetrieveFormattedAddress(j);
        Returned(Success(formattedAddress))
    else Returned(Success(""))
  }

  /** The attribute built from a formatted address. */
  function AddressAttribute(formattedAddress: string, anchors: seq<Anchor>): (a: Attribute)
    ensures a.name == AttrAddress && a.contentType == STRING && a.anchors == anchors
    ensures IsByteString(formattedAddress) ==> GoString(a.value) == formattedAddress
  {
    var a := Attribute(AttrAddress, StringBytes(formattedAddress), STRING, anchors);
    assert IsByteString(formattedAddress) ==> GoString(a.value) == formattedAddress by {
      if IsByteString(formattedAddress) {
        StringBytesRoundTrip(formattedAddress);
      }
    }
    a
  }

  /** Lines 284-293: the address attribute goes last and carries the
      anchors of the structured postal address; with none, the anchor read
      dereferences nil. */
  function ProfileWithAddress(profile: Profile, formattedAddress: string): (r: Outcome<Profile>)
    ensures r.Panicked? <==> FindFirst(profile.attributeSlice, AttrStructuredPostalAddress).None?
    ensures r.Returned? ==>
      r.value.attributeSlice == profile.attributeSlice + [AddressAttribute(formattedAddress, FindFirst(profile.attributeSlice, AttrStructuredPostalAddress).value.anchors)]
  {
    match FindFirst(profile.attributeSlice, AttrStructuredPostalAddress)
    case None => Panicked
    case Some(spa) =>
      Returned(Profile(profile.attributeSlice + [AddressAttribute(formattedAddress, spa.anchors)]))
  }

  /** The three results of `handleSuccessfulResponse`. */
  datatype HandledResponse = HandledResponse(userProfile: UserProfile, activity: ActivityDetails, errs: seq<Error>)

  /** An early return: zero profile and activity, one error. */
  function Failed(e: Error): (h: HandledResponse)
    ensures h.errs == [e] && h.userProfile == ZeroUserProfile() && h.activity == ZeroActivityDetails()
  {
    HandledResponse(ZeroUserProfile(), ZeroActivityDetails(), [e])
  }

  function ActivityOf(receipt: Receipt, profile: Profile, appProfile: Profile): (d: ActivityDetails)
    ensures d.rememberMeID == receipt.rememberMeID && d.parentRememberMeID == receipt.parentRememberMeID
    ensures d.timestamp == receipt.timestamp && d.receiptID == receipt.receiptID
    ensures d.userProfile == profile && d.applicationProfile == appProfile
  {
    ActivityDetails(profile, receipt.rememberMeID, receipt.parentRememberMeID, receipt.timestamp, receipt.receiptID, appProfile)
  }

  /** What `handleSuccessfulResponse` returns; `Panicked` where one of the
      unchecked type assertions of the address retrieval fails. */
  function HandleResponse(libs: Libraries, responseContent: string, key: PrivateKey): (r: Outcome<HandledResponse>)
    ensures r.Returned? ==> |r.value.errs| <= 1
  {
    match libs.unmarshalResponse(responseContent)
    case Failure(e) => Returned(Failed(e))
    case Success(receipt) =>
      if receipt.sharingOutcome != SharingOutcomeSuccess then Returned(Failed(SharingFailure))
      else
        match DecryptCurrentUserReceipt(libs, receipt, key)
        case Failure(e) => Returned(Failed(e))
        case Success(attributeList) =>
          match DecryptCurrentApplicationProfile(libs, receipt, key)
          case Failure(e) => Returned(Failed(e))
          case Success(appAttributeList) =>
            var userProfile :- AttributeMapper.UserProfileOf(libs, receipt.rememberMeID, attributeList);
            var profile := Profile(CreateAttributeSlice(attributeList));
            var appProfile := Profile(CreateAttributeSlice(appAttributeList));
            var ensured :- EnsureAddressProfile(libs, profile);
            if ensured.Failure? || ensured.value == "" then
              Returned(HandledResponse(userProfile, ActivityOf(receipt, profile, appProfile), []))
            else
              match StructuredPostalAddressOf(libs, profile)
              case Failure(e) => Returned(HandledResponse(userProfile, ZeroActivityDetails(), [e]))
              case Success(_) =>
                match ProfileWithAddress(profile, ensured.value)
                case Panicked => Panicked
                case Returned(withAddress) =>
                  Returned(HandledResponse(userProfile, ActivityOf(receipt, withAddress, appProfile), []))
  }

  /** `handleSuccessfulResponse` step by step: errors are appended to
      `errStrings` and the synthesised address to the profile's slice. */
  method HandleSuccessfulResponse(libs: Libraries, responseContent: string, key: PrivateKey)
    returns (out: Outcome<HandledResponse>)
    ensures out == HandleResponse(libs, responseContent, key)
  {
    var userProfile := ZeroUserProfile();
    var activityDetails := ZeroActivityDetails();
    var errStrings: seq<Error> := [];
    var parsedResponse := libs.unmarshalResponse(responseContent);
    if parsedResponse.Failure? {
      errStrings := errStrings + [parsedResponse.error];
      assert HandledResponse(userProfile, activityDetails, errStrings) == Failed(parsedResponse.error);
      return Returned(HandledResponse(userProfile, activityDetails, errStrings));
    }
    var receipt := parsedResponse.value;
    if receipt.sharingOutcome != SharingOutcomeSuccess {
      errStrings := errStrings + [SharingFailure];
      assert HandledResponse(userProfile, activityDetails, errStrings) == Failed(SharingFailure);
    } else {
      var attributeList := DecryptCurrentUserReceipt(libs, receipt, key);
      if attributeList.Failure? {
        errStrings := errStrings + [attributeList.error];
        assert HandledResponse(userProfile, activityDetails, errStrings) == Failed(attributeList.error);
        return Returned(HandledResponse(userProfile, activityDetails, errStrings));
      }
      var appAttributeList := DecryptCurrentApplicationProfile(libs, receipt, key);
      if appAttributeList.Failure? {
        errStrings := errStrings + [appAttributeList.error];
        assert HandledResponse(userProfile, activityDetails, errStrings) == Failed(appAttributeList.error);
        return Returned(HandledResponse(userProfile, activityDetails, errStrings));
      }
      var id := receipt.rememberMeID;
      userProfile :- AttributeMapper.AddAttributesToUserProfile(libs, id, attributeList.value);
      var profile := Profile(CreateAttributeSlice(attributeList.value));
      var appProfile := Profile(CreateAttributeSlice(appAttributeList.value));
      var formattedAddress :- EnsureAddressProfile(libs, profile);
      if formattedAddress.Success? && formattedAddress.value != "" {
        match StructuredPostalAddressOf(libs, profile) {
          case Failure(e) =>
            errStrings := errStrings + [e];
            return Returned(HandledResponse(userProfile, activityDetails, errStrings));
          case Success(_) =>
        }
        var protoStructuredPostalAddress := GetProtobufAttribute(profile, AttrStructuredPostalAddress);
        if protoStructuredPostalAddress.None? {
          return Panicked;
        }
        var addressAttribute := AddressAttribute(formattedAddress.value, protoStructuredPostalAddress.value.anchors);
        profile := profile.(attributeSlice := profile.attributeSlice + [addressAttribute]);
      }
      activityDetails := ActivityDetails(profile, id, receipt.parentRememberMeID, receipt.timestamp, receipt.receiptID, appProfile);
    }
    return Returned(HandledResponse(userProfile, activityDetails, errStrings));
  }

  // Properties of the response handling.

  /** A response that does not unmarshal gives that error alone and zero
      results (lines 241-244). */
  lemma ResponseDecodeFailureIsFatal(libs: Libraries, responseContent: string, key: PrivateKey)
    requires libs.unmarshalResponse(responseContent).Failure?
    ensures HandleResponse(libs, responseContent, key) == Returned(Failed(libs.unmarshalResponse(responseContent).error))
  {
  }

  /** A sharing outcome other than "SUCCESS" gives the sharing error and
      zero results, whatever the decryption libraries and the key would do. */
  lemma SharingFailureShortCircuits(libs: Libraries, other: Libraries, responseContent: string,
                                    key: PrivateKey, otherKey: PrivateKey)
    requires libs.unmarshalResponse(responseContent).Success?
    requires libs.unmarshalResponse(responseContent).value.sharingOutcome != SharingOutcomeSuccess
    requires other.unmarshalResponse(responseContent) == libs.unmarshalResponse(responseContent)
    ensures HandleResponse(libs, responseContent, key) == Returned(Failed(SharingFailure))
    ensures HandleResponse(other, responseContent, otherKey) == HandleResponse(libs, responseContent, key)
  {
  }

  /** A failure of either decryption is fatal: that error alone, no
      profile and no activity details. */
  lemma DecryptFailureIsFatal(libs: Libraries, responseContent: string, key: PrivateKey)
    requires libs.unmarshalResponse(responseContent).Success?
    requires libs.unmarshalResponse(responseContent).value.sharingOutcome == SharingOutcomeSuccess
    ensures var receipt := libs.unmarshalResponse(responseContent).value;
      DecryptCurrentUserReceipt(libs, receipt, key).Failure? ==>
        HandleResponse(libs, responseContent, key) == Returned(Failed(DecryptCurrentUserReceipt(libs, receipt, key).error))
    ensures var receipt := libs.unmarshalResponse(responseContent).value;
      DecryptCurrentUserReceipt(libs, receipt, key).Success? && DecryptCurrentApplicationProfile(libs, receipt, key).Failure? ==>
        HandleResponse(libs, responseContent, key) == Returned(Failed(DecryptCurrentApplicationProfile(libs, receipt, key).error))
  {
  }

  /** A wrapped key that does not unwrap is fatal even when the receipt
      carries no profile content at all. */
  lemma UnwrapFailureFatalWithoutContent(libs: Libraries, responseContent: string, key: PrivateKey)
    requires libs.unmarshalResponse(responseContent).Success?
    requires libs.unmarshalResponse(responseContent).value.sharingOutcome == SharingOutcomeSuccess
    requires libs.unmarshalResponse(responseContent).value.otherPartyProfileContent == ""
    requires libs.unmarshalResponse(responseContent).value.profileContent == ""
    requires libs.unwrapKey(libs.unmarshalResponse(responseContent).value.wrappedReceiptKey, key).Failure?
    ensures HandleResponse(libs, responseContent, key) ==
      Returned(Failed(libs.unwrapKey(libs.unmarshalResponse(responseContent).value.wrappedReceiptKey, key).error))
  {
  }

  /** The profile `handleSuccessfulResponse` puts in the activity details:
      the decrypted slice, with the synthesised address appended when one
      was found. */
  function ActivityProfile(libs: Libraries, slice: seq<Attribute>): Profile
    requires EnsureAddressProfile(libs, Profile(slice)).Returned?
  {
    var ensured := EnsureAddressProfile(libs, Profile(slice)).value;
    if ensured.Success? && ensured.value != "" then
      Profile(slice + [AddressAttribute(ensured.value, FindFirst(slice, AttrStructuredPostalAddress).value.anchors)])
    else Profile(slice)
  }

  /** The shape of a response handled without error: every step before the
      final assembly succeeded. */
  lemma HandledWithoutError(libs: Libraries, responseContent: string, key: PrivateKey)
    requires HandleResponse(libs, responseContent, key).Returned?
    requires HandleResponse(libs, responseContent, key).value.errs == []
    ensures libs.unmarshalResponse(responseContent).Success?
    ensures var receipt := libs.unmarshalResponse(responseContent).value;
      receipt.sharingOutcome == SharingOutcomeSuccess
      && DecryptCurrentUserReceipt(libs, receipt, key).Success?
      && DecryptCurrentApplicationProfile(libs, receipt, key).Success?
      && var list := DecryptCurrentUserReceipt(libs, receipt, key).value;
      var slice := CreateAttributeSlice(list);
      AttributeMapper.UserProfileOf(libs, receipt.rememberMeID, list).Returned?
      && EnsureAddressProfile(libs, Profile(slice)).Returned?
      && HandleResponse(libs, responseContent, key).value ==
           HandledResponse(AttributeMapper.UserProfileOf(libs, receipt.rememberMeID, list).value,
                           ActivityOf(receipt, ActivityProfile(libs, slice),
                                      Profile(CreateAttributeSlice(DecryptCurrentApplicationProfile(libs, receipt, key).value))),
                           [])
  {
    var receipt := libs.unmarshalResponse(responseContent).value;
    var list := DecryptCurrentUserReceipt(libs, receipt, key).value;
    var slice := CreateAttributeSlice(list);
    var ensured := EnsureAddressProfile(libs, Profile(slice));
    if ensured.Returned? && ensured.value.Success? && ensured.value.value != "" {
      assert StructuredPostalAddressOf(libs, Profile(slice)).Success?;
      assert FindFirst(slice, AttrStructuredPostalAddress).Some?;
    }
  }

  /** On success the receipt's metadata reaches the activity details
      unchanged, and the application profile is the decrypted list. */
  lemma MetadataPassesThrough(libs: Libraries, responseContent: string, key: PrivateKey)
    requires HandleResponse(libs, responseContent, key).Returned?
    requires HandleResponse(libs, responseContent, key).value.errs == []
    ensures libs.unmarshalResponse(responseContent).Success?
    ensures var receipt := libs.unmarshalResponse(responseContent).value;
      var d := HandleResponse(libs, responseContent, key).value.activity;
      receipt.sharingOutcome == SharingOutcomeSuccess
      && d.rememberMeID == receipt.rememberMeID
      && d.parentRememberMeID == receipt.parentRememberMeID
      && d.timestamp == receipt.timestamp
      && d.receiptID == receipt.receiptID
      && DecryptCurrentApplicationProfile(libs, receipt, key).Success?
      && d.applicationProfile.attributeSlice == CreateAttributeSlice(DecryptCurrentApplicationProfile(libs, receipt, key).value)
  {
    HandledWithoutError(libs, responseContent, key);
  }

  /** The activity profile is the decrypted list, followed by the
      synthesised address attribute exactly when one was found. */
  lemma AddressAppendedLast(libs: Libraries, responseContent: string, key: PrivateKey)
    requires HandleResponse(libs, responseContent, key).Returned?
    requires HandleResponse(libs, responseContent, key).value.errs == []
    ensures libs.unmarshalResponse(responseContent).Success?
    ensures var receipt := libs.unmarshalResponse(responseContent).value;
      DecryptCurrentUserReceipt(libs, receipt, key).Success?
      && var slice := CreateAttributeSlice(DecryptCurrentUserReceipt(libs, receipt, key).value);
      var ensured := EnsureAddressProfile(libs, Profile(slice));
      var got := HandleResponse(libs, responseContent, key).value.activity.userProfile.attributeSlice;
      ensured.Returned?
      && (ensured.value.Success? && ensured.value.value != "" ==>
            FindFirst(slice, AttrStructuredPostalAddress).Some?
            && got == slice + [AddressAttribute(ensured.value.value, FindFirst(slice, AttrStructuredPostalAddress).value.anchors)])
      && (ensured.value.Failure? || ensured.value.value == "" ==> got == slice)
  {
    HandledWithoutError(libs, responseContent, key);
  }

  /** Once both decryptions succeed no error is reported: after a
      formatted address was found, re-reading the structured postal address
      succeeds and the anchor read finds its attribute, so neither the
      error at lines 279-282 nor a nil dereference happens. */
  lemma NoErrorAfterDecryption(libs: Libraries, responseContent: string, key: PrivateKey)
    requires libs.unmarshalResponse(responseContent).Success?
    requires libs.unmarshalResponse(responseContent).value.sharingOutcome == SharingOutcomeSuccess
    requires DecryptCurrentUserReceipt(libs, libs.unmarshalResponse(responseContent).value, key).Success?
    requires DecryptCurrentApplicationProfile(libs, libs.unmarshalResponse(responseContent).value, key).Success?
    requires HandleResponse(libs, responseContent, key).Returned?
    ensures HandleResponse(libs, responseContent, key).value.errs == []
  {
    var receipt := libs.unmarshalResponse(responseContent).value;
    var list := DecryptCurrentUserReceipt(libs, receipt, key).value;
    var profile := Profile(CreateAttributeSlice(list));
    var ensured := EnsureAddressProfile(libs, profile);
    if ensured.Returned? && ensured.value.Success? && ensured.value.value != "" {
      assert StructuredPostalAddressOf(libs, profile).Success?;
      assert FindFirst(profile.attributeSlice, AttrStructuredPostalAddress).Some?;
    }
  }

  /** A structured postal address whose JSON is `null` makes the profile
      side panic at the unchecked type assertion, where the deprecated
      `ensureAddressUserProfile` skips a nil value. */
  lemma NullStructuredAddressPanics(libs: Libraries, profile: Profile)
    requires FindFirst(profile.attributeSlice, AttrAddress).None?
    requires FindFirst(profile.attributeSlice, AttrStructuredPostalAddress).Some?
    requires libs.unmarshalJSON(FindFirst(profile.attributeSlice, AttrStructuredPostalAddress).value.value) == Success(JNull)
    ensures EnsureAddressProfile(libs, profile).Panicked?
  {
  }

  /** Once the receipt is decrypted, `handleSuccessfulResponse` panics
      exactly where `addAttributesToUserProfile` or `ensureAddressProfile`
      panics; the nil dereference of the anchor read never happens. */
  lemma HandleResponsePanicsIff(libs: Libraries, responseContent: string, key: PrivateKey)
    requires libs.unmarshalResponse(responseContent).Success?
    requires libs.unmarshalResponse(responseContent).value.sharingOutcome == SharingOutcomeSuccess
    requires DecryptCurrentUserReceipt(libs, libs.unmarshalResponse(responseContent).value, key).Success?
    requires DecryptCurrentApplicationProfile(libs, libs.unmarshalResponse(responseContent).value, key).Success?
    ensures var receipt := libs.unmarshalResponse(responseContent).value;
      var list := DecryptCurrentUserReceipt(libs, receipt, key).value;
      HandleResponse(libs, responseContent, key).Panicked? <==>
        AttributeMapper.UserProfileOf(libs, receipt.rememberMeID, list).Panicked?
        || EnsureAddressProfile(libs, Profile(CreateAttributeSlice(list))).Panicked?
  {
  }

  /** The deprecated `UserProfile` of a response handled without error is
      the mapping of the decrypted attribute list under the remember-me ID. */
  lemma UserProfileIsMapped(libs: Libraries, responseContent: string, key: PrivateKey)
    requires HandleResponse(libs, responseContent, key).Returned?
    requires HandleResponse(libs, responseContent, key).value.errs == []
    ensures libs.unmarshalResponse(responseContent).Success?
    ensures var receipt := libs.unmarshalResponse(responseContent).value;
      DecryptCurrentUserReceipt(libs, receipt, key).Success?
      && var mapped := AttributeMapper.UserProfileOf(libs, receipt.rememberMeID, DecryptCurrentUserReceipt(libs, receipt, key).value);
      mapped.Returned? && HandleResponse(libs, responseContent, key).value.userProfile == mapped.value
  {
    HandledWithoutError(libs, responseContent, key);
  }

  /** `GetUserProfile` reports the first collected error only. */
  function FirstError(errs: seq<Error>): (e: Option<Error>)
    ensures e.None? <==> errs == []
    ensures e.Some? ==> e.value == errs[0]
  {
    if |errs| > 0 then Some(errs[0]) else None
  }

  /** `GetUserProfile`: the deprecated profile with the first error. */
  function GetUserProfile(h: HandledResponse): (r: (UserProfile, Option<Error>))
    ensures r.0 == h.userProfile
    ensures r.1.None? <==> h.errs == []
    ensures r.1.Some? ==> r.1.value == h.errs[0]
  {
    (h.userProfile, FirstError(h.errs))
  }
}
