/** The values the receipt pipeline of `yoticlient.go` passes around: the
    decoded receipt, protobuf attributes, the two profile shapes and the
    calls into libraries whose code is not part of this model. */
module YotiTypes {
  import opened Wrappers
  import opened GoStrings
  import ImageValue
  import Time

  /** Attribute names the client dispatches on (`AttrConst…`). */
  const AttrSelfie: string := "selfie"
  const AttrGivenNames: string := "given_names"
  const AttrFamilyName: string := "family_name"
  const AttrFullName: string := "full_name"
  const AttrMobileNumber: string := "phone_number"
  const AttrEmailAddress: string := "email_address"
  const AttrDateOfBirth: string := "date_of_birth"
  const AttrAddress: string := "postal_address"
  const AttrStructuredPostalAddress: string := "structured_postal_address"
  const AttrGender: string := "gender"
  const AttrNationality: string := "nationality"

  const SharingOutcomeSuccess: string := "SUCCESS"

  /** `yotiprotoattr.ContentType`; `OTHER` stands for every tag the client
      does not name (UNDEFINED and any later addition). */
  datatype ContentType = STRING | JPEG | DATE | PNG | JSON | OTHER(tag: int)

  /** An anchor is carried along, never inspected. */
  datatype Anchor = Anchor(content: seq<byte>)

  /** `yotiprotoattr.Attribute`. */
  datatype Attribute = Attribute(name: string, value: seq<byte>, contentType: ContentType, anchors: seq<Anchor>)

  /** `AttributeType` of the deprecated `UserProfile.OtherAttributes`. */
  datatype AttributeType = TypeDate | TypeText | TypeJPEG | TypePNG | TypeJSON

  datatype AttributeValue = AttributeValue(valueType: AttributeType, value: seq<byte>)

  /** A Go string: every character is a byte. */
  type ByteString = s: string | IsByteString(s)

  /** What `json.Unmarshal` into an `interface{}` produces; `JNull` is the
      nil interface. Numbers keep their literal text; a string member is a
      Go string, so its characters are bytes (UTF-8 encoded). */
  datatype JsonValue =
    | JNull
    | JBool(b: bool)
    | JNumber(literal: string)
    | JString(s: ByteString)
    | JArray(items: seq<JsonValue>)
    | JObject(members: map<string, JsonValue>)

  /** The deprecated flat `UserProfile` struct; pointer fields are options. */
  datatype UserProfile = UserProfile(
    id: string,
    selfie: Option<ImageValue.Image>,
    givenNames: string,
    familyName: string,
    fullName: string,
    mobileNumber: string,
    emailAddress: string,
    dateOfBirth: Option<Time.Date>,
    address: string,
    structuredPostalAddress: JsonValue,
    gender: string,
    nationality: string,
    isAgeVerified: Option<bool>,
    otherAttributes: map<string, AttributeValue>)

  /** The zero `UserProfile`, which is what an early return hands back. */
  function ZeroUserProfile(): (u: UserProfile)
    ensures u.id == "" && u.otherAttributes == map[] && u.selfie.None?
  {
    UserProfile("", None, "", "", "", "", "", None, "", JNull, "", "", None, map[])
  }

  /** `receiptDO`, the part of the response the client reads. */
  datatype Receipt = Receipt(
    sharingOutcome: string,
    wrappedReceiptKey: string,
    otherPartyProfileContent: string,
    profileContent: string,
    rememberMeID: string,
    parentRememberMeID: string,
    receiptID: string,
    timestamp: string)

  /** `yotiprotocom.EncryptedData`. */
  datatype EncryptedData = EncryptedData(iv: seq<byte>, cipherText: seq<byte>)

  /** `Profile` and `ApplicationProfile`: both are a `baseProfile` holding
      an attribute slice. */
  datatype Profile = Profile(attributeSlice: seq<Attribute>)

  datatype ActivityDetails = ActivityDetails(
    userProfile: Profile,
    rememberMeID: string,
    parentRememberMeID: string,
    timestamp: string,
    receiptID: string,
    applicationProfile: Profile)

  function ZeroActivityDetails(): (d: ActivityDetails)
    ensures d.userProfile.attributeSlice == [] && d.applicationProfile.attributeSlice == []
    ensures d.rememberMeID == "" && d.receiptID == ""
  {
    ActivityDetails(Profile([]), "", "", "", "", Profile([]))
  }

  /** The errors the pipeline can report. `HttpError` holds the selected
      format template and the two values it is formatted with. */
  datatype Error =
    | SharingFailure
    | PaddingError
    | HttpError(template: string, statusCode: int, body: seq<byte>)
    | LibraryError(message: string)

  /** The parsed RSA private key is only handed on to the key unwrap. */
  datatype PrivateKey = PrivateKey(der: seq<byte>)

  /** The library calls the pipeline makes, each of which may fail:
      `json.Unmarshal` of the response, the RSA unwrap of the receipt key,
      `base64ToBytes`, `proto.Unmarshal` into `EncryptedData` and into an
      `AttributeList`, the AES-CBC block decryption inside `decipherAes`,
      and `attribute.UnmarshallJSON`. */
  datatype Libraries = Libraries(
    unmarshalResponse: string -> Result<Receipt, Error>,
    unwrapKey: (string, PrivateKey) -> Result<seq<byte>, Error>,
    base64ToBytes: string -> Result<seq<byte>, Error>,
    unmarshalEncryptedData: seq<byte> -> Result<EncryptedData, Error>,
    cbcDecrypt: (seq<byte>, seq<byte>, seq<byte>) -> Result<seq<byte>, Error>,
    unmarshalAttributeList: seq<byte> -> Result<seq<Attribute>, Error>,
    unmarshalJSON: seq<byte> -> Result<JsonValue, Error>)
}
