# Yoti Go SDK core in Dafny

This project models the part of the Yoti Go SDK that turns a profile
response from the Yoti API into a user profile. The steps are:

- check that the sharing outcome is `SUCCESS`;
- unwrap the receipt key with the relying party's RSA key;
- base64-decode, unmarshal and AES-CBC-decrypt the two encrypted profiles, then remove their PKCS#7 padding;
- map every protobuf attribute onto the fields of `UserProfile`;
- synthesise `postal_address` from the `formatted_address` member of the structured postal address when no address was shared;
- assemble the `ActivityDetails`.

Around that pipeline the model also covers several smaller pieces:

- the HTTP side: the choice of error message template for a status code, the 2xx rule, the API URL override and the default SDK headers;
- the first-error rule of `GetUserProfile`;
- the `media` value type and the `image` helper, with their data URLs;
- the PKCS#7 padding the client's tests use to build encrypted receipts.

## How the model is organised

Each Go package or concern is one Dafny module.

| file | module | models |
|---|---|---|
| `wrappers.dfy` | `Wrappers` | `Option`, `Result` (an error return), `Outcome` (a Go panic) |
| `gostrings.dfy` | `GoStrings` | Go's `string(b)` / `[]byte(s)` conversions (a string is a sequence of byte-valued characters) |
| `base64.dfy` | `Base64` | `base64.StdEncoding`, section 4 of RFC 4648, with padding |
| `timeparse.dfy` | `Time` | `time.Parse("2006-01-02", s)` and the calendar rules it enforces |
| `strconv.dfy` | `Strconv` | `strconv.ParseBool` |
| `pkcs7.dfy` | `Pkcs7` | PKCS#7 padding (section 6.3 of RFC 5652) and its removal |
| `media.dfy` | `MediaValue` | `media.Media`, `NewMedia`, `Base64URL` |
| `image.dfy` | `ImageValue` | `Image`, `GetContentType`, `URL` |
| `types.dfy` | `YotiTypes` | attribute names, protobuf attributes, `UserProfile`, `Profile`, `ActivityDetails`, the receipt, errors, and the library calls as parameters |
| `mapper.dfy` | `AttributeMapper` | `addAttributesToUserProfile`, `parseIsAgeVerifiedValue`, `ensureAddressUserProfile`, `retrieveFormattedAddressFromStructuredPostalAddress` |
| `receipt.dfy` | `ReceiptHandling` | decryption of the two profiles, `createAttributeSlice`, `getProtobufAttribute`, `ensureAddressProfile`, `handleSuccessfulResponse`, `GetUserProfile` |
| `http.dfy` | `HttpErrors` | `handleHTTPError`, the 2xx check of `makeRequest`, `Client` with `OverrideAPIURL`, `getAPIURL` and `getDefaultHeaders` |

The source's loops stay loops:

- `AttributeMapper.AddAttributesToUserProfile` walks the attribute list;
- `ReceiptHandling.GetProtobufAttribute` walks the attribute slice;
- `HttpErrors.HandleHTTPError` has the source's two nested loops;
- `ReceiptHandling.HandleSuccessfulResponse` keeps the early returns that append one error.

Each of these methods is proved equal to a specification function: `UserProfileOf`, `FindFirst`, `SelectTemplate` and `HandleResponse`. The properties are then proved about those functions. The client is a `class`, because `OverrideAPIURL` updates its `apiURL` field in place.

### Library calls, panics and nil

The RSA unwrap, AES-CBC, `base64ToBytes`, `proto.Unmarshal`, `json.Unmarshal` and the response unmarshalling are calls into code outside the model. Each is a function-typed field of `YotiTypes.Libraries`, and every property holds for any behaviour of those functions.

A Go panic is `Outcome.Panicked`. The model has two sources of panics:

- the unchecked type assertions in `retrieveFormattedAddressFromStructuredPostalAddress`: a structured address that is not a JSON object (JSON `null` included) fails the assertion to `map[string]interface{}`, and a non-string `formatted_address` fails the assertion to `string`;
- dereferencing the nil attribute that `getProtobufAttribute` returns when the profile has no structured postal address.

JSON `null`, which is the Go nil interface, is `JNull`.

### Go map iteration order

`handleHTTPError` ranges over Go maps, and Go leaves the order of that iteration unspecified. The method therefore takes the order as a parameter: one sequence of keys per handler, each holding exactly that handler's keys (Go visits each key once; the proof needs only that the set of keys is the same). The proved result does not depend on the order, because at most one key can equal the status code.

## Model

| member | source | states |
|---|---|---|
| GoStrings.BytesStringRoundTrip | image.go:28-30 | converting bytes to a Go string and back gives the same bytes, and every character of that string is a byte value |
| GoStrings.StringBytesRoundTrip | yoticlient.go:286-291 | converting a byte-valued string to bytes and back gives the same string |
| Base64.EncodeToString | media/mediavalue.go:57-60 | the encoding of n bytes is 4 * ceil(n / 3) characters long |
| Base64.EncodeUsesAlphabet | media/mediavalue.go:57-60 | every character of an encoding is from the standard alphabet or is `=` |
| Base64.EncodeEmptyIffEmpty | media/mediavalue.go:57-60 | the encoding is empty exactly when the data is empty |
| Base64.DecodeEncode | media/mediavalue.go:57-60 | strict decoding of the standard encoding gives back the data |
| Base64.EncodeDecode | media/mediavalue.go:57-60 | every string the strict decoder accepts is the encoding of what it decodes to, so the encoding is canonical |
| MediaValue.Media.Base64URL | media/mediavalue.go:49-51 | the URL is `data:` + MIME type + `;base64,` followed by the standard base64 of the value's data |
| MediaValue.Base64DataURL | media/mediavalue.go:57-60 | starts with the `data:<mime>;base64,` prefix; the rest decodes back to exactly the data; the length is the prefix plus 4 * ceil(n / 3) |
| MediaValue.Media.MIME | media/mediavalue.go:45-47 | a JPEG value reports `image/jpeg`, a PNG value `image/png`, a generic value the MIME type it was built with |
| MediaValue.Media.Data | media/mediavalue.go:53-55 | every variant returns exactly the bytes it was built with |
| MediaValue.NewGeneric | media/mediavalue.go:38-43 | builds a generic value whose `MIME()` and `Data()` are the arguments |
| MediaValue.NewMedia | media/mediavalue.go:22-31 | `image/jpeg` gives the JPEG variant, `image/png` the PNG variant, anything else a generic value; MIME type and data are kept in every case |
| MediaValue.ImageDataURLPrefixes | media/mediavalue.go:22-31 | JPEG and PNG values produce `data:image/jpeg;base64,` and `data:image/png;base64,` URLs |
| MediaValue.EncodeValue | media/mediavalue.go:57-60 | the bytes of `value` encode to `dmFsdWU=` |
| ImageValue.Image.GetContentType | image.go:15-26 | `image/jpeg` exactly for the JPEG constant, `image/png` exactly for the PNG constant, empty for every other type |
| ImageValue.Image.URL | image.go:28-30 | the URL is `data:application/octet-stream;` + content type + `;,` followed by the raw image bytes, without encoding; the suffix is a Go string, so it is exactly `string(image.Data)` |
| ImageValue.ZeroImageURL | image.go:28-30 | an image of unknown type with no data has the URL `data:application/octet-stream;;,` |
| Pkcs7.PadLength | yoti_client_test.go:59-60 | the pad length is between 1 and the block size, brings the length to a block boundary, and is a whole block when the input is already aligned |
| Pkcs7.Pad | yoti_client_test.go:59-60 | the padded text is block-aligned and strictly longer than the input; it starts with the input; every added byte equals the number of added bytes |
| Pkcs7.ZeroIV | yoti_client_test.go:62 | the IV is one block of zero bytes |
| Pkcs7.Unpad | yoticlient.go:522-525 | removal succeeds only on a non-empty whole number of blocks; it drops between 1 and a block's worth of trailing bytes, each equal to the number dropped, and keeps the rest as a prefix |
| Pkcs7.UnpadPad | yoti_client_test.go:59-60 | removing the padding from padded text gives back the original |
| Pkcs7.PadUnpad | yoti_client_test.go:59-60 | padding removal accepts only padded text: padding what it returns gives back its input |
| Strconv.ParseBool | yoticlient.go:455-468 | accepts exactly `1 t T TRUE true True` as true and `0 f F FALSE false False` as false, and rejects everything else |
| Strconv.ParseFormatBool | yoticlient.go:455-468 | `true` and `false` parse back to the boolean they print |
| Time.DaysIn | yoticlient.go:342-348 | every month has 28 to 31 days, and February has 29 exactly in leap years |
| Time.ParseDate | yoticlient.go:342-348 | a date is accepted only in the shape `DDDD-DD-DD`, and only if the month and day exist in that year |
| Time.ParseFormat | yoticlient.go:342-348 | every date the layout can express parses back from its own formatting |
| Time.FormatParse | yoticlient.go:342-348 | every accepted string is exactly the formatting of the parsed date, so the layout admits no alternative spellings |
| Time.LeapDayParsesIffLeapYear | yoticlient.go:342-348 | `YYYY-02-29` parses exactly when YYYY is a leap year |
| YotiTypes.ZeroUserProfile | yoticlient.go:237-307 | the zero profile has no ID, no selfie and no other attributes |
| YotiTypes.ZeroActivityDetails | yoticlient.go:237-307 | the zero activity details have empty profiles and no remember-me or receipt ID |
| AttributeMapper.ParseIsAgeVerifiedValue | yoticlient.go:455-468 | an age-verification value parses exactly when its text is one of `strconv.ParseBool`'s literals, and it is true exactly for the true literals |
| AttributeMapper.StoredType | yoticlient.go:376-397 | an unknown content type has no attribute type; every known content type has one |
| AttributeMapper.SelfieImage | yoticlient.go:320-331 | a selfie becomes an image exactly when its content type is JPEG or PNG, with that image type and the attribute's bytes |
| AttributeMapper.NewUserProfile | yoticlient.go:309-313 | the initial profile carries the ID and nothing else |
| AttributeMapper.ApplyAttribute | yoticlient.go:318-398 | one attribute never changes the profile's ID; a well-known name never touches the other-attributes map or the age-verification flag |
| AttributeMapper.NonImageSelfieIgnored | yoticlient.go:320-331 | a selfie that is neither JPEG nor PNG leaves the profile unchanged |
| AttributeMapper.UnknownContentTypeDropped | yoticlient.go:376-397 | an unrecognised attribute with an unknown content type leaves the profile unchanged |
| AttributeMapper.MapAttributes | yoticlient.go:318-399 | mapping a list never changes the profile's ID |
| AttributeMapper.ApplyStringField | yoticlient.go:332-362 | one attribute sets exactly the string field it names, to the text of its value, and leaves the other seven string fields alone |
| AttributeMapper.StringFieldLastWins | yoticlient.go:332-362 | each string field (given names, family name, full name, phone number, email address, postal address, gender, nationality) ends up holding the last attribute of that name, or keeps its old value when there is none |
| AttributeMapper.SelfieLastWins | yoticlient.go:320-331 | the selfie is the last selfie attribute with an image content type, or the old selfie when there is none |
| AttributeMapper.DateOfBirthLastWins | yoticlient.go:342-348 | the date of birth comes from the last date-of-birth attribute that parses; unparsable values are skipped |
| AttributeMapper.StructuredAddressLastWins | yoticlient.go:351-358 | the structured postal address comes from the last such attribute whose JSON unmarshals |
| AttributeMapper.AgeVerifiedLastWins | yoticlient.go:364-374 | the age-verification flag comes from the last `age_over:` / `age_under:` attribute whose value parses |
| AttributeMapper.OtherAttributesLastStored | yoticlient.go:363-397 | the other-attributes entry for a name is the last unrecognised attribute of that name with a known content type, or the old entry when there is none |
| AttributeMapper.WellKnownNeverStored | yoticlient.go:318-362 | no well-known attribute name ever appears in the other-attributes map of a mapped profile |
| AttributeMapper.RetrieveFormattedAddress | yoticlient.go:447-453 | panics exactly when the structured address is not a JSON object or its `formatted_address` is not a string; a missing member gives the empty string |
| AttributeMapper.EnsureAddressUserProfile | yoticlient.go:418-428 | an existing address or a nil structured address gives the empty string; otherwise the result is the `formatted_address` retrieval, panics included; no error in any case |
| AttributeMapper.SynthesiseAddress | yoticlient.go:400-405 | panics exactly when the lookup panics; a non-empty formatted address replaces the postal address and nothing else; otherwise the profile is unchanged |
| AttributeMapper.UserProfileOf | yoticlient.go:309-316 | a nil attribute list gives the initial profile; every returned profile has the given ID |
| AttributeMapper.AddAttributesToUserProfile | yoticlient.go:309-408 | the loop over the attribute list followed by address synthesis computes `UserProfileOf`, including its panics |
| ReceiptHandling.DecipherAes | yoticlient.go:522-525 | a CBC failure is returned unchanged; after a CBC success the result succeeds exactly when the PKCS#7 padding is well formed, fails with the padding error otherwise, and a success is the text whose padding is exactly the decrypted block |
| ReceiptHandling.DecipherPadded | yoti_client_test.go:59-62 | a ciphertext that decrypts to padded plaintext deciphers to that plaintext |
| ReceiptHandling.DecryptProfileContent | yoticlient.go:502-533 | the key unwrap comes first and its error is returned; empty content then gives no attribute list; each later failure (base64, `EncryptedData` unmarshal, `decipherAes` including bad padding, attribute-list unmarshal) is returned as it is; when every step succeeds the result is the attribute list unmarshalled from the deciphered bytes |
| ReceiptHandling.DecryptPaddedContent | yoticlient.go:502-533 | when every library step succeeds and the plaintext is padded, the decrypted list is the one unmarshalled from the unpadded plaintext |
| ReceiptHandling.DecryptCurrentUserReceipt | yoticlient.go:502-533 | the shared decryption applied to the other party's profile content: an unwrap failure is always an error, and the result is "no list" exactly when the unwrap succeeds and that content is empty |
| ReceiptHandling.DecryptCurrentApplicationProfile | yoticlient.go:469-500 | the shared decryption applied to the application's profile content, under a second unwrap of the same key, with the same failure and "no list" rules |
| ReceiptHandling.CreateAttributeSlice | yoticlient.go:410-416 | a nil list gives an empty slice; otherwise the slice is the list's attributes in order |
| ReceiptHandling.FindFirst | yoticlient.go:227-235 | nothing is found exactly when no attribute has the name; otherwise the result is the earliest attribute with the name |
| ReceiptHandling.GetProtobufAttribute | yoticlient.go:227-235 | the loop returns the first `structured_postal_address` attribute of the slice, whatever key is passed |
| ReceiptHandling.StructuredPostalAddressOf | yoticlient.go:430-445 | a profile without a structured postal address gives nil; otherwise the first such attribute's value is unmarshalled as JSON, and an unmarshal error is returned |
| ReceiptHandling.EnsureAddressProfile | yoticlient.go:430-445 | an existing `postal_address` gives the empty string; otherwise a structured-address error is returned, no structured address gives the empty string, and a parsed one gives its `formatted_address`; it panics exactly when no address exists and that retrieval panics; a result is always a Go string |
| ReceiptHandling.AddressAttribute | yoticlient.go:284-292 | the synthesised attribute is a `postal_address` STRING attribute with the structured address's anchors, and its bytes are the formatted address |
| ReceiptHandling.ProfileWithAddress | yoticlient.go:284-293 | panics exactly when the profile has no structured postal address attribute; otherwise it appends the synthesised address after the existing attributes |
| ReceiptHandling.ActivityOf | yoticlient.go:296-303 | the activity details carry the receipt's remember-me IDs, timestamp and receipt ID, and the two profiles |
| ReceiptHandling.HandleResponse | yoticlient.go:237-307 | a handled response never reports more than one error |
| ReceiptHandling.HandleSuccessfulResponse | yoticlient.go:237-307 | the step-by-step handler with its early returns computes `HandleResponse`, including its panics |
| ReceiptHandling.ResponseDecodeFailureIsFatal | yoticlient.go:241-244 | a response that does not unmarshal yields exactly that error and zero values |
| ReceiptHandling.SharingFailureShortCircuits | yoticlient.go:246-248 | a sharing outcome other than `SUCCESS` yields exactly the sharing-failure error and zero values, whatever the key and the decryption libraries |
| ReceiptHandling.DecryptFailureIsFatal | yoticlient.go:250-258 | a failure to decrypt either profile yields just that error and zero values |
| ReceiptHandling.UnwrapFailureFatalWithoutContent | yoticlient.go:502-510 | a receipt key that cannot be unwrapped is fatal even when both profile contents are empty |
| ReceiptHandling.HandledWithoutError | yoticlient.go:237-307 | a response handled without error has passed every step, and its results are the mapped user profile and the activity details built from the decrypted slice, with the address appended when one was found |
| ReceiptHandling.UserProfileIsMapped | yoticlient.go:259-261 | the user profile handed back is `addAttributesToUserProfile` of the decrypted list under the remember-me ID |
| ReceiptHandling.HandleResponsePanicsIff | yoticlient.go:259-294 | after both decryptions succeed, the handler panics exactly when the deprecated mapping or `ensureAddressProfile` panics |
| ReceiptHandling.NullStructuredAddressPanics | yoticlient.go:430-453 | a structured postal address whose JSON is `null`, with no postal address, makes `ensureAddressProfile` panic |
| ReceiptHandling.MetadataPassesThrough | yoticlient.go:296-303 | a successful response carries the receipt's remember-me IDs, timestamp and receipt ID unchanged |
| ReceiptHandling.AddressAppendedLast | yoticlient.go:274-294 | after success, the profile's attributes are the decrypted ones, possibly followed by one synthesised `postal_address` |
| ReceiptHandling.NoErrorAfterDecryption | yoticlient.go:274-294 | once both decryptions succeed, no error is reported |
| ReceiptHandling.FirstError | yoticlient.go:83-90 | no error exactly when the error list is empty; otherwise the first one |
| ReceiptHandling.GetUserProfile | yoticlient.go:83-90 | returns the user profile together with the first error of the list, or nil when the list is empty |
| HttpErrors.SelectTemplateFirstMatch | yoticlient.go:148-166 | the first handler that has the status code, or a `-1` default, decides the template |
| HttpErrors.SelectTemplateNoMatch | yoticlient.go:168-172 | when no handler has the code or a default, the built-in unknown-error template is used |
| HttpErrors.LaterHandlersIgnored | yoticlient.go:148-166 | handlers after the first matching one have no influence |
| HttpErrors.ProfileErrorTemplates | yoticlient.go:127-133 | for the profile request, 404 selects "Profile Not Found" and every other code the default unknown-error template |
| HttpErrors.HandleHTTPError | yoticlient.go:141-173 | for every iteration order of the maps, the nested loops return the error built from the selected template, the status code and the body |
| HttpErrors.MakeRequestResponse | yoticlient.go:213-224 | success exactly for a 2xx status whose body was read without error, and the body is returned as the Go string of exactly its bytes; a 2xx status with a read error returns that error; any other status gives the `handleHTTPError` error |
| HttpErrors.Client.constructor | yoticlient.go:51-65 | a new client has the given SDK ID and key, and no API URL override |
| HttpErrors.Client.OverrideAPIURL | yoticlient.go:76-78 | sets the override and nothing else; afterwards the API URL is the override, or the default when the override is empty |
| HttpErrors.Client.GetAPIURL | yoticlient.go:92-97 | never empty: the override when set, `https://api.yoti.com/api/v1` otherwise |
| HttpErrors.Client.GetDefaultHeaders | yoticlient.go:175-181 | exactly the headers `X-Yoti-SDK: [Go]` and `X-Yoti-SDK-Version: [Go-2.5.0]` |

## Left out

- HTTP transport, `doRequest`, request signing and payload construction are not modelled. `makeRequest` is modelled from the point where a status code and a body exist.
- `loadRsaKey`, `decryptToken`, `getActivityDetails`, `GetActivityDetails`, `GetSdkID` and the AML check are not modelled. They are I/O and key handling outside the receipt pipeline.
- RSA PKCS#1 v1.5 key unwrapping, AES-CBC block decryption, `base64ToBytes`, protobuf and JSON unmarshalling are parameters in `Libraries`, not implementations. The properties hold for any behaviour of them.
- AES-CBC's in-place `CryptBlocks` over a buffer is not modelled. Only its result as a value is, through `cbcDecrypt`.
- `profile.go` is not part of this model. `Profile.Address()` and `Profile.StructuredPostalAddress()` are modelled as "the first attribute of that name in the slice", with the structured address's JSON unmarshalled through the same library call. A JSON error from that call is reported as the library's error, without `NewJSON`'s own wrapping.
- `decipherAes` is not part of this model. Its behaviour is modelled as CBC decryption with the 16-byte AES block size followed by PKCS#7 padding removal, with a padding error on malformed padding. That is the behaviour the test helpers' `createExtraDataContent` relies on.
- `jpeg.go` and `png.go` of the `media` package are not part of this model. The JPEG and PNG variants of `Media` are modelled as values whose MIME type is `image/jpeg` or `image/png`.
- AttributeMapper.SelfieImage: `yoticlient.go` names the image types `ImageTypeJpeg` and `ImageTypePng`. `image.go` defines `ImageType_Jpeg` and `ImageType_Png`, which come from a different version of the API. The model takes them to be the same two constants.
- `AttrConstAddress` and `AttrConstStructuredPostalAddress` are used but not defined in the files this model covers. They are taken to be `"postal_address"` and `"structured_postal_address"`, the names of the Yoti attributes.
- A JSON string member is taken to be a Go string of bytes. `JString` holds only byte-valued characters, the UTF-8 encoding that `json.Unmarshal` produces.
- `ImageValue.Image.GetContentType`: the integer image-type constants are modelled as the values the `const` block in `image.go` gives them (1 and 2). Any value other than those two gives the empty content type.
- Go's `reflect.DeepEqual` between a `*JSONAttribute` and a `JSONAttribute{}` value compares different types and is always false. The model therefore reduces the comparison in `ensureAddressProfile` to "a structured address exists".
- The re-read of the structured postal address in `handleSuccessfulResponse` (lines 279-282) cannot fail after `ensureAddressProfile` has succeeded. It is still modelled, as a dead branch.
- `fmt.Errorf` formatting is not modelled. An HTTP error carries its template, status code and body instead of the formatted text.
- Logging is not modelled.
- Errors are compared by kind, not by message text.
- The timestamp of `ActivityDetails` is carried as the receipt's string. Go's `time.Parse` of RFC 3339 timestamps is not modelled.
- Anchors are opaque values copied from attribute to attribute. Anchor parsing is not modelled.
- The "nil versus empty" distinction of Go maps and slices is not modelled. A nil `OtherAttributes` map and an empty one are the same value.
- `HttpErrors.HandleHTTPError`: Go's map iteration order is taken as a parameter, because nothing in the program fixes it.
- The response body read is modelled as a byte sequence plus an optional read error. The `response.Body == nil` case is the empty sequence with no error. `handleHTTPError` ignores read errors; `makeRequest` returns the read error of a 2xx response.
- HttpErrors.MakeRequestResponse: when a 2xx body read fails, Go returns both the partial body and the error. The model returns only the error, as the caller at yoticlient.go:134 does not use the body once the error is set.
- `Base64.EncodeToString` models `base64.StdEncoding` only. The URL-safe and unpadded alphabets are not used by this core.
- `Time.ParseDate` models only the layout `2006-01-02` in UTC. Time zones and the rest of Go's layout language are not modelled.
