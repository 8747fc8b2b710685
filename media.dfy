/** The `media` package: a piece of binary data with its MIME type, and its
    `data:` URL with a Standard Base64 payload. */
module MediaValue {
  import opened Wrappers
  import opened GoStrings
  import Base64

  const ImageTypeJPEG: string := "image/jpeg"
  const ImageTypePNG: string := "image/png"

  /** The implementations of the `Media` interface: the two image types
      and `Generic`, which carries any MIME type. */
  datatype Media =
    | JPEGImage(data: seq<byte>)
    | PNGImage(data: seq<byte>)
    | Generic(mime: string, data: seq<byte>)
  {
    /** `MIME()`: each image type reports its own constant, `Generic` the
        type it was built with. */
    function MIME(): (m: string)
      ensures JPEGImage? ==> m == ImageTypeJPEG
      ensures PNGImage? ==> m == ImageTypePNG
      ensures Generic? ==> m == mime
    {
      match this
      case JPEGImage(_) => ImageTypeJPEG
      case PNGImage(_) => ImageTypePNG
      case Generic(m, _) => m
    }

    /** `Data()`: the bytes the value was built with, for every variant. */
    function Data(): (d: seq<byte>)
      ensures JPEGImage? ==> this == JPEGImage(d)
      ensures PNGImage? ==> this == PNGImage(d)
      ensures Generic? ==> this == Generic(mime, d)
    {
      data
    }

    /** `Base64URL()`: every implementation builds it with `base64URL`. */
    function Base64URL(): (url: string)
      ensures url == DataURLPrefix(MIME()) + Base64.EncodeToString(Data())
    {
      Base64DataURL(MIME(), data)
    }
  }

  function DataURLPrefix(mimeType: string): string {
    "data:" + mimeType + ";base64,"
  }

  /** `base64URL(mimeType, data)`: `fmt.Sprintf("data:%s;base64,%s", ...)`
      over the standard encoding. The payload after the prefix decodes back
      to exactly `data`. */
  function Base64DataURL(mimeType: string, data: seq<byte>): (url: string)
    ensures DataURLPrefix(mimeType) <= url
    ensures Base64.Decode(url[|DataURLPrefix(mimeType)|..]) == Some(data)
    ensures |url| == |DataURLPrefix(mimeType)| + 4 * ((|data| + 2) / 3)
  {
    var payload := Base64.EncodeToString(data);
    Base64.DecodeEncode(data);
    var url := DataURLPrefix(mimeType) + payload;
    assert url[|DataURLPrefix(mimeType)|..] == payload;
    url
  }

  /** `NewGeneric(mime, data)`. */
  function NewGeneric(mime: string, data: seq<byte>): (g: Media)
    ensures g.Generic?
    ensures g.MIME() == mime && g.Data() == data
  {
    Generic(mime, data)
  }

  /** `NewMedia(mime, data)`: the switch on the MIME string. Whatever it
      picks reports the MIME type and data it was given. */
  function NewMedia(mime: string, data: seq<byte>): (m: Media)
    ensures m.MIME() == mime && m.Data() == data
    ensures mime == ImageTypeJPEG ==> m == JPEGImage(data)
    ensures mime == ImageTypePNG ==> m == PNGImage(data)
    ensures mime != ImageTypeJPEG && mime != ImageTypePNG ==> m == Generic(mime, data)
  {
    if mime == ImageTypeJPEG then JPEGImage(data)
    else if mime == ImageTypePNG then PNGImage(data)
    else NewGeneric(mime, data)
  }

  /** The fixed prefixes of the two selfie URLs. */
  lemma ImageDataURLPrefixes(data: seq<byte>)
    ensures "data:image/jpeg;base64," <= JPEGImage(data).Base64URL()
    ensures "data:image/png;base64," <= PNGImage(data).Base64URL()
  {
    assert DataURLPrefix(ImageTypeJPEG) == "data:image/jpeg;base64,";
    assert DataURLPrefix(ImageTypePNG) == "data:image/png;base64,";
  }

  /** A known vector: the bytes of "value" encode as "dmFsdWU=". */
  lemma EncodeValue()
    ensures Base64.EncodeToString([118, 97, 108, 117, 101]) == "dmFsdWU="
  {
    var d: seq<byte> := [118, 97, 108, 117, 101];
    assert d[3..] == [117, 101];
    assert Base64.Group(118, 97, 108) == "dmFs" by {
      assert Base64.Char64(29) == 'd' && Base64.Char64(38) == 'm';
      assert Base64.Char64(5) == 'F' && Base64.Char64(44) == 's';
    }
    assert Base64.EncodeToString([117, 101]) == "dWU=" by {
      assert Base64.Char64(22) == 'W' && Base64.Char64(20) == 'U';
    }
  }
}
