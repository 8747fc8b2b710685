/** `image.go`: the selfie image value and its `data:` URL. */
module ImageValue {
  import opened GoStrings

  /** `ImageType` is a Go `int`; `ImageType_Jpeg = 1 + iota` and
      `ImageType_Png` follow, so the zero value is neither. */
  type ImageType = int

  const ImageTypeJpeg: ImageType := 1
  const ImageTypePng: ImageType := 2

  const URLPrefix: string := "data:application/octet-stream;"

  datatype Image = Image(imageType: ImageType, data: seq<byte>) {
    /** The switch on the enum. */
    function GetContentType(): (ct: string)
      ensures ct == "image/jpeg" <==> imageType == ImageTypeJpeg
      ensures ct == "image/png" <==> imageType == ImageTypePng
      ensures ct == "" <==> imageType != ImageTypeJpeg && imageType != ImageTypePng
    {
      if imageType == ImageTypeJpeg then "image/jpeg"
      else if imageType == ImageTypePng then "image/png"
      else ""
    }

    /** The data bytes follow the prefix and content type verbatim, with
        no encoding. */
    function URL(): (url: string)
      ensures URLPrefix + GetContentType() + ";," <= url
      ensures StringBytes(url[|URLPrefix + GetContentType() + ";,"|..]) == data
      ensures IsByteString(url[|URLPrefix + GetContentType() + ";,"|..])
    {
      var head := URLPrefix + GetContentType() + ";,";
      var url := head + GoString(data);
      assert url[|head|..] == GoString(data);
      BytesStringRoundTrip(data);
      url
    }
  }

  /** The zero `Image` has type 0 and no data. */
  lemma ZeroImageURL()
    ensures Image(0, []).URL() == "data:application/octet-stream;;,"
  {
    var z := Image(0, []);
    assert z.GetContentType() == "";
    var url := z.URL();
    assert URLPrefix + "" + ";," <= url;
    assert |url| == |URLPrefix + ";,"| by {
      assert StringBytes(url[|URLPrefix + ";,"|..]) == [];
    }
  }
}
