/** The HTTP side of the client that is not transport: error-message
    selection, the success test in `makeRequest`, the API URL and the
    default headers. */
module HttpErrors {
  import opened Wrappers
  import opened GoStrings
  import opened YotiTypes

  const ApiDefaultURL: string := "https://api.yoti.com/api/v1"
  const SdkIdentifier: string := "Go"
  const SdkVersionIdentifier: string := "2.5.0"
  const SdkIdentifierHeader: string := "X-Yoti-SDK"
  const SdkVersionIdentifierHeader: string := SdkIdentifierHeader + "-Version"
  const DefaultUnknownErrorMessage: string := "Unknown HTTP Error: %[1]d: %[2]s"

  /** The code under which a handler map keeps its fallback template. */
  const DefaultCode: int := -1

  /** `DefaultHTTPErrorMessages`. */
  const DefaultHTTPErrorMessages: map<int, string> := map[DefaultCode := DefaultUnknownErrorMessage]

  /** The handlers `getActivityDetails` passes for the profile request. */
  const ProfileErrorMessages: seq<map<int, string>> := [map[404 := "Profile Not Found%[2]s"], DefaultHTTPErrorMessages]

  /** Whether a handler map supplies the template: it names the status or
      has a fallback. */
  predicate Handles(handler: map<int, string>, status: int) {
    status in handler || DefaultCode in handler
  }

  function HandlerTemplate(handler: map<int, string>, status: int): string
    requires Handles(handler, status)
  {
    if status in handler then handler[status] else handler[DefaultCode]
  }

  /** The template `handleHTTPError` formats: from the first handler that
      handles the status, else the unknown-error constant. */
  function SelectTemplate(handlers: seq<map<int, string>>, status: int): (t: string)
    decreases |handlers|
  {
    if handlers == [] then DefaultUnknownErrorMessage
    else if Handles(handlers[0], status) then HandlerTemplate(handlers[0], status)
    else SelectTemplate(handlers[1..], status)
  }

  /** The first handler that handles the status decides. */
  lemma {:induction false} SelectTemplateFirstMatch(handlers: seq<map<int, string>>, status: int, k: nat)
    requires k < |handlers| && Handles(handlers[k], status)
    requires forall j :: 0 <= j < k ==> !Handles(handlers[j], status)
    ensures SelectTemplate(handlers, status) == HandlerTemplate(handlers[k], status)
    decreases k
  {
    if k > 0 {
      SelectTemplateFirstMatch(handlers[1..], status, k - 1);
    }
  }

  /** With no handler for the status, the unknown-error constant is used. */
  lemma {:induction false} SelectTemplateNoMatch(handlers: seq<map<int, string>>, status: int)
    requires forall j :: 0 <= j < |handlers| ==> !Handles(handlers[j], status)
    ensures SelectTemplate(handlers, status) == DefaultUnknownErrorMessage
    decreases |handlers|
  {
    if handlers != [] {
      SelectTemplateNoMatch(handlers[1..], status);
    }
  }

  /** Handlers after the first that handles the status are never consulted. */
  lemma {:induction false} LaterHandlersIgnored(handlers: seq<map<int, string>>, later: seq<map<int, string>>, status: int, k: nat)
    requires k < |handlers| && Handles(handlers[k], status)
    ensures SelectTemplate(handlers[..k + 1] + later, status) == SelectTemplate(handlers, status)
    decreases k
  {
    if k > 0 {
      assert (handlers[..k + 1] + later)[1..] == handlers[1..][..k] + later;
      LaterHandlersIgnored(handlers[1..], later, status, k - 1);
    }
  }

  /** For the profile request: 404 gets its own template, every other
      status the unknown-error one. */
  lemma ProfileErrorTemplates(status: int)
    ensures SelectTemplate(ProfileErrorMessages, status) ==
      if status == 404 then "Profile Not Found%[2]s" else DefaultUnknownErrorMessage
  {
    assert ProfileErrorMessages[1..] == [DefaultHTTPErrorMessages];
  }

  /** Whether `order[i]` lists exactly the codes of `handlers[i]`: one
      iteration order the Go runtime may choose for each map. */
  ghost predicate IsIterationOrder(handlers: seq<map<int, string>>, order: seq<seq<int>>) {
    |order| == |handlers|
    && forall i, code :: 0 <= i < |handlers| ==> (code in order[i] <==> code in handlers[i])
  }

  /** `handleHTTPError`: the handlers in order; within one, its entries in
      the iteration order the runtime picks, returning on the entry for the
      status; then the handler's fallback. The result is the same for every
      iteration order, because a map holds one entry per code. */
  method HandleHTTPError(status: int, body: seq<byte>, handlers: seq<map<int, string>>, order: seq<seq<int>>)
    returns (err: Error)
    requires IsIterationOrder(handlers, order)
    ensures err == HttpError(SelectTemplate(handlers, status), status, body)
  {
    var i := 0;
    while i < |handlers|
      invariant 0 <= i <= |handlers|
      invariant SelectTemplate(handlers[i..], status) == SelectTemplate(handlers, status)
    {
      var handler, codes := handlers[i], order[i];
      var j := 0;
      while j < |codes|
        invariant 0 <= j <= |codes|
        invariant status !in codes[..j]
      {
        var code := codes[j];
        if code == status {
          return HttpError(handler[code], status, body);
        }
        assert codes[..j + 1] == codes[..j] + [code];
        j := j + 1;
      }
      assert codes[..j] == codes;
      if DefaultCode in handler {
        return HttpError(handler[DefaultCode], status, body);
      }
      assert handlers[i..][1..] == handlers[i + 1..];
      i := i + 1;
    }
    return HttpError(DefaultUnknownErrorMessage, status, body);
  }

  /** The test in `makeRequest`. */
  predicate IsSuccessStatus(status: int) {
    status < 300 && status >= 200
  }

  /** What `makeRequest` makes of a response: the body as a string for a
      2xx status, unless reading the body failed, in which case that read
      error is returned; otherwise the error `handleHTTPError` builds, which
      ignores read errors. `readError` is the error `ioutil.ReadAll` returns
      with the bytes `body` it read. */
  method MakeRequestResponse(status: int, body: seq<byte>, readError: Option<Error>,
                             handlers: seq<map<int, string>>, order: seq<seq<int>>)
    returns (r: Result<string, Error>)
    requires IsIterationOrder(handlers, order)
    ensures r.Success? <==> 200 <= status < 300 && readError.None?
    ensures r.Success? ==> StringBytes(r.value) == body && IsByteString(r.value)
    ensures 200 <= status < 300 && readError.Some? ==> r == Failure(readError.value)
    ensures !(200 <= status < 300) ==> r == Failure(HttpError(SelectTemplate(handlers, status), status, body))
  {
    if IsSuccessStatus(status) {
      if readError.Some? {
        return Failure(readError.value);
      }
      BytesStringRoundTrip(body);
      return Success(GoString(body));
    }
    var err := HandleHTTPError(status, body, handlers, order);
    return Failure(err);
  }

  /** The `Client` fields the modelled operations read or write. */
  class Client {
    var sdkID: string
    var key: seq<byte>
    var apiURL: string

    constructor (sdkID: string, key: seq<byte>)
      ensures this.sdkID == sdkID && this.key == key && apiURL == ""
    {
      this.sdkID := sdkID;
      this.key := key;
      apiURL := "";
    }

    /** `OverrideAPIURL`. */
    method OverrideAPIURL(url: string)
      modifies this
      ensures apiURL == url
      ensures sdkID == old(sdkID) && key == old(key)
      ensures url != "" ==> GetAPIURL() == url
      ensures url == "" ==> GetAPIURL() == ApiDefaultURL
    {
      apiURL := url;
    }

    /** `getAPIURL`: the override, or the default when it is empty. */
    function GetAPIURL(): (url: string)
      reads this
      ensures url != ""
      ensures apiURL != "" ==> url == apiURL
      ensures apiURL == "" ==> url == ApiDefaultURL
    {
      if apiURL != "" then apiURL else ApiDefaultURL
    }

    /** `getDefaultHeaders`: the SDK name and "<name>-<version>". */
    function GetDefaultHeaders(): (headers: map<string, seq<string>>)
      ensures headers.Keys == {"X-Yoti-SDK", "X-Yoti-SDK-Version"}
      ensures headers["X-Yoti-SDK"] == ["Go"]
      ensures headers["X-Yoti-SDK-Version"] == ["Go-2.5.0"]
    {
      assert SdkVersionIdentifierHeader == "X-Yoti-SDK-Version";
      assert SdkIdentifier + "-" + SdkVersionIdentifier == "Go-2.5.0";
      map[SdkIdentifierHeader := [SdkIdentifier], SdkVersionIdentifierHeader := [SdkIdentifier + "-" + SdkVersionIdentifier]]
    }
  }
}
