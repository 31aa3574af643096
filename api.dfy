/**
 * The REST driver of api/Api.ts: the normalised response envelope
 * (`ApiResponse`), the driver's configuration (token, base endpoint, version,
 * upload and error handlers), and how a settled HTTP call becomes a response.
 * The HTTP transport itself is an input: a call either delivers a body or fails.
 */
module ApiDriver {
  import opened Wrappers
  import opened Dicts
  import opened JsValues
  import Strings

  /** The response envelope: success flag, data bag, error record and field errors. */
  datatype ApiResponse = ApiResponse(success: bool, data: Value, error: Dict<Value>, fieldErrors: Dict<Value>)
  {
    predicate IsSuccessful() { success }

    /**
     * `typeof Data[d] !== "undefined"`, or `None` where reading a property of
     * `Data` throws a TypeError: a payload whose `data` is `null`.
     */
    function HasData(d: string): (r: Option<bool>)
      ensures r.None? <==> data == Undefined || data == Null
      ensures r.Some? ==> (r.value <==> Lookup(OwnEntries(data).value, d).Some? && Lookup(OwnEntries(data).value, d).value != Undefined)
    {
      if data == Undefined || data == Null then None else Some(Member(data, d) != Undefined)
    }

    /**
     * `Data[d] || undefined`: it throws exactly where `HasData` does, is
     * `undefined` or truthy, and is only defined for a name `HasData` reports.
     */
    function GetData(d: string): (r: Option<Value>)
      ensures r.None? <==> HasData(d).None?
      ensures r.Some? ==> r.value == Undefined || Truthy(r.value)
      ensures r.Some? && r.value != Undefined ==> HasData(d) == Some(true) && r.value == Member(data, d)
      ensures r.Some? && Truthy(Member(data, d)) ==> r.value == Member(data, d)
    {
      if data == Undefined || data == Null then None else Some(OrUndefined(Member(data, d)))
    }

    function GetFieldErrors(): Dict<Value> { fieldErrors }
  }

  /** The error record every response starts from: `{Code: '', Text: ''}`. */
  const InitialError: Dict<Value> := [("Code", Str("")), ("Text", Str(""))]

  /** The `{}` a response without `data` holds. */
  const EmptyBag: Value := Obj(0, [])

  predicate NoEmptyKey(es: Dict<Value>)
  {
    forall i :: 0 <= i < |es| ==> es[i].0 != ""
  }

  /** The entries with every key passed through snakeCaseToCamelCase. */
  function ConvertKeys(es: Dict<Value>): (r: Dict<Value>)
    requires NoEmptyKey(es)
    ensures |r| == |es|
  {
    seq(|es|, i requires 0 <= i < |es| => (Strings.SnakeCaseToCamelCase(es[i].0), es[i].1))
  }

  lemma ConvertKeysSnoc(es: Dict<Value>, i: int)
    requires 0 <= i < |es| && forall j :: 0 <= j <= i ==> es[j].0 != ""
    ensures NoEmptyKey(es[..i]) && NoEmptyKey(es[..i + 1])
    ensures ConvertKeys(es[..i + 1]) == ConvertKeys(es[..i]) + [(Strings.SnakeCaseToCamelCase(es[i].0), es[i].1)]
  {
    assert forall j :: 0 <= j < i ==> es[..i][j] == es[..i + 1][j];
  }

  /**
   * `Object.keys(source).forEach(key => target[key.snakeCaseToCamelCase()] =
   * source[key])` over the entries, first to last; `None` once a key is empty,
   * where the conversion throws.
   */
  function CopyEntries(target: Dict<Value>, es: Dict<Value>): Option<Dict<Value>>
  {
    if es == [] then Some(target)
    else
      var last := es[|es| - 1];
      match CopyEntries(target, es[..|es| - 1])
      case None => None
      case Some(d) => if last.0 == "" then None else Some(Put(d, Strings.SnakeCaseToCamelCase(last.0), last.1))
  }

  /** The copy throws exactly when some key is empty; otherwise it writes the converted entries in order. */
  lemma {:induction false} CopyEntriesMeaning(target: Dict<Value>, es: Dict<Value>)
    ensures CopyEntries(target, es) == if NoEmptyKey(es) then Some(PutAll(target, ConvertKeys(es))) else None
  {
    if es != [] {
      var n := |es| - 1;
      var init := es[..n];
      CopyEntriesMeaning(target, init);
      NoEmptyKeySnoc(es);
      if NoEmptyKey(es) {
        PutAllConvertedSnoc(target, es);
        var d := PutAll(target, ConvertKeys(init));
        assert CopyEntries(target, init) == Some(d);
        assert CopyEntries(target, es) == Some(Put(d, Strings.SnakeCaseToCamelCase(es[n].0), es[n].1));
      } else if !NoEmptyKey(init) {
        assert CopyEntries(target, init) == None;
      } else {
        assert es[n].0 == "";
      }
    }
  }

  lemma NoEmptyKeySnoc(es: Dict<Value>)
    requires es != []
    ensures NoEmptyKey(es) <==> NoEmptyKey(es[..|es| - 1]) && es[|es| - 1].0 != ""
  {
    assert forall j :: 0 <= j < |es| - 1 ==> es[..|es| - 1][j] == es[j];
  }

  lemma PutAllConvertedSnoc(target: Dict<Value>, es: Dict<Value>)
    requires es != [] && NoEmptyKey(es)
    ensures var n := |es| - 1;
            NoEmptyKey(es[..n]) &&
            PutAll(target, ConvertKeys(es)) ==
              Put(PutAll(target, ConvertKeys(es[..n])), Strings.SnakeCaseToCamelCase(es[n].0), es[n].1)
  {
    var n := |es| - 1;
    ConvertKeysSnoc(es, n);
    assert es[..n + 1] == es;
    PutAllSnoc(target, ConvertKeys(es[..n]), Strings.SnakeCaseToCamelCase(es[n].0), es[n].1);
  }

  /** The step the loop of `CopyConvertedKeys` takes. */
  lemma CopyEntriesSnoc(target: Dict<Value>, es: Dict<Value>, i: int)
    requires 0 <= i < |es|
    ensures CopyEntries(target, es[..i + 1]) ==
              match CopyEntries(target, es[..i])
              case None => None
              case Some(d) => if es[i].0 == "" then None else Some(Put(d, Strings.SnakeCaseToCamelCase(es[i].0), es[i].1))
  {
    assert es[..i + 1][..i] == es[..i];
  }

  /** One more entry on a copy that has not thrown: it throws at an empty key, or writes the converted key. */
  lemma CopyEntriesStep(target: Dict<Value>, es: Dict<Value>, i: int, acc: Dict<Value>)
    requires 0 <= i < |es| && CopyEntries(target, es[..i]) == Some(acc)
    ensures CopyEntries(target, es[..i + 1]) ==
              if es[i].0 == "" then None else Some(Put(acc, Strings.SnakeCaseToCamelCase(es[i].0), es[i].1))
  {
    CopyEntriesSnoc(target, es, i);
  }

  /** Once the copy has thrown, the remaining entries are not looked at. */
  lemma {:induction false} CopyEntriesStops(target: Dict<Value>, es: Dict<Value>, n: nat)
    requires n <= |es| && CopyEntries(target, es[..n]).None?
    ensures CopyEntries(target, es).None?
    decreases |es| - n
  {
    if n < |es| {
      CopyEntriesSnoc(target, es, n);
      CopyEntriesStops(target, es, n + 1);
    } else {
      assert es[..n] == es;
    }
  }

  /**
   * `if (typeof source !== "undefined") Object.keys(source).forEach(key =>
   * target[key.snakeCaseToCamelCase()] = source[key])`; `None` when that throws:
   * `Object.keys(null)`, or an empty key.
   */
  function CopyConverted(target: Dict<Value>, source: Value): Option<Dict<Value>>
  {
    if source == Undefined then Some(target)
    else match OwnEntries(source)
      case None => None
      case Some(es) => CopyEntries(target, es)
  }

  /**
   * What `new ApiResponse({data: body})` builds, or `None` when the
   * constructor throws. Reading `success` off a missing body throws; `Data`
   * is never `undefined`, since a missing `data` becomes `{}`, and it is
   * `null` exactly when the payload's `data` is.
   */
  function Normalize(body: Value): (r: Option<ApiResponse>)
    ensures body == Undefined || body == Null ==> r.None?
    ensures r.Some? ==> r.value.data != Undefined
    ensures r.Some? ==> (r.value.data == Null <==> Member(body, "data") == Null)
  {
    if body == Undefined || body == Null then None
    else
      var data := Member(body, "data");
      var error := CopyConverted(InitialError, Member(body, "error"));
      var fieldErrors := CopyConverted([], Member(body, "field-errors"));
      if error.None? || fieldErrors.None? then None
      else
        Some(ApiResponse(Truthy(Member(body, "success")),
                         if data == Undefined then EmptyBag else data,
                         error.value, fieldErrors.value))
  }

  /** One `forEach` of the constructor. */
  method CopyConvertedKeys(target: Dict<Value>, source: Value) returns (r: Option<Dict<Value>>)
    ensures r == CopyConverted(target, source)
  {
    if source == Undefined {
      return Some(target);
    }
    var entries := OwnEntries(source);
    if entries.None? {
      return None;
    }
    var es := entries.value;
    assert CopyConverted(target, source) == CopyEntries(target, es);
    var acc := target;
    var i := 0;
    while i < |es|
      invariant 0 <= i <= |es|
      invariant CopyEntries(target, es[..i]) == Some(acc)
    {
      var key := es[i].0;
      CopyEntriesStep(target, es, i, acc);
      if key == "" {
        CopyEntriesStops(target, es, i + 1);
        return None;
      }
      acc := Put(acc, Strings.SnakeCaseToCamelCase(key), es[i].1);
      i := i + 1;
    }
    assert es[..i] == es;
    r := Some(acc);
  }

  /** The `ApiResponse` constructor. */
  method NewApiResponse(body: Value) returns (r: Option<ApiResponse>)
    ensures r == Normalize(body)
  {
    if body == Undefined || body == Null {
      return None;
    }
    var success := Truthy(Member(body, "success"));
    var data := EmptyBag;
    if Member(body, "data") != Undefined {
      data := Member(body, "data");
    }
    var error := CopyConvertedKeys(InitialError, Member(body, "error"));
    if error.None? {
      return None;
    }
    var fieldErrors := CopyConvertedKeys([], Member(body, "field-errors"));
    if fieldErrors.None? {
      return None;
    }
    r := Some(ApiResponse(success, data, error.value, fieldErrors.value));
  }

  /** A response is successful exactly when the payload's `success` is truthy. */
  lemma SuccessIsTruthiness(body: Value)
    requires Normalize(body).Some?
    ensures Normalize(body).value.IsSuccessful() <==> Truthy(Member(body, "success"))
    ensures Member(body, "success") == Undefined ==> !Normalize(body).value.IsSuccessful()
  {
  }

  /** Without a `data` key the data bag is empty: `HasData` is false for every name. */
  lemma NoDataKeyNoData(body: Value, d: string)
    requires Normalize(body).Some? && Member(body, "data") == Undefined
    ensures Normalize(body).value.HasData(d) == Some(false)
    ensures Normalize(body).value.GetData(d) == Some(Undefined)
  {
  }

  /**
   * A payload whose `data` is `null` keeps it (`typeof null` is `"object"`),
   * so `HasData` and `GetData` throw for every name.
   */
  lemma NullDataThrows(body: Value, d: string)
    requires Normalize(body).Some? && Member(body, "data") == Null
    ensures Normalize(body).value.HasData(d).None?
    ensures Normalize(body).value.GetData(d).None?
  {
  }

  /** `HasData` and `GetData` disagree exactly on names whose value is present but falsy. */
  lemma PresentButFalsy(r: ApiResponse, d: string)
    ensures (r.HasData(d) == Some(true) && r.GetData(d) == Some(Undefined)) <==>
              (Member(r.data, d) != Undefined && !Truthy(Member(r.data, d)))
  {
  }

  /**
   * The error record: `Code` and `Text` come first; a payload key is stored
   * under its snake→camel name, later keys winning, and `code`/`text`
   * overwrite `Code`/`Text`.
   */
  lemma ErrorRecord(body: Value, es: Dict<Value>, k: string)
    requires Normalize(body).Some?
    requires OwnEntries(Member(body, "error")) == Some(es)
    ensures NoEmptyKey(es)
    ensures Keys(InitialError) <= Keys(Normalize(body).value.error)
    ensures Lookup(Normalize(body).value.error, k) ==
              if k in Keys(ConvertKeys(es)) then LastValue(ConvertKeys(es), k) else Lookup(InitialError, k)
  {
    CopyEntriesMeaning(InitialError, es);
    PutAllLookup(InitialError, ConvertKeys(es), k);
    PutAllKeysPrefix(InitialError, ConvertKeys(es));
  }

  /** Field errors: exactly the converted payload keys, with their values unchanged, later keys winning. */
  lemma FieldErrorsRecord(body: Value, es: Dict<Value>, k: string)
    requires Normalize(body).Some?
    requires OwnEntries(Member(body, "field-errors")) == Some(es)
    ensures NoEmptyKey(es)
    ensures Lookup(Normalize(body).value.GetFieldErrors(), k) == LastValue(ConvertKeys(es), k)
  {
    CopyEntriesMeaning([], es);
    PutAllLookup([], ConvertKeys(es), k);
  }

  /**
   * The usual successful payload carries neither `error` nor `field-errors`:
   * both copies are skipped, so the error record stays `{Code: '', Text: ''}`
   * and the field errors stay `{}`.
   */
  lemma AbsentErrorsDefault(body: Value)
    requires body != Undefined && body != Null
    requires Member(body, "error") == Undefined && Member(body, "field-errors") == Undefined
    ensures Normalize(body).Some?
    ensures Normalize(body).value.error == InitialError
    ensures Normalize(body).value.GetFieldErrors() == []
  {
  }

  /** A payload whose `error` has an empty key makes the constructor throw. */
  lemma EmptyErrorKeyThrows(body: Value, es: Dict<Value>, i: int)
    requires body != Undefined && body != Null
    requires OwnEntries(Member(body, "error")) == Some(es) && 0 <= i < |es| && es[i].0 == ""
    ensures Normalize(body).None?
  {
    CopyEntriesMeaning(InitialError, es);
  }

  /** The payload `HandlePromise` builds when the call fails. */
  const ServerErrorPayload: Value :=
    Obj(0, [("success", Bool(false)),
            ("error", Obj(0, [("code", Str("E-SERVER-ERROR")), ("text", Str("Server error"))]))])

  /** The synthetic response for a failed call. */
  const ServerError: ApiResponse :=
    ApiResponse(false, EmptyBag, [("Code", Str("E-SERVER-ERROR")), ("Text", Str("Server error"))], [])

  /** A transport failure yields the response `ServerError`. */
  lemma ServerErrorResponse()
    ensures Normalize(ServerErrorPayload) == Some(ServerError)
  {
    var p := ServerErrorPayload;
    assert Member(p, "success") == Bool(false) && Member(p, "data") == Undefined && Member(p, "field-errors") == Undefined by {
      ServerPayloadMembers();
    }
    assert CopyConverted(InitialError, Member(p, "error")) == Some(ServerError.error) by {
      ServerErrorRecord();
    }
    assert CopyConverted([], Undefined) == Some([]);
  }

  /** `ServerError` is unsuccessful, with code `E-SERVER-ERROR` and text `Server error`. */
  lemma ServerErrorFields()
    ensures !ServerError.IsSuccessful()
    ensures At(ServerError.error, "Code") == Str("E-SERVER-ERROR")
    ensures At(ServerError.error, "Text") == Str("Server error")
  {
    var e := ServerError.error;
    assert FindKey(e, "Code") == 0;
    assert FindKey(e, "Text") == 1 by {
      assert e[0].0 == "Code" != "Text";
    }
  }

  lemma ServerErrorRecord()
    ensures CopyConverted(InitialError, Member(ServerErrorPayload, "error")) == Some(ServerError.error)
  {
    assert Member(ServerErrorPayload, "error") == Obj(0, [("code", Str("E-SERVER-ERROR")), ("text", Str("Server error"))]) by {
      ServerPayloadMembers();
    }
    ErrorObjectRecord(0, Str("E-SERVER-ERROR"), Str("Server error"));
  }

  /** An error object with `code` and `text` overwrites the initial `Code` and `Text`, in place. */
  lemma ErrorObjectRecord(ref: Ref, code: Value, text: Value)
    ensures CopyConverted(InitialError, Obj(ref, [("code", code), ("text", text)])) == Some([("Code", code), ("Text", text)])
  {
    var es := [("code", code), ("text", text)];
    assert OwnEntries(Obj(ref, es)) == Some(es);
    CodeTextEntries(code, text);
  }

  lemma CodeTextEntries(code: Value, text: Value)
    ensures CopyEntries(InitialError, [("code", code), ("text", text)]) == Some([("Code", code), ("Text", text)])
  {
    var es := [("code", code), ("text", text)];
    CodeTextConverted(code, text);
    CopyEntriesMeaning(InitialError, es);
    CodeTextOverwrite(code, text);
  }

  lemma CodeTextConverted(code: Value, text: Value)
    ensures NoEmptyKey([("code", code), ("text", text)])
    ensures ConvertKeys([("code", code), ("text", text)]) == [("Code", code), ("Text", text)]
  {
    var es := [("code", code), ("text", text)];
    assert es[0].0 == "code" && es[1].0 == "text";
    CodeKey();
    TextKey();
  }

  lemma ServerPayloadMembers()
    ensures Member(ServerErrorPayload, "success") == Bool(false)
    ensures Member(ServerErrorPayload, "data") == Undefined
    ensures Member(ServerErrorPayload, "error") == Obj(0, [("code", Str("E-SERVER-ERROR")), ("text", Str("Server error"))])
    ensures Member(ServerErrorPayload, "field-errors") == Undefined
  {
  }

  lemma CodeTextOverwrite(code: Value, text: Value)
    ensures PutAll(InitialError, [("Code", code), ("Text", text)]) == [("Code", code), ("Text", text)]
  {
    var c, t := ("Code", code), ("Text", text);
    PutAllSnoc(InitialError, [], c.0, c.1);
    PutAllSnoc(InitialError, [c], t.0, t.1);
    assert [c] + [t] == [c, t];
    assert Put(InitialError, c.0, c.1) == [c, ("Text", Str(""))] by {
      assert FindKey(InitialError, "Code") == 0;
    }
    assert Put([c, ("Text", Str(""))], t.0, t.1) == [c, t] by {
      assert FindKey([c, ("Text", Str(""))], "Text") == 1;
    }
  }

  lemma CodeKey()
    ensures Strings.SnakeCaseToCamelCase("code") == "Code"
  {
    assert Strings.ReplaceUnderscores("code") == "code" by {
      assert Strings.ReplaceUnderscores("ode") == "ode" by {
        assert Strings.ReplaceUnderscores("de") == "de";
      }
    }
  }

  lemma TextKey()
    ensures Strings.SnakeCaseToCamelCase("text") == "Text"
  {
    assert Strings.ReplaceUnderscores("text") == "text" by {
      assert Strings.ReplaceUnderscores("ext") == "ext" by {
        assert Strings.ReplaceUnderscores("xt") == "xt";
      }
    }
  }

  /** A registered callback, by identity. */
  datatype Handler = Handler(id: nat)

  /** How an HTTP call settles: the server delivered a body, or the call failed. */
  datatype Outcome = Delivered(body: Value) | TransportFailure

  datatype Verb = Get | Post | Patch | Delete | Upload

  /** What a driver call hands to the HTTP client. */
  datatype HttpRequest = HttpRequest(verb: Verb, url: string, headers: Dict<string>,
                                     payload: Dict<Value>, onUploadProgress: Option<Handler>)

  /** The driver: its configuration is mutable and shared by every caller. */
  class Api {
    var token: Option<string>
    var baseEndpoint: string
    var version: string
    var uploadHandler: Option<Handler>
    var errorHandler: Option<Handler>

    constructor (endpoint: string, version: string)
      ensures baseEndpoint == endpoint && this.version == version
      ensures token == None && uploadHandler == None && errorHandler == None
    {
      token, baseEndpoint, this.version := None, "", "";
      uploadHandler, errorHandler := None, None;
      new;
      SetBaseEndpoint(endpoint);
      SetVersion(version);
    }

    method SetToken(t: string)
      modifies this`token
      ensures token == Some(t)
    {
      token := Some(t);
    }

    method SetBaseEndpoint(endpoint: string)
      modifies this`baseEndpoint
      ensures baseEndpoint == endpoint
    {
      baseEndpoint := endpoint;
    }

    method SetVersion(v: string)
      modifies this`version
      ensures version == v
    {
      version := v;
    }

    function EndpointRoot(): string
      reads this
    {
      JoinWith("/", [baseEndpoint, version])
    }

    /** The request URL is `base/version/endpoint`. */
    function GetEndpointUrl(endpoint: string): (url: string)
      reads this
      ensures url == baseEndpoint + "/" + version + "/" + endpoint
      ensures Strings.StartsWith(url, baseEndpoint + "/" + version + "/")
    {
      var url := JoinWith("/", [EndpointRoot(), endpoint]);
      Strings.StartsWithIsPrefix(url, baseEndpoint + "/" + version + "/");
      url
    }

    predicate HasErrorHandler()
      reads this
    {
      errorHandler.Some?
    }

    function GetUploadHandler(): Option<Handler>
      reads this
    {
      uploadHandler
    }

    method SetUploadHandler(h: Handler)
      modifies this`uploadHandler
      ensures GetUploadHandler() == Some(h)
    {
      uploadHandler := Some(h);
    }

    method RemoveUploadHandler()
      modifies this`uploadHandler
      ensures GetUploadHandler() == None
    {
      uploadHandler := None;
    }

    /** The `Token` header is present exactly when a token has been set, and it carries that token. */
    function GetHeaders(): (h: Dict<string>)
      reads this
      ensures Lookup(h, "Token") == token
      ensures token.None? ==> h == []
      ensures forall k :: k != "Token" ==> Lookup(h, k) == None
    {
      if token.Some? then [("Token", token.value)] else []
    }

    /**
     * What `Get`, `Post`, `Patch`, `Delete` and `Upload` hand to the HTTP
     * client: the composed URL, the headers, the data, and the upload handler
     * for uploads only.
     */
    function Prepare(verb: Verb, endpoint: string, data: Dict<Value>): (req: HttpRequest)
      reads this
      ensures req.verb == verb && req.payload == data
      ensures req.url == baseEndpoint + "/" + version + "/" + endpoint
      ensures req.headers == GetHeaders() && Lookup(req.headers, "Token") == token
      ensures req.onUploadProgress == if verb == Upload then uploadHandler else None
    {
      HttpRequest(verb, GetEndpointUrl(endpoint), GetHeaders(), data,
                  if verb == Upload then GetUploadHandler() else None)
    }

    /**
     * `HandlePromise`: a delivered body becomes its response; a failed call,
     * or a body the constructor throws on, becomes the synthetic server error.
     * The error handler receives the response exactly when it is unsuccessful
     * and a handler is set.
     */
    method HandlePromise(outcome: Outcome) returns (r: ApiResponse, handled: seq<ApiResponse>)
      ensures outcome.Delivered? && Normalize(outcome.body).Some? ==> r == Normalize(outcome.body).value
      ensures outcome.TransportFailure? || Normalize(outcome.body).None? ==> r == ServerError
      ensures handled == if HasErrorHandler() && !r.IsSuccessful() then [r] else []
    {
      if outcome.Delivered? {
        var response := NewApiResponse(outcome.body);
        if response.Some? {
          r := response.value;
          handled := if !r.IsSuccessful() && HasErrorHandler() then [r] else [];
          return;
        }
      }
      ServerErrorResponse();
      var response := NewApiResponse(ServerErrorPayload);
      r := response.value;
      handled := if HasErrorHandler() then [r] else [];
    }
  }
}
