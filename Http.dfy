/**
 * The HTTP gateway: the request helpers that sign each call, write the
 * token into the module-wide header map, send the request and classify
 * the response.
 */
module Http {

  import opened Wrappers
  import opened Errors
  import opened Signing
  import opened Payloads

  const AccessKeyHeader: string := "zapiAccessKey"
  const AuthorizationHeader: string := "Authorization"
  const ContentTypeHeader: string := "Content-Type"
  const JsonMediaType: string := "application/json"

  /** What is handed to the transport: method, full URL, headers and body. */
  datatype Request = Request(verb: HttpMethod, url: string, headers: map<string, string>, data: Option<Payload>)

  /** What the transport hands back. */
  datatype Response = Response(url: string, content: string, statusCode: int)

  /**
   * The URL a helper requests. After the base URL and the uri comes exactly
   * `?` and the query the token signs, or nothing for the helpers without a
   * query.
   */
  function Url(zapiUrl: string, c: Call): (u: string)
    ensures |u| >= |zapiUrl| + |c.uri| && u[..|zapiUrl| + |c.uri|] == zapiUrl + c.uri
    ensures c.HasQuery() ==> u[|zapiUrl| + |c.uri|..] == "?" + c.SignedQuery()
    ensures !c.HasQuery() ==> |u| == |zapiUrl| + |c.uri| && c.SignedQuery() == ""
  {
    if c.HasQuery() then zapiUrl + c.uri + "?" + c.query else zapiUrl + c.uri
  }

  /** The `Authorization` value of a call made at clock reading `now`. */
  function AuthorizationValue(signer: Signer, c: Call, now: int): (v: string)
    ensures |v| >= 4 && v[..4] == "JWT "
    ensures v[4..] == GetJwt(signer, Canonical(c), now)
  {
    "JWT " + GetJwt(signer, Canonical(c), now)
  }

  /**
   * The header map after one helper has written into it: `Authorization`
   * is overwritten, `Content-Type` is set when `json`, nothing is removed
   * and every other entry is kept.
   */
  function Stamp(h: map<string, string>, auth: string, json: bool): (r: map<string, string>)
    ensures AuthorizationHeader in r && r[AuthorizationHeader] == auth
    ensures json ==> ContentTypeHeader in r && r[ContentTypeHeader] == JsonMediaType
    ensures r.Keys == h.Keys + {AuthorizationHeader} + (if json then {ContentTypeHeader} else {})
    ensures forall k :: k in h && k != AuthorizationHeader && (json ==> k != ContentTypeHeader) ==> r[k] == h[k]
  {
    var stamped := h[AuthorizationHeader := auth];
    if json then stamped[ContentTypeHeader := JsonMediaType] else stamped
  }

  /** One helper call and the clock reading its token was made with. */
  datatype Sent = Sent(call: Call, now: int)

  /** The header map after a sequence of helper calls, oldest first. */
  function HeadersAfter(signer: Signer, h: map<string, string>, calls: seq<Sent>): map<string, string>
    decreases |calls|
  {
    if |calls| == 0 then h
    else
      var c := calls[0];
      HeadersAfter(signer, Stamp(h, AuthorizationValue(signer, c.call, c.now), c.call.SendsJson()), calls[1..])
  }

  /** No sequence of calls removes or changes `zapiAccessKey`. */
  lemma {:induction false} AccessKeyKept(signer: Signer, h: map<string, string>, calls: seq<Sent>)
    requires AccessKeyHeader in h
    ensures AccessKeyHeader in HeadersAfter(signer, h, calls)
    ensures HeadersAfter(signer, h, calls)[AccessKeyHeader] == h[AccessKeyHeader]
    decreases |calls|
  {
    if |calls| > 0 {
      var c := calls[0];
      AccessKeyKept(signer, Stamp(h, AuthorizationValue(signer, c.call, c.now), c.call.SendsJson()), calls[1..]);
    }
  }

  /**
   * `Content-Type` is in the map after a sequence of calls exactly when it
   * was there before or one of the calls was a POST or a PUT; once a POST
   * or PUT has set it, it stays `application/json` for every later GET and
   * DELETE.
   */
  lemma {:induction false} ContentTypeSticky(signer: Signer, h: map<string, string>, calls: seq<Sent>)
    ensures ContentTypeHeader in HeadersAfter(signer, h, calls)
        <==> ContentTypeHeader in h || exists i :: 0 <= i < |calls| && calls[i].call.SendsJson()
    ensures (ContentTypeHeader in h ==> h[ContentTypeHeader] == JsonMediaType) && ContentTypeHeader in HeadersAfter(signer, h, calls)
        ==> HeadersAfter(signer, h, calls)[ContentTypeHeader] == JsonMediaType
    decreases |calls|
  {
    if |calls| > 0 {
      var c := calls[0];
      var h' := Stamp(h, AuthorizationValue(signer, c.call, c.now), c.call.SendsJson());
      ContentTypeSticky(signer, h', calls[1..]);
      if exists i :: 0 <= i < |calls| && calls[i].call.SendsJson() {
        var i :| 0 <= i < |calls| && calls[i].call.SendsJson();
        if i > 0 {
          assert calls[1..][i - 1] == calls[i];
        }
      }
      if exists i :: 0 <= i < |calls[1..]| && calls[1..][i].call.SendsJson() {
        var i :| 0 <= i < |calls[1..]| && calls[1..][i].call.SendsJson();
        assert calls[i + 1] == calls[1..][i];
      }
    }
  }

  /** After a non-empty sequence of calls, `Authorization` holds the last call's token. */
  lemma {:induction false} LastAuthorizationWins(signer: Signer, h: map<string, string>, calls: seq<Sent>)
    requires |calls| > 0
    ensures AuthorizationHeader in HeadersAfter(signer, h, calls)
    ensures HeadersAfter(signer, h, calls)[AuthorizationHeader]
         == AuthorizationValue(signer, calls[|calls| - 1].call, calls[|calls| - 1].now)
    decreases |calls|
  {
    var c := calls[0];
    var h' := Stamp(h, AuthorizationValue(signer, c.call, c.now), c.call.SendsJson());
    if |calls| > 1 {
      LastAuthorizationWins(signer, h', calls[1..]);
      assert calls[1..][|calls[1..]| - 1] == calls[|calls| - 1];
    }
  }

  /** The status codes the helpers accept. */
  const SuccessCodes: set<int> := {200, 201, 204}

  /**
   * `handle_response_status`: the response itself when its status is 200,
   * 201 or 204, otherwise a failure carrying the URL, the body and the
   * status.
   */
  function HandleResponseStatus(response: Response): (r: Result<Response, Failure>)
    ensures r.Ok? <==> response.statusCode == 200 || response.statusCode == 201 || response.statusCode == 204
    ensures r.Ok? ==> r.value == response
    ensures r.Err? ==> r.error == RequestFailed(response.url, response.content, response.statusCode)
  {
    if response.statusCode in SuccessCodes then Ok(response)
    else Err(RequestFailed(response.url, response.content, response.statusCode))
  }

  /**
   * The request helpers of one process. `headers` is the module-wide
   * `DEFAULT_HEADERS` dictionary that every helper updates in place.
   */
  class Gateway {
    const zapiUrl: string
    const signer: Signer
    var headers: map<string, string>

    /** `zapiAccessKey` is present with the configured access key. */
    ghost predicate Valid()
      reads this
    {
      AccessKeyHeader in headers && headers[AccessKeyHeader] == signer.cred.accessKey
    }

    /** `DEFAULT_HEADERS = {"zapiAccessKey": ACCESS_KEY}` */
    constructor (zapiUrl: string, signer: Signer)
      ensures this.zapiUrl == zapiUrl && this.signer == signer
      ensures headers == map[AccessKeyHeader := signer.cred.accessKey]
      ensures Valid()
    {
      this.zapiUrl := zapiUrl;
      this.signer := signer;
      headers := map[AccessKeyHeader := signer.cred.accessKey];
    }

    /**
     * Signs `c` at clock reading `now`, writes the headers, sends the request
     * with `data` through `server` and classifies the response.
     */
    method Send(c: Call, data: Option<Payload>, now: int, server: Request -> Response)
      returns (r: Result<Response, Failure>)
      modifies this
      ensures headers == Stamp(old(headers), AuthorizationValue(signer, c, now), c.SendsJson())
      ensures old(Valid()) ==> Valid()
      ensures r == HandleResponseStatus(server(Request(c.Method(), Url(zapiUrl, c), headers, data)))
    {
      headers := headers[AuthorizationHeader := AuthorizationValue(signer, c, now)];
      if c.SendsJson() {
        headers := headers[ContentTypeHeader := JsonMediaType];
      }
      var response := server(Request(c.Method(), Url(zapiUrl, c), headers, data));
      r := HandleResponseStatus(response);
    }

    /** `get_request(uri, query)` */
    method GetRequest(uri: string, query: string, now: int, server: Request -> Response)
      returns (r: Result<Response, Failure>)
      modifies this
      ensures headers == old(headers)[AuthorizationHeader := AuthorizationValue(signer, Call.Get(uri, query), now)]
      ensures old(Valid()) ==> Valid()
      ensures r == HandleResponseStatus(server(Request(GET, zapiUrl + uri + "?" + query, headers, None)))
    {
      r := Send(Call.Get(uri, query), None, now, server);
    }

    /** `get_request_no_params(uri)` */
    method GetRequestNoParams(uri: string, now: int, server: Request -> Response)
      returns (r: Result<Response, Failure>)
      modifies this
      ensures headers == old(headers)[AuthorizationHeader := AuthorizationValue(signer, Call.GetNoParams(uri), now)]
      ensures old(Valid()) ==> Valid()
      ensures r == HandleResponseStatus(server(Request(GET, zapiUrl + uri, headers, None)))
    {
      r := Send(Call.GetNoParams(uri), None, now, server);
    }

    /** `post_request(uri, payload)` */
    method PostRequest(uri: string, payload: Option<Payload>, now: int, server: Request -> Response)
      returns (r: Result<Response, Failure>)
      modifies this
      ensures headers == old(headers)[AuthorizationHeader := AuthorizationValue(signer, Call.Post(uri), now)]
                                     [ContentTypeHeader := JsonMediaType]
      ensures old(Valid()) ==> Valid()
      ensures r == HandleResponseStatus(server(Request(POST, zapiUrl + uri, headers, payload)))
    {
      r := Send(Call.Post(uri), payload, now, server);
    }

    /** `put_request(uri, payload)` */
    method PutRequest(uri: string, payload: Option<Payload>, now: int, server: Request -> Response)
      returns (r: Result<Response, Failure>)
      modifies this
      ensures headers == old(headers)[AuthorizationHeader := AuthorizationValue(signer, Call.Put(uri), now)]
                                     [ContentTypeHeader := JsonMediaType]
      ensures old(Valid()) ==> Valid()
      ensures r == HandleResponseStatus(server(Request(PUT, zapiUrl + uri, headers, payload)))
    {
      r := Send(Call.Put(uri), payload, now, server);
    }

    /** `delete_request(uri, query)` */
    method DeleteRequest(uri: string, query: string, now: int, server: Request -> Response)
      returns (r: Result<Response, Failure>)
      modifies this
      ensures headers == old(headers)[AuthorizationHeader := AuthorizationValue(signer, Call.Delete(uri, query), now)]
      ensures old(Valid()) ==> Valid()
      ensures r == HandleResponseStatus(server(Request(DELETE, zapiUrl + uri + "?" + query, headers, None)))
    {
      r := Send(Call.Delete(uri, query), None, now, server);
    }
  }
}
