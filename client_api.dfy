/**
 * The client's shared HTTP instance: a request interceptor that attaches the
 * stored admin token as a bearer header, and a response interceptor that
 * forgets the token when the server answers 401.
 */
module ClientApi {
  import opened Wrappers
  import opened Http

  /** The `localStorage` key of the session token. */
  const TokenKey := "adminToken"

  /** The response an error carries, when the server answered at all. */
  datatype ErrorResponse = ErrorResponse(status: int, data: Option<Payload>)

  /** A rejected request: `error.response` is absent on network failures. */
  datatype ApiError = ApiError(response: Option<ErrorResponse>)

  /** A settled promise. */
  datatype Settled<T, E> = Resolved(value: T) | Rejected(error: E)

  /** `localStorage` */
  class Storage {
    var items: map<string, string>

    constructor (items: map<string, string>)
      ensures this.items == items
    {
      this.items := items;
    }
  }

  /** The part of an axios request config the interceptor touches. */
  class RequestConfig {
    var headers: map<string, string>
    var url: string
    var data: Body

    constructor (headers: map<string, string>, url: string, data: Body)
      ensures this.headers == headers && this.url == url && this.data == data
    {
      this.headers := headers;
      this.url := url;
      this.data := data;
    }
  }

  /** `localStorage.getItem("adminToken")` used as a condition: absent (null)
      and the empty string are both falsy. */
  function StoredToken(items: map<string, string>): (t: Option<string>)
    ensures t.Some? <==> TokenKey in items && items[TokenKey] != ""
    ensures t.Some? ==> t.value == items[TokenKey]
  {
    if TokenKey in items && items[TokenKey] != "" then Some(items[TokenKey]) else None
  }

  /** The header value built from a token. */
  function BearerHeader(token: string): string {
    "Bearer " + token
  }

  /** The headers a request leaves with. */
  function WithToken(headers: map<string, string>, items: map<string, string>): map<string, string> {
    match StoredToken(items)
    case Some(token) => headers["Authorization" := BearerHeader(token)]
    case None => headers
  }

  /** The interceptor sets `Authorization` to "Bearer " + token when a token is
      stored, leaves the headers as they were otherwise, and never touches any
      other header. */
  lemma WithTokenChangesOnlyAuthorization(headers: map<string, string>, items: map<string, string>)
    ensures var out := WithToken(headers, items);
      && (StoredToken(items).Some? ==>
            "Authorization" in out && out["Authorization"] == "Bearer " + items[TokenKey])
      && (StoredToken(items).None? ==> out == headers)
      && out.Keys - {"Authorization"} == headers.Keys - {"Authorization"}
      && (forall k :: k in headers && k != "Authorization" ==> out[k] == headers[k])
  {
  }

  /** The request interceptor: changes the config in place and returns it. */
  method InterceptRequest(config: RequestConfig, storage: Storage) returns (r: RequestConfig)
    modifies config
    ensures r == config
    ensures config.headers == WithToken(old(config.headers), storage.items)
    ensures config.url == old(config.url) && config.data == old(config.data)
  {
    var token := StoredToken(storage.items);
    if token.Some? {
      config.headers := config.headers["Authorization" := BearerHeader(token.value)];
    }
    r := config;
  }

  /** `error.response?.status === 401` */
  predicate IsUnauthorized(err: ApiError) {
    err.response.Some? && err.response.value.status == 401
  }

  /** The response interceptor: successes pass through unchanged; every error
      is passed on, still rejected, after a 401 has removed the stored token. */
  method InterceptResponse(outcome: Settled<Response, ApiError>, storage: Storage)
    returns (r: Settled<Response, ApiError>)
    modifies storage
    ensures r == outcome
    ensures outcome.Resolved? ==> storage.items == old(storage.items)
    ensures outcome.Rejected? && IsUnauthorized(outcome.error) ==>
      storage.items == old(storage.items) - {TokenKey}
    ensures outcome.Rejected? && !IsUnauthorized(outcome.error) ==>
      storage.items == old(storage.items)
  {
    if outcome.Rejected? && IsUnauthorized(outcome.error) {
      storage.items := storage.items - {TokenKey};
    }
    r := outcome;
  }

  /** After a 401 no token is attached to later requests; after any other
      error the stored token keeps being sent. */
  lemma UnauthorizedStopsTokenSending(items: map<string, string>, headers: map<string, string>)
    ensures WithToken(headers, items - {TokenKey}) == headers
  {
  }
}
