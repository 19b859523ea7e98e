/**
 * The error message a failed HTTP exchange produces, "Error <status>: <statusText>", and the
 * parser that recovers the status code and status text from it.
 */
module HttpError {
  import opened Wrappers
  import opened Decimal

  const PREFIX: string := "Error "
  const SEPARATOR: string := ": "

  function HttpErrorMessage(status: nat, statusText: string): (m: string)
    ensures PREFIX <= m
  {
    PREFIX + DecimalString(status) + SEPARATOR + statusText
  }

  /**
   * Reads a message of the form "Error <digits>: <text>" into its status and text; any
   * other string reads as None.
   */
  function ParseHttpErrorMessage(m: string): (r: Option<(nat, string)>)
    ensures r.Some? ==> PREFIX <= m
  {
    if |m| < |PREFIX| || m[..|PREFIX|] != PREFIX then None
    else
      var k := DigitsEnd(m, |PREFIX|);
      if k == |PREFIX| || |m| < k + |SEPARATOR| || m[k..k + |SEPARATOR|] != SEPARATOR then None
      else Some((ParseDigits(m[|PREFIX|..k]), m[k + |SEPARATOR|..]))
  }

  /** The message carries its status code and status text exactly: both can be read back. */
  lemma HttpErrorMessageRoundTrip(status: nat, statusText: string)
    ensures ParseHttpErrorMessage(HttpErrorMessage(status, statusText)) == Some((status, statusText))
  {
    var m := HttpErrorMessage(status, statusText);
    var digits := DecimalString(status);
    var k := |PREFIX| + |digits|;
    assert m[..|PREFIX|] == PREFIX;
    assert m[|PREFIX|..k] == digits;
    assert m[k] == ':';
    DigitsEndAt(m, |PREFIX|, k);
    assert m[k..k + |SEPARATOR|] == SEPARATOR;
    assert m[k + |SEPARATOR|..] == statusText;
    ParseDecimalString(status);
  }

  /** Two failed exchanges give the same message only when their status and text agree. */
  lemma HttpErrorMessageInjective(s1: nat, t1: string, s2: nat, t2: string)
    requires HttpErrorMessage(s1, t1) == HttpErrorMessage(s2, t2)
    ensures s1 == s2 && t1 == t2
  {
    HttpErrorMessageRoundTrip(s1, t1);
    HttpErrorMessageRoundTrip(s2, t2);
  }
}

/**
 * The `Geppetto` client: construction (credential and base URL resolution) and `speak`, the
 * text-to-speech call. The HTTP exchange is an abstract response; the environment variable
 * GEPPETTO_API_KEY is a parameter.
 */
module Client {
  import opened Wrappers
  import opened JsValue
  import opened HttpError

  const DEFAULT_BASE_URL: string := "https://api.geppetto.app"
  const SPEAK_PATH: string := "/speak"
  const API_KEY_REQUIRED: string := "API Key is required"
  const EMPTY_BODY: string := "Response body is empty"
  const BEARER: string := "Bearer "

  /** The options object given to the constructor; an omitted object has both fields absent. */
  datatype ClientOptions = ClientOptions(apiKey: Option<string>, baseURL: Option<string>)

  /** The settings a successfully constructed client holds. */
  datatype Config = Config(apiKey: string, baseURL: string)

  /**
   * A destructuring default: the default is used only when the property is absent, so an
   * explicit empty string is kept.
   */
  function WithDefault(given: Option<string>, fallback: Option<string>): Option<string> {
    if given.Some? then given else fallback
  }

  /**
   * Construction: the key is the one given, else the environment value; it must be a
   * non-empty string. The base URL is the one given, else the production URL.
   */
  function ResolveClient(options: ClientOptions, env: Option<string>): (r: Result<Config, string>)
    ensures r.Failure? <==> !Truthy(MaybeStr(WithDefault(options.apiKey, env)))
    ensures r.Failure? ==> r.error == API_KEY_REQUIRED
    ensures r.Success? ==> r.value.apiKey != ""
    ensures r.Success? && options.apiKey.Some? ==> r.value.apiKey == options.apiKey.value
    ensures r.Success? && options.apiKey.None? ==> env.Some? && r.value.apiKey == env.value
    ensures r.Success? && options.baseURL.Some? ==> r.value.baseURL == options.baseURL.value
    ensures r.Success? && options.baseURL.None? ==> r.value.baseURL == DEFAULT_BASE_URL
  {
    var key := WithDefault(options.apiKey, env);
    var baseURL := WithDefault(options.baseURL, Some(DEFAULT_BASE_URL));
    if key.None? || key.value == "" then Failure(API_KEY_REQUIRED)
    else Success(Config(key.value, baseURL.value))
  }

  /** A possibly absent string as the JavaScript value it is: a string or `undefined`. */
  function MaybeStr(s: Option<string>): Value {
    if s.Some? then Str(s.value) else Undefined
  }

  /** The request `speak` sends. `body` is the object handed to `JSON.stringify`. */
  datatype Request = Request(url: string, httpMethod: string, headers: map<string, string>, body: map<string, Value>)

  /** What the server sent back: the body is a byte stream that may be missing. */
  datatype Body = Body(bytes: seq<byte>)
  datatype Response = Response(status: nat, statusText: string, body: Option<Body>)

  /** `fetch` either resolves with a response or rejects with an error message. */
  datatype FetchResult = Responded(response: Response) | Rejected(error: string)

  /** What `speak` ends in: a thrown error, the unread body stream, or the whole body as a buffer. */
  datatype SpeakResult = Failed(message: string) | Streamed(stream: Body) | Buffered(bytes: seq<byte>)

  /** `Response.ok` as the Fetch standard defines it: the status is in the range 200 to 299. */
  predicate Ok(r: Response) {
    200 <= r.status <= 299
  }

  /**
   * How `speak` turns the exchange into its result: a rejected fetch rethrows its error; a
   * non-OK status fails with "Error <status>: <statusText>"; a missing body fails; then a
   * truthy `stream` flag returns the body unread and anything else the body's bytes.
   */
  function SpeakOutcome(stream: Value, fetched: FetchResult): (r: SpeakResult)
    ensures fetched.Rejected? ==> r == Failed(fetched.error)
    ensures fetched.Responded? && !Ok(fetched.response) ==>
      r == Failed(HttpErrorMessage(fetched.response.status, fetched.response.statusText))
    ensures fetched.Responded? && Ok(fetched.response) && fetched.response.body.None? ==> r == Failed(EMPTY_BODY)
    ensures r.Streamed? <==> fetched.Responded? && Ok(fetched.response) && fetched.response.body.Some? && Truthy(stream)
    ensures r.Streamed? ==> r.stream == fetched.response.body.value
    ensures r.Buffered? <==> fetched.Responded? && Ok(fetched.response) && fetched.response.body.Some? && !Truthy(stream)
    ensures r.Buffered? ==> r.bytes == fetched.response.body.value.bytes
  {
    match fetched
    case Rejected(error) => Failed(error)
    case Responded(response) =>
      if !Ok(response) then Failed(HttpErrorMessage(response.status, response.statusText))
      else if response.body.None? then Failed(EMPTY_BODY)
      else if Truthy(stream) then Streamed(response.body.value)
      else Buffered(response.body.value.bytes)
  }

  /** A client with a key and a base URL, both fixed when it is constructed. */
  class Geppetto {
    const apiKey: string
    const baseURL: string

    /** The key is never empty: construction refuses an empty or missing one. */
    predicate Valid() {
      apiKey != ""
    }

    constructor(config: Config)
      requires config.apiKey != ""
      ensures apiKey == config.apiKey && baseURL == config.baseURL
      ensures Valid()
    {
      apiKey := config.apiKey;
      baseURL := config.baseURL;
    }

    /** `new Geppetto(options)`, with the environment value as a parameter and the throw as a Failure. */
    static method Create(options: ClientOptions, env: Option<string>) returns (r: Result<Geppetto, string>)
      ensures r.Failure? <==> ResolveClient(options, env).Failure?
      ensures r.Failure? ==> r.error == API_KEY_REQUIRED
      ensures r.Success? ==> fresh(r.value) && r.value.Valid()
      ensures r.Success? ==> ResolveClient(options, env) == Success(Config(r.value.apiKey, r.value.baseURL))
    {
      var resolved := ResolveClient(options, env);
      if resolved.Failure? {
        return Failure(resolved.error);
      }
      var client := new Geppetto(resolved.value);
      return Success(client);
    }

    /**
     * The request `speak` sends: one POST to the base URL followed by "/speak", a JSON
     * content type, the key as a bearer token, and the caller's options without `stream`
     * as the body.
     */
    function SpeakRequest(params: map<string, Value>): (r: Request)
      requires Valid()
      ensures r.url == baseURL + SPEAK_PATH && r.httpMethod == "POST"
      ensures r.headers.Keys == {"Content-Type", "Authorization"}
      ensures r.headers["Content-Type"] == "application/json"
      ensures BEARER <= r.headers["Authorization"] && r.headers["Authorization"][|BEARER|..] == apiKey
      ensures |r.headers["Authorization"]| > |BEARER|
      ensures r.body.Keys == params.Keys - {"stream"}
      ensures forall k :: k in r.body ==> r.body[k] == params[k]
    {
      Request(
        baseURL + SPEAK_PATH,
        "POST",
        map["Content-Type" := "application/json", "Authorization" := BEARER + apiKey],
        params - {"stream"})
    }

    /**
     * `speak`: sends `SpeakRequest(params)` to `server` once and shapes the answer. The
     * stream flag is read from the caller's options before it is removed from the body.
     */
    method Speak(params: map<string, Value>, server: Request -> FetchResult) returns (r: SpeakResult)
      requires Valid()
      ensures r == SpeakOutcome(Field(params, "stream"), server(SpeakRequest(params)))
    {
      var request := SpeakRequest(params);
      var fetched := server(request);
      r := SpeakOutcome(Field(params, "stream"), fetched);
    }
  }
}

/** Properties of construction and of `speak` that relate several calls. */
module ClientProperties {
  import opened Wrappers
  import opened JsValue
  import opened HttpError
  import opened Client

  /**
   * An explicitly empty key is refused even when the environment holds one: the environment
   * value only stands in for a key that was not given at all.
   */
  lemma ExplicitEmptyKeyRefused(baseURL: Option<string>, env: Option<string>)
    ensures ResolveClient(ClientOptions(Some(""), baseURL), env) == Failure(API_KEY_REQUIRED)
  {
  }

  /** Without options and without the environment variable, construction fails. */
  lemma NoKeyAnywhereRefused(baseURL: Option<string>)
    ensures ResolveClient(ClientOptions(None, baseURL), None) == Failure(API_KEY_REQUIRED)
  {
  }

  /**
   * Any base URL that is given is kept as it is, the empty string included, and the key
   * alone decides whether construction succeeds.
   */
  lemma BaseUrlNeverRefused(key: Option<string>, u1: Option<string>, u2: Option<string>, env: Option<string>)
    ensures ResolveClient(ClientOptions(key, u1), env).Failure? == ResolveClient(ClientOptions(key, u2), env).Failure?
  {
  }

  /**
   * The request body together with the removed `stream` entry is exactly the caller's
   * options: nothing else is dropped, added or changed.
   */
  lemma SpeakBodyRestoresOptions(g: Geppetto, params: map<string, Value>)
    requires g.Valid()
    ensures "stream" in params ==> g.SpeakRequest(params).body["stream" := params["stream"]] == params
    ensures "stream" !in params ==> g.SpeakRequest(params).body == params
  {
    var body := g.SpeakRequest(params).body;
    if "stream" in params {
      assert body["stream" := params["stream"]].Keys == params.Keys;
    } else {
      assert body.Keys == params.Keys;
    }
  }

  /**
   * A non-OK status fails with a message from which the status and status text can be
   * read back, and what the body holds (or whether there is one) makes no difference.
   */
  lemma NonOkIgnoresBody(stream: Value, status: nat, statusText: string, b1: Option<Body>, b2: Option<Body>)
    requires !(200 <= status <= 299)
    ensures SpeakOutcome(stream, Responded(Response(status, statusText, b1))) ==
            SpeakOutcome(stream, Responded(Response(status, statusText, b2)))
    ensures SpeakOutcome(stream, Responded(Response(status, statusText, b1))).Failed?
    ensures ParseHttpErrorMessage(SpeakOutcome(stream, Responded(Response(status, statusText, b1))).message) ==
            Some((status, statusText))
  {
    HttpErrorMessageRoundTrip(status, statusText);
  }

  /**
   * A missing body is refused before the stream flag is read: the outcome is the same
   * "Response body is empty" failure in both modes.
   */
  lemma EmptyBodyBeforeStreamFlag(s1: Value, s2: Value, status: nat, statusText: string)
    requires 200 <= status <= 299
    ensures SpeakOutcome(s1, Responded(Response(status, statusText, None))) == Failed(EMPTY_BODY)
    ensures SpeakOutcome(s1, Responded(Response(status, statusText, None))) ==
            SpeakOutcome(s2, Responded(Response(status, statusText, None)))
  {
  }

  /** Streaming and buffering the same response deliver the same bytes. */
  lemma StreamAndBufferAgree(on: Value, off: Value, fetched: FetchResult)
    requires Truthy(on) && !Truthy(off)
    requires SpeakOutcome(on, fetched).Streamed?
    ensures SpeakOutcome(off, fetched) == Buffered(SpeakOutcome(on, fetched).stream.bytes)
  {
  }

  /**
   * The failure messages of `speak` never collide: an HTTP error starts with "Error ",
   * which the empty-body message does not.
   */
  lemma HttpErrorIsNotEmptyBody(status: nat, statusText: string)
    ensures HttpErrorMessage(status, statusText) != EMPTY_BODY
  {
    assert EMPTY_BODY[0] != HttpErrorMessage(status, statusText)[0];
  }

  /**
   * The shape of a successful result follows the flag: `stream: true` can only give the
   * stream, and `stream` false or absent only a buffer.
   */
  lemma StreamFlagDecidesShape(params: map<string, Value>, fetched: FetchResult)
    ensures Field(params, "stream") == Bool(true) ==> !SpeakOutcome(Field(params, "stream"), fetched).Buffered?
    ensures Field(params, "stream") in {Bool(false), Undefined} ==> !SpeakOutcome(Field(params, "stream"), fetched).Streamed?
  {
  }
}
