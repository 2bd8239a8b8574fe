/**
  `JSONRPCAPIClient`: builds JSON-RPC 2.0 calls, sends them to the configured endpoint and turns
  the answers into values or errors. The JSON codec, Foundation's URL parser and the network
  are collaborators handed to the client; each is a function whose outcome the client only
  inspects for success or failure.
*/
module RpcClient {
  import opened Wrappers
  import opened Bytes
  import opened Errors
  import opened UInt64Parsing
  import opened ErrorRewrite

  /**
    `RequestConfiguration`: the optional trailing parameter of most calls. Its initializer
    `RequestConfiguration(commitment:encoding:)` is failable and not part of this model; the
    client is handed it as `makeConfiguration`, and a nil configuration is sent as it is.
  */
  datatype RequestConfiguration = RequestConfiguration(commitment: Option<string>, encoding: Option<string>)

  /** One parameter of a call, as handed to the encoder. */
  datatype Param =
    | StringParam(text: string)
    | UIntParam(number: nat)
    | StringsParam(texts: seq<string>)
    | ConfigParam(config: Option<RequestConfiguration>)

  /** `JSONRPCRequestEncoder.RequestType`: one method call. */
  datatype RequestType = RequestType(methodName: string, params: seq<Param>)

  /** The envelope of an outgoing body: one call object, or an array of call objects. */
  datatype Framing = Single(request: RequestType) | Batch(requests: seq<RequestType>)

  function FramedRequests(f: Framing): seq<RequestType> {
    match f
    case Single(request) => [request]
    case Batch(requests) => requests
  }

  /**
    The envelope `makeRequest` encodes: a single object for exactly one call, an array for any
    other number of calls (section 6 of the JSON-RPC 2.0 specification). No call is lost,
    added or reordered.
  */
  function Frame(requests: seq<RequestType>): (f: Framing)
    ensures f.Single? <==> |requests| == 1
    ensures FramedRequests(f) == requests
  {
    if |requests| == 1 then Single(requests[0]) else Batch(requests)
  }

  datatype URL = URL(absoluteString: string)

  datatype URLRequest = URLRequest(
    url: URL,
    httpMethod: string,
    httpBody: Option<Data>,
    headers: seq<(string, string)>)

  const ContentTypeHeader: (string, string) := ("Content-Type", "application/json; charset=utf-8")

  /** `APIEndPoint`, reduced to the address `getURL()` returns. */
  datatype APIEndPoint = APIEndPoint(address: string) {
    function GetURL(): string {
      address
    }
  }

  /** `AnyResponse<Entity>`: one decoded response envelope `{id, result?, error?}`. */
  datatype AnyResponse<T> = AnyResponse(id: Option<string>, result: Option<T>, error: Option<ResponseError>)

  /** `Rpc<T>`: a result with its context; only `value` is read. */
  datatype Rpc<T> = Rpc(value: T)

  datatype TokenAccountBalance = TokenAccountBalance(
    amount: string,
    decimals: Option<nat>,
    uiAmountString: Option<string>)

  datatype Fee = Fee(blockhash: Option<string>, lamportsPerSignature: Option<nat>)

  datatype SignatureStatus = SignatureStatus(
    slot: nat,
    confirmations: Option<nat>,
    err: Option<TransactionErr>,
    confirmationStatus: Option<string>)

  datatype SimulationResult = SimulationResult(err: Option<TransactionErr>, logs: seq<string>)

  /** `BufferInfo<T>`: an account, its data decoded with the layout `T`. */
  datatype BufferInfo<T> = BufferInfo(lamports: nat, owner: string, data: T, executable: bool, rentEpoch: nat)

  /** `NetworkManager.requestData(request:)`: the response bytes, or the transport's error. */
  type NetworkManager = URLRequest -> Result<Data, Error>

  /** `JSONRPCRequestEncoder(...).encoded()`: the body bytes, or nil when encoding throws. */
  type RequestEncoder = Framing -> Option<Data>

  /** `JSONRPCResponseDecoder<T>().decode(with:)`: the decoded value, or the error it throws. */
  type ResponseDecoder<T> = Data -> Result<T, Error>

  /** The codec's initializer `AnyResponse<Entity>(resp)`: one decoded envelope re-typed as another. */
  type ResponseConverter<!A, E> = AnyResponse<A> -> AnyResponse<E>

  class JSONRPCAPIClient {
    const endpoint: APIEndPoint
    const networkManager: NetworkManager
    const requestEncoder: RequestEncoder
    /** Foundation's `URL(string:)`. */
    const parseURL: string -> Option<URL>
    /** `RequestConfiguration(commitment:encoding:)`, which may return nil. */
    const makeConfiguration: (Option<string>, Option<string>) -> Option<RequestConfiguration>

    constructor(
      endpoint: APIEndPoint,
      networkManager: NetworkManager,
      requestEncoder: RequestEncoder,
      parseURL: string -> Option<URL>,
      makeConfiguration: (Option<string>, Option<string>) -> Option<RequestConfiguration>)
      ensures this.endpoint == endpoint && this.networkManager == networkManager
      ensures this.requestEncoder == requestEncoder && this.parseURL == parseURL
      ensures this.makeConfiguration == makeConfiguration
    {
      this.endpoint := endpoint;
      this.networkManager := networkManager;
      this.requestEncoder := requestEncoder;
      this.parseURL := parseURL;
      this.makeConfiguration := makeConfiguration;
    }

    /**
      The request `urlRequest(data:)` builds: an endpoint that is not a URL is `invalidAPIURL`;
      otherwise a POST to it whose body is `data`, sent as JSON.
    */
    function OutboundRequest(data: Data): (r: Result<URLRequest, Error>)
      ensures parseURL(endpoint.GetURL()).None? ==> r == Failure(ApiClient(InvalidAPIURL))
      ensures parseURL(endpoint.GetURL()).Some? ==>
        r.Success? && r.value.url == parseURL(endpoint.GetURL()).value &&
        r.value.httpMethod == "POST" && r.value.httpBody == Some(data) &&
        r.value.headers == [ContentTypeHeader]
    {
      match parseURL(endpoint.GetURL())
      case None => Failure(ApiClient(InvalidAPIURL))
      case Some(url) => Success(URLRequest(url, "POST", Some(data), [ContentTypeHeader]))
    }

    /** `urlRequest(data:)`, filling in a default request field by field. */
    method UrlRequest(data: Data) returns (r: Result<URLRequest, Error>)
      ensures r == OutboundRequest(data)
    {
      var url := parseURL(endpoint.GetURL());
      if url.None? {
        return Failure(ApiClient(InvalidAPIURL));
      }
      var urlRequest := URLRequest(url.value, "GET", None, []);
      urlRequest := urlRequest.(httpBody := Some(data));
      urlRequest := urlRequest.(httpMethod := "POST");
      urlRequest := urlRequest.(headers := urlRequest.headers + [ContentTypeHeader]);
      assert urlRequest.headers == [ContentTypeHeader];
      return Success(urlRequest);
    }

    /**
      What `makeRequest(requests:)` returns: an encoder failure is `cantEncodeParams`, a bad
      endpoint is `invalidAPIURL`, and otherwise the transport's answer to a POST whose body is
      exactly the encoded envelope.
    */
    function Exchange(requests: seq<RequestType>): (r: Result<Data, Error>)
      ensures requestEncoder(Frame(requests)).None? ==> r == Failure(ApiClient(CantEncodeParams))
      ensures requestEncoder(Frame(requests)).Some? && parseURL(endpoint.GetURL()).None? ==>
        r == Failure(ApiClient(InvalidAPIURL))
      ensures requestEncoder(Frame(requests)).Some? && parseURL(endpoint.GetURL()).Some? ==>
        r == networkManager(URLRequest(
          parseURL(endpoint.GetURL()).value, "POST",
          Some(requestEncoder(Frame(requests)).value), [ContentTypeHeader]))
    {
      match requestEncoder(Frame(requests))
      case None => Failure(ApiClient(CantEncodeParams))
      case Some(encodedParams) =>
        match OutboundRequest(encodedParams)
        case Failure(e) => Failure(e)
        case Success(urlRequest) => networkManager(urlRequest)
    }

    /** `makeRequest(requests:)`, appending the encoded envelope to an empty buffer. */
    method MakeRequest(requests: seq<RequestType>) returns (r: Result<Data, Error>)
      ensures r == Exchange(requests)
    {
      var encodedParams: Data := [];
      var encoded: Option<Data>;
      if |requests| == 1 {
        encoded := requestEncoder(Single(requests[0]));
      } else {
        encoded := requestEncoder(Batch(requests));
      }
      if encoded.None? {
        return Failure(ApiClient(CantEncodeParams));
      }
      encodedParams := encodedParams + encoded.value;
      assert encodedParams == encoded.value;
      var urlRequest := UrlRequest(encodedParams);
      if urlRequest.Failure? {
        return Failure(urlRequest.error);
      }
      r := networkManager(urlRequest.value);
    }

    /** `request(with: request)`: one call, sent as a single object, its answer decoded as one envelope. */
    function Request<T>(request: RequestType, decoder: ResponseDecoder<AnyResponse<T>>): (r: Result<AnyResponse<T>, Error>)
      ensures Exchange([request]).Failure? ==> r == Failure(Exchange([request]).error)
      ensures Exchange([request]).Success? ==> r == decoder(Exchange([request]).value)
    {
      match Exchange([request])
      case Failure(e) => Failure(e)
      case Success(data) => decoder(data)
    }

    /**
      `request(with: requests)`: the answer decoded as an array of envelopes, each re-typed by
      the codec's `AnyResponse<Entity>(resp)`, so the i-th envelope returned is the i-th one decoded.
    */
    function RequestBatch<A, E>(
      requests: seq<RequestType>,
      decoder: ResponseDecoder<seq<AnyResponse<A>>>,
      convert: ResponseConverter<A, E>): (r: Result<seq<AnyResponse<E>>, Error>)
      ensures r.Success? <==> Exchange(requests).Success? && decoder(Exchange(requests).value).Success?
      ensures r.Success? ==>
        var decoded := decoder(Exchange(requests).value).value;
        |r.value| == |decoded| &&
        forall i :: 0 <= i < |decoded| ==> r.value[i] == convert(decoded[i])
      ensures Exchange(requests).Failure? ==> r == Failure(Exchange(requests).error)
      ensures Exchange(requests).Success? && decoder(Exchange(requests).value).Failure? ==>
        r == Failure(decoder(Exchange(requests).value).error)
    {
      match Exchange(requests)
      case Failure(e) => Failure(e)
      case Success(data) =>
        match decoder(data)
        case Failure(e) => Failure(e)
        case Success(responses) => Success(seq(|responses|, i requires 0 <= i < |responses| => convert(responses[i])))
    }

    /**
      `get(method:params:)`: the decoded `result`, unchanged, when the envelope has one;
      `cantDecodeResponse` when it has none; any earlier error as it was thrown.
    */
    function Get<T>(methodName: string, params: seq<Param>, decoder: ResponseDecoder<AnyResponse<T>>): (r: Result<T, Error>)
      ensures var response := Request(RequestType(methodName, params), decoder);
        && (r.Success? <==> response.Success? && response.value.result.Some?)
        && (r.Success? ==> r.value == response.value.result.value)
        && (response.Success? && response.value.result.None? ==> r == Failure(ApiClient(CantDecodeResponse)))
        && (response.Failure? ==> r == Failure(response.error))
    {
      match Request(RequestType(methodName, params), decoder)
      case Failure(e) => Failure(e)
      case Success(response) =>
        if response.result.None? then Failure(ApiClient(CantDecodeResponse)) else Success(response.result.value)
    }

    /**
      A transport failure reaches the caller of a call unchanged, whatever the decoder would
      have made of a response.
    */
    lemma TransportErrorPassesThrough<T>(request: RequestType, decoder: ResponseDecoder<AnyResponse<T>>, e: Error)
      requires requestEncoder(Single(request)).Some? && parseURL(endpoint.GetURL()).Some?
      requires networkManager(OutboundRequest(requestEncoder(Single(request)).value).value) == Failure(e)
      ensures Request(request, decoder) == Failure(e)
      ensures Get(request.methodName, request.params, decoder) == Failure(e)
    {
    }

    /** When the bytes the node sends back decode to an envelope holding `x`, `get` returns `x`. */
    lemma GetReturnsDecodedResult<T>(methodName: string, params: seq<Param>, decoder: ResponseDecoder<AnyResponse<T>>, data: Data, x: T)
      requires Exchange([RequestType(methodName, params)]) == Success(data)
      requires decoder(data).Success? && decoder(data).value.result == Some(x)
      ensures Get(methodName, params, decoder) == Success(x)
    {
    }

    /** `getBalance(account:commitment:)`: the `value` of the decoded result, or `cantDecodeResponse` without one. */
    function GetBalance(account: string, commitment: Option<string>, decoder: ResponseDecoder<AnyResponse<Rpc<nat>>>): (r: Result<nat, Error>)
      ensures var response := Request(RequestType("getBalance",
          [StringParam(account), ConfigParam(makeConfiguration(commitment, None))]), decoder);
        && (r.Success? <==> response.Success? && response.value.result.Some?)
        && (r.Success? ==> r.value == response.value.result.value.value)
        && (response.Success? && response.value.result.None? ==> r == Failure(ApiClient(CantDecodeResponse)))
        && (response.Failure? ==> r == Failure(response.error))
    {
      var req := RequestType("getBalance", [StringParam(account), ConfigParam(makeConfiguration(commitment, None))]);
      match Request(req, decoder)
      case Failure(e) => Failure(e)
      case Success(response) =>
        if response.result.None? then Failure(ApiClient(CantDecodeResponse)) else Success(response.result.value.value)
    }

    /** `getRecentBlockhash(commitment:)`: the blockhash of the fee record; a nil one is `other("Blockhash not found")`. */
    function GetRecentBlockhash(commitment: Option<string>, decoder: ResponseDecoder<AnyResponse<Rpc<Fee>>>): (r: Result<string, Error>)
      ensures var got := Get("getRecentBlockhash", [ConfigParam(makeConfiguration(commitment, None))], decoder);
        && (r.Success? <==> got.Success? && got.value.value.blockhash.Some?)
        && (r.Success? ==> got.value.value.blockhash == Some(r.value))
        && (got.Success? && got.value.value.blockhash.None? ==> r == Failure(Solana(Other("Blockhash not found"))))
        && (got.Failure? ==> r == Failure(got.error))
    {
      match Get("getRecentBlockhash", [ConfigParam(makeConfiguration(commitment, None))], decoder)
      case Failure(e) => Failure(e)
      case Success(result) =>
        if result.value.blockhash.None? then Failure(Solana(Other("Blockhash not found")))
        else Success(result.value.blockhash.value)
    }

    /** `getSignatureStatuses(signatures:configs:)`: the list of statuses, one per signature asked about. */
    function GetSignatureStatuses(
      signatures: seq<string>,
      configs: Option<RequestConfiguration>,
      decoder: ResponseDecoder<AnyResponse<Rpc<seq<Option<SignatureStatus>>>>>): (r: Result<seq<Option<SignatureStatus>>, Error>)
      ensures var got := Get("getSignatureStatuses", [StringsParam(signatures), ConfigParam(configs)], decoder);
        && (r.Success? <==> got.Success?)
        && (r.Success? ==> r.value == got.value.value)
        && (got.Failure? ==> r == Failure(got.error))
    {
      match Get("getSignatureStatuses", [StringsParam(signatures), ConfigParam(configs)], decoder)
      case Failure(e) => Failure(e)
      case Success(result) => Success(result.value)
    }

    /**
      `getSignatureStatus(signature:configs:)`: the first status of the list for `[signature]`;
      an empty list or a nil first status is `cantDecodeResponse`. The `configs` argument is
      ignored: the statuses are always asked for without one.
    */
    function GetSignatureStatus(
      signature: string,
      configs: Option<RequestConfiguration>,
      decoder: ResponseDecoder<AnyResponse<Rpc<seq<Option<SignatureStatus>>>>>): (r: Result<SignatureStatus, Error>)
      ensures var statuses := GetSignatureStatuses([signature], None, decoder);
        && (r.Success? <==> statuses.Success? && |statuses.value| > 0 && statuses.value[0].Some?)
        && (r.Success? ==> r.value == statuses.value[0].value)
        && (statuses.Success? && (|statuses.value| == 0 || statuses.value[0].None?) ==>
              r == Failure(ApiClient(CantDecodeResponse)))
        && (statuses.Failure? ==> r == Failure(statuses.error))
    {
      match GetSignatureStatuses([signature], None, decoder)
      case Failure(e) => Failure(e)
      case Success(statuses) =>
        if |statuses| == 0 then Failure(ApiClient(CantDecodeResponse))
        else if statuses[0].None? then Failure(ApiClient(CantDecodeResponse))
        else Success(statuses[0].value)
    }

    /**
      `getTokenAccountBalance(pubkey:commitment:)`: the balance as decoded, but only when its
      amount reads as a `UInt64`; otherwise `couldNotRetrieveAccountInfo`. A balance returned
      therefore always carries a 64-bit amount.
    */
    function GetTokenAccountBalance(
      pubkey: string,
      commitment: Option<string>,
      decoder: ResponseDecoder<AnyResponse<Rpc<TokenAccountBalance>>>): (r: Result<TokenAccountBalance, Error>)
      ensures r.Success? ==> ParseUInt64(r.value.amount).Some?
      ensures var got := Get("getTokenAccountBalance",
          [StringParam(pubkey), ConfigParam(makeConfiguration(commitment, None))], decoder);
        && (r.Success? <==> got.Success? && ParseUInt64(got.value.value.amount).Some?)
        && (r.Success? ==> r.value == got.value.value)
        && (got.Success? && ParseUInt64(got.value.value.amount).None? ==> r == Failure(Solana(CouldNotRetrieveAccountInfo)))
        && (got.Failure? ==> r == Failure(got.error))
    {
      match Get("getTokenAccountBalance", [StringParam(pubkey), ConfigParam(makeConfiguration(commitment, None))], decoder)
      case Failure(e) => Failure(e)
      case Success(result) =>
        if ParseUInt64(result.value.amount).None? then Failure(Solana(CouldNotRetrieveAccountInfo))
        else Success(result.value)
    }

    /**
      `getAccountInfo(account:)`: the account, never nil. Every way of not getting one — a
      thrown error of any kind, a missing result, a null account — is `couldNotRetrieveAccountInfo`.
    */
    function GetAccountInfo<T>(account: string, decoder: ResponseDecoder<AnyResponse<Rpc<Option<BufferInfo<T>>>>>): (r: Result<BufferInfo<T>, Error>)
      ensures r.Failure? ==> r.error == Solana(CouldNotRetrieveAccountInfo)
      ensures var response := Request(RequestType("getAccountInfo",
          [StringParam(account), ConfigParam(makeConfiguration(None, Some("base64")))]), decoder);
        && (r.Success? <==> response.Success? && response.value.result.Some? && response.value.result.value.value.Some?)
        && (r.Success? ==> r.value == response.value.result.value.value.value)
    {
      var req := RequestType("getAccountInfo", [StringParam(account), ConfigParam(makeConfiguration(None, Some("base64")))]);
      match Request(req, decoder)
      case Failure(_) => Failure(Solana(CouldNotRetrieveAccountInfo))
      case Success(response) =>
        if response.result.None? || response.result.value.value.None? then Failure(Solana(CouldNotRetrieveAccountInfo))
        else Success(response.result.value.value.value)
    }

    /**
      `simulateTransaction(transaction:configs:)`: the simulation when it reports no `err`; an
      `err` that is the string "BlockhashNotFound" is `other("Blockhash not found")`, any other
      `err` is `transactionError` with the simulation's logs.
    */
    function SimulateTransaction(
      transaction: string,
      configs: RequestConfiguration,
      decoder: ResponseDecoder<AnyResponse<Rpc<SimulationResult>>>): (r: Result<SimulationResult, Error>)
      ensures r.Success? ==> r.value.err.None?
      ensures var got := Get("simulateTransaction", [StringParam(transaction), ConfigParam(Some(configs))], decoder);
        && (r.Success? <==> got.Success? && got.value.value.err.None?)
        && (r.Success? ==> r.value == got.value.value)
        && (got.Success? && got.value.value.err == Some(StringErr("BlockhashNotFound")) ==>
              r == Failure(Solana(Other("Blockhash not found"))))
        && (got.Success? && got.value.value.err.Some? && got.value.value.err != Some(StringErr("BlockhashNotFound")) ==>
              r == Failure(Solana(TransactionError(got.value.value.err.value, got.value.value.logs))))
        && (got.Failure? ==> r == Failure(got.error))
    {
      match Get("simulateTransaction", [StringParam(transaction), ConfigParam(Some(configs))], decoder)
      case Failure(e) => Failure(e)
      case Success(result) =>
        match result.value.err
        case None => Success(result.value)
        case Some(err) =>
          if err == StringErr("BlockhashNotFound") then Failure(Solana(Other("Blockhash not found")))
          else Failure(Solana(TransactionError(err, result.value.logs)))
    }

    /**
      `getMultipleAccounts(pubkeys:)`: no keys means no accounts, answered without asking the
      node; otherwise the accounts the node returns.
    */
    function GetMultipleAccounts<T>(
      pubkeys: seq<string>,
      decoder: ResponseDecoder<AnyResponse<Rpc<seq<BufferInfo<T>>>>>): (r: Result<seq<BufferInfo<T>>, Error>)
      ensures |pubkeys| == 0 ==> r == Success([])
      ensures |pubkeys| > 0 ==>
        var got := Get("getMultipleAccounts",
          [StringsParam(pubkeys), ConfigParam(makeConfiguration(None, Some("base64")))], decoder);
        && (r.Success? <==> got.Success?)
        && (r.Success? ==> r.value == got.value.value)
        && (got.Failure? ==> r == Failure(got.error))
    {
      if |pubkeys| == 0 then Success([])
      else
        match Get("getMultipleAccounts", [StringsParam(pubkeys), ConfigParam(makeConfiguration(None, Some("base64")))], decoder)
        case Failure(e) => Failure(e)
        case Success(result) => Success(result.value)
    }

    /**
      `sendTransaction(transaction:configs:)`: the signature the node returns; a failure is
      rethrown after its message is made readable (`RewrittenError`).
    */
    method SendTransaction(
      transaction: string,
      configs: RequestConfiguration,
      decoder: ResponseDecoder<AnyResponse<string>>) returns (r: Result<string, Error>)
      ensures var got := Get("sendTransaction", [StringParam(transaction), ConfigParam(Some(configs))], decoder);
        && (got.Success? ==> r == got)
        && (got.Failure? ==> r == Failure(RewrittenError(got.error)))
    {
      var got := Get("sendTransaction", [StringParam(transaction), ConfigParam(Some(configs))], decoder);
      if got.Success? {
        return got;
      }
      var error := got.error;
      if error.Solana? && error.solanaError.InvalidResponse? && error.solanaError.response.message.Some? {
        var response := error.solanaError.response;
        var message := response.message;
        message := Some(ReadableMessage(response));
        return Failure(Solana(InvalidResponse(ResponseError(response.code, message, response.data))));
      }
      return Failure(error);
    }
  }
}
