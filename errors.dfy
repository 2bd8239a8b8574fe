/** The error taxonomy the client throws. */
module Errors {
  import opened Wrappers

  /** The `data` member of a JSON-RPC error object: the execution logs of a failed simulation. */
  datatype ResponseErrorData = ResponseErrorData(logs: Option<seq<string>>)

  /** A structured JSON-RPC error object `{code, message, data}` returned by the node. */
  datatype ResponseError = ResponseError(
    code: Option<int>,
    message: Option<string>,
    data: Option<ResponseErrorData>)

  /** `APIClientError`: failures of building a request or reading a response. */
  datatype APIClientError =
    | CantEncodeParams
    | InvalidAPIURL
    | CantDecodeResponse

  /** A non-nil `err` value of a simulation: a JSON string, or any other JSON value (kept as its text). */
  datatype TransactionErr = StringErr(text: string) | OtherErr(json: string)

  /** `SolanaError`: failures the node reports or that the client derives from a decoded value. */
  datatype SolanaError =
    | InvalidResponse(response: ResponseError)
    | CouldNotRetrieveAccountInfo
    | Other(description: string)
    | TransactionError(err: TransactionErr, logs: seq<string>)

  /** Any error that can leave a client call. */
  datatype Error =
    | ApiClient(apiError: APIClientError)
    | Solana(solanaError: SolanaError)
    /** An error of the transport (network failure, cancellation), passed through unchanged. */
    | Transport(reason: string)
}
