/** ApiResponse: the envelope every REST endpoint answers with, and its
    static factories for successful and failed calls. */
module ApiResponses {
  import opened Common
  import opened Domain

  /** The envelope: a success flag, a code, a message, the payload, optional
      metadata and the moment it was built. A null payload is None. */
  datatype ApiResponse<T> = ApiResponse(
    success: bool,
    code: string,
    message: string,
    data: Option<T>,
    metadata: Option<JsonObject>,
    timestamp: Instant)

  const OkCode: string := "OK"
  const DefaultSuccessMessage: string := "Operation completed successfully"

  /** The shape every success factory produces. */
  predicate IsSuccessEnvelope<T>(r: ApiResponse<T>) {
    r.success && r.code == OkCode
  }

  /** success(message, data, metadata): the most general success factory. */
  function SuccessWithMessageAndMetadata<T>(message: string, data: T, metadata: Option<JsonObject>, now: Instant): (r: ApiResponse<T>)
    ensures IsSuccessEnvelope(r)
    ensures r.message == message && r.data == Some(data) && r.metadata == metadata && r.timestamp == now
  {
    ApiResponse(true, OkCode, message, Some(data), metadata, now)
  }

  /** success(data): the default message and no metadata. */
  function SuccessOf<T>(data: T, now: Instant): (r: ApiResponse<T>)
    ensures IsSuccessEnvelope(r) && r.message == DefaultSuccessMessage && r.metadata.None?
    ensures r == SuccessWithMessageAndMetadata(DefaultSuccessMessage, data, None, now)
  {
    ApiResponse(true, OkCode, DefaultSuccessMessage, Some(data), None, now)
  }

  /** success(data, metadata): the default message with the given metadata. */
  function SuccessWithMetadata<T>(data: T, metadata: JsonObject, now: Instant): (r: ApiResponse<T>)
    ensures IsSuccessEnvelope(r) && r.message == DefaultSuccessMessage && r.metadata == Some(metadata)
    ensures r == SuccessWithMessageAndMetadata(DefaultSuccessMessage, data, Some(metadata), now)
  {
    ApiResponse(true, OkCode, DefaultSuccessMessage, Some(data), Some(metadata), now)
  }

  /** success(message, data): a custom message and no metadata. */
  function SuccessWithMessage<T>(message: string, data: T, now: Instant): (r: ApiResponse<T>)
    ensures IsSuccessEnvelope(r) && r.message == message && r.metadata.None?
    ensures r == SuccessWithMessageAndMetadata(message, data, None, now)
  {
    ApiResponse(true, OkCode, message, Some(data), None, now)
  }

  /** error(code, message, data, metadata): the most general error factory. */
  function ErrorWithDataAndMetadata<T>(code: string, message: string, data: Option<T>, metadata: Option<JsonObject>,
                                       now: Instant): (r: ApiResponse<T>)
    ensures !r.success
    ensures r.code == code && r.message == message && r.data == data && r.metadata == metadata && r.timestamp == now
  {
    ApiResponse(false, code, message, data, metadata, now)
  }

  /** error(code, message): no payload and no metadata. */
  function ErrorOf<T>(code: string, message: string, now: Instant): (r: ApiResponse<T>)
    ensures !r.success && r.code == code && r.message == message && r.data.None? && r.metadata.None?
    ensures r == ErrorWithDataAndMetadata(code, message, None, None, now)
  {
    ApiResponse(false, code, message, None, None, now)
  }

  /** error(code, message, metadata): metadata but no payload. */
  function ErrorWithMetadata<T>(code: string, message: string, metadata: JsonObject, now: Instant): (r: ApiResponse<T>)
    ensures !r.success && r.code == code && r.message == message && r.data.None? && r.metadata == Some(metadata)
    ensures r == ErrorWithDataAndMetadata(code, message, None, Some(metadata), now)
  {
    ApiResponse(false, code, message, None, Some(metadata), now)
  }

  /** error(code, message, data): a payload but no metadata. */
  function ErrorWithData<T>(code: string, message: string, data: T, now: Instant): (r: ApiResponse<T>)
    ensures !r.success && r.code == code && r.message == message && r.data == Some(data) && r.metadata.None?
    ensures r == ErrorWithDataAndMetadata(code, message, Some(data), None, now)
  {
    ApiResponse(false, code, message, Some(data), None, now)
  }

  /** A client can tell the two families apart by the flag alone, even when
      an error reuses the "OK" code; and an error envelope gives back exactly
      the code and message it was built with. */
  lemma SuccessAndErrorDisjoint<T>(m: string, d: T, md: Option<JsonObject>, code: string, msg: string,
                                   e: Option<T>, emd: Option<JsonObject>, now: Instant, later: Instant)
    ensures SuccessWithMessageAndMetadata(m, d, md, now) != ErrorWithDataAndMetadata(code, msg, e, emd, later)
    ensures !IsSuccessEnvelope(ErrorWithDataAndMetadata(code, msg, e, emd, later))
  {
  }
}
