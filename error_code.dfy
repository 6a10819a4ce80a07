/** The error constants the invocation layer raises, wrapped in a controlled exception. */
module ErrorCode {

  /** A numeric code and a user-facing message (the frozen `ErrorMessage` dataclass). */
  datatype ErrorMessage = ErrorMessage(code: int, message: string)

  /** The backend's answer could not be decoded as JSON. */
  const JSON_PARSING_ERROR: ErrorMessage := ErrorMessage(-401, "LLM 답변 JSON 변환 실패")

  /** The decoded answer has no `result` key. */
  const INVALID_DATA_TYPE: ErrorMessage := ErrorMessage(-402, "잘못된 데이터 타입")
}
