/**
 * Response builders (packages/types/src/aws/api-gateway.ts). The JSON encoding of the body
 * is left abstract: a response carries the body value itself.
 */
module ApiGateway {
  import opened Wrappers
  import Js

  type Headers = map<string, string>

  const ContentType: string := "Content-Type"
  const ApplicationJson: string := "application/json"

  /** An API response: status code, headers and the (abstractly encoded) body. */
  datatype Response<T> = Response(statusCode: int, headers: Headers, body: T)

  /** The caller's headers as spread into an object literal: an absent object adds nothing. */
  function Supplied(headers: Option<Headers>): Headers
  {
    if headers.Some? then headers.value else map[]
  }

  /** createResponse: the default content type, overridden by the caller's headers. */
  function CreateResponse<T>(statusCode: int, body: T, headers: Option<Headers> := None): (r: Response<T>)
    ensures r.statusCode == statusCode && r.body == body
    ensures r.headers.Keys == {ContentType} + Supplied(headers).Keys
    ensures forall k :: k in Supplied(headers) ==> r.headers[k] == Supplied(headers)[k]
    ensures ContentType !in Supplied(headers) ==> r.headers[ContentType] == ApplicationJson
  {
    Response(statusCode, map[ContentType := ApplicationJson] + Supplied(headers), body)
  }

  /** Without caller headers the only header is the JSON content type. */
  lemma DefaultHeaders<T>(statusCode: int, body: T)
    ensures CreateResponse(statusCode, body).headers == map[ContentType := ApplicationJson]
  {
  }

  /** The body of an error response: the message, and the error as details when it is truthy. */
  datatype ErrorBody = ErrorBody(error: string, details: Option<Js.JsValue>)

  /** createErrorResponse: `details` is present exactly when the error argument is truthy. */
  function CreateErrorResponse(statusCode: int, message: string, error: Js.JsValue := Js.Undefined): (r: Response<ErrorBody>)
    ensures r.statusCode == statusCode
    ensures r.headers == map[ContentType := ApplicationJson]
    ensures r.body.error == message
    ensures r.body.details.Some? <==> Js.Truthy(error)
    ensures r.body.details.Some? ==> r.body.details.value == error
  {
    CreateResponse(statusCode, ErrorBody(message, if Js.Truthy(error) then Some(error) else None))
  }
}
