/**
 * The request and response values that pass between the builder, the wrapper
 * and the client. HttpRequest and HttpResponse are not part of this model;
 * only the parts the client reads are kept: the method, the URL, the
 * (nullable) parameter array and header map of a request, and the status code
 * and body text of a response.
 */
module Messages {
  import opened Common
  import opened Parameters

  datatype RequestMethod = GET | POST | PUT | DELETE | HEAD | PATCH

  /** HttpRequest: getMethod() (here `verb`), getURL(), getParameters(), getRequestHeaders(). */
  datatype HttpRequest = HttpRequest(
    verb: RequestMethod,
    url: string,
    parameters: Option<seq<Param>>,
    requestHeaders: Option<map<string, string>>)

  /** A response as the client sees it: getResponseCode() and asString(). */
  datatype Response = Response(code: Int32, body: string)
}
