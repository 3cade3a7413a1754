/**
 * HttpException: the checked failure of a request. Its fields are set by one
 * of three constructors and changed afterwards by setters, so it is a class.
 * `Report` is the value of its fields at one moment, used to state what a
 * thrown exception holds.
 */
module Exceptions {
  import opened Common
  import opened Messages

  /** The exception recorded with initCause. */
  datatype Cause = IoFailure(message: string) | OtherFailure(message: string)

  /** The fields of an HttpException: message, response, responseCode and the cause. */
  datatype Report = Report(message: string, response: Option<Response>, responseCode: Int32, cause: Option<Cause>)

  class HttpException {
    var response: Option<Response>
    var message: string
    var responseCode: Int32
    var cause: Option<Cause>

    /** HttpException(message, e, responseCode): message, code and cause; no response. */
    constructor WithCode(message: string, e: Cause, responseCode: Int32)
      ensures this.message == message && this.responseCode == responseCode
      ensures this.cause == Some(e) && this.response == None
    {
      this.responseCode := responseCode;
      this.message := message;
      this.response := None;
      this.cause := Some(e);
    }

    /** HttpException(message, res): message and response; the code keeps its field default 0. */
    constructor WithResponse(message: string, res: Response)
      ensures this.message == message && this.response == Some(res)
      ensures this.responseCode == 0 && this.cause == None
    {
      this.message := message;
      this.response := Some(res);
      this.responseCode := 0;
      this.cause := None;
    }

    /** HttpException(message, e): message and cause; no response and code 0. */
    constructor WithCause(message: string, e: Cause)
      ensures this.message == message && this.cause == Some(e)
      ensures this.response == None && this.responseCode == 0
    {
      this.message := message;
      this.cause := Some(e);
      this.response := None;
      this.responseCode := 0;
    }

    function GetResponse(): Option<Response>
      reads this
    {
      response
    }

    function GetResponseCode(): Int32
      reads this
    {
      responseCode
    }

    /** getMessage is overridden to return the stored message field. */
    function GetMessage(): string
      reads this
    {
      message
    }

    function Snapshot(): Report
      reads this
    {
      Report(message, response, responseCode, cause)
    }

    method SetResponse(response: Option<Response>)
      modifies this`response
      ensures Snapshot() == old(Snapshot()).(response := response)
    {
      this.response := response;
    }

    method SetResponseCode(responseCode: Int32)
      modifies this`responseCode
      ensures Snapshot() == old(Snapshot()).(responseCode := responseCode)
    {
      this.responseCode := responseCode;
    }

    method SetMessage(message: string)
      modifies this`message
      ensures Snapshot() == old(Snapshot()).(message := message)
    {
      this.message := message;
    }
  }
}
