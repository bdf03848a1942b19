/**
 The JSON bodies exchanged by the image-analysis service: the command a client
 posts, and the success or failure envelope the service answers with, together
 with the HTTP status of the answer.
 */
module Wire {

  /** The "params" part of a command. */
  datatype CommandParams = CommandParams(imagePath: string)

  /** A command: its identifier, its declared task type and its parameters. */
  datatype AnalyzeImageRequest = AnalyzeImageRequest(commandId: string, taskType: string, params: CommandParams)

  /** The "error" part of a failure envelope. */
  datatype ErrorPayload = ErrorPayload(code: int, message: string)

  /** One identified vessel. The box is [x1, y1, x2, y2] in pixels; the
      confidence is kept in hundredths (0.85 is 85). */
  datatype Detection = Detection(identity: string, boxXyxy: seq<int>, confidence: int)

  /** The task-specific "result" of a success envelope. */
  datatype SuccessResult =
    | ThermalResult(detectedCount: int)
    | VisibleResult(detections: seq<Detection>)

  /** The response body: exactly one of a success and a failure envelope,
      each echoing the command identifier it answers. */
  datatype Response =
    | SuccessResponse(requestCommandId: string, timestampUtc: string, result: SuccessResult)
    | FailureResponse(requestCommandId: string, timestampUtc: string, error: ErrorPayload)
  {
    /** The "status" field, fixed by the envelope kind. */
    function Status(): (s: string)
      ensures s == "SUCCESS" <==> SuccessResponse?
      ensures s == "FAILURE" <==> FailureResponse?
    {
      if SuccessResponse? then "SUCCESS" else "FAILURE"
    }
  }

  /** What the client receives: an HTTP status and a body. */
  datatype Reply = Reply(httpStatus: int, body: Response)

  const HTTP_200_OK := 200
  const HTTP_400_BAD_REQUEST := 400
  const HTTP_404_NOT_FOUND := 404
  const HTTP_422_UNPROCESSABLE_ENTITY := 422
  const HTTP_500_INTERNAL_SERVER_ERROR := 500
}
