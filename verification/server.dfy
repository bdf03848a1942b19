/**
 The two HTTP routes of the service. Each turns one command into exactly one
 reply: it calls its handler and converts what the handler returned or raised
 into a success or failure envelope and an HTTP status. The reply's timestamp
 is a parameter (the clock is not modelled), and so are the filesystem and the
 handlers' inference results.
 */
module Server {
  import opened Wire
  import opened Errors
  import Thermal
  import Visible

  const VISIBLE_USV_IDENTIFY := "VISIBLE_USV_IDENTIFY"

  /** The message of the bad-request failure on the identification route. */
  function InvalidTaskTypeMessage(taskType: string): string {
    "Invalid task_type '" + taskType + "', expected '" + VISIBLE_USV_IDENTIFY + "'."
  }

  // ---------------------------------------------------------------------------
  // Reference error table

  /** The failure kinds of the service. */
  datatype ErrorKind = BadRequest | NotFound | ProcessingError | Internal

  /** The kind of failure an exception escaping a handler is reported as. */
  function KindOf(e: PyError): ErrorKind {
    match e
    case FileNotFoundError(_) => NotFound
    case OtherError(_) => Internal
    case _ => ProcessingError
  }

  /** The fixed table of HTTP status and error code per failure kind. */
  const ERROR_TABLE: map<ErrorKind, (int, int)> := map[
    BadRequest := (400, 4001),
    NotFound := (404, 4041),
    ProcessingError := (422, 4221),
    Internal := (500, 5000)
  ]

  /** Facts every reply of the service satisfies: status 200 exactly on
      success, and on failure an error code whose first three digits are the
      HTTP status. */
  predicate Coherent(r: Reply) {
    && (r.body.SuccessResponse? <==> r.httpStatus == HTTP_200_OK)
    && (r.body.FailureResponse? ==> r.body.error.code / 10 == r.httpStatus)
  }

  // ---------------------------------------------------------------------------
  // Routes

  /** The try/except block both routes share: a returned value becomes a
      success envelope with status 200; FileNotFoundError becomes 404/4041,
      any other IOError 422/4221 and any other exception 500/5000, each
      carrying str(e) as its message. */
  function Conclude(commandId: string, timestamp: string, outcome: Outcome<SuccessResult>): (r: Reply)
    ensures r.body.requestCommandId == commandId && r.body.timestampUtc == timestamp
    ensures r.body.SuccessResponse? <==> outcome.Ok?
    ensures outcome.Ok? ==> r.httpStatus == HTTP_200_OK && r.body.result == outcome.value
    ensures outcome.Raised? ==>
              && (r.httpStatus, r.body.error.code) == ERROR_TABLE[KindOf(outcome.error)]
              && r.body.error.message == outcome.error.message
    ensures Coherent(r)
  {
    match outcome
    case Ok(v) =>
      Reply(HTTP_200_OK, SuccessResponse(commandId, timestamp, v))
    case Raised(e) =>
      if IsIOError(e) then
        var code := if e.FileNotFoundError? then 4041 else 4221;
        var status := if e.FileNotFoundError? then HTTP_404_NOT_FOUND else HTTP_422_UNPROCESSABLE_ENTITY;
        Reply(status, FailureResponse(commandId, timestamp, ErrorPayload(code, e.message)))
      else
        Reply(HTTP_500_INTERNAL_SERVER_ERROR, FailureResponse(commandId, timestamp, ErrorPayload(5000, e.message)))
  }

  /** POST /v1/command/analyze_image/thermal_count. The task type is not
      checked on this route. */
  function AnalyzeThermalImageForUsvCount(
    request: AnalyzeImageRequest, timestamp: string,
    existing: set<string>, inference: Thermal.Inference): (r: Reply)
    ensures r.body.requestCommandId == request.commandId
    ensures r.body.timestampUtc == timestamp
    ensures Coherent(r)
    ensures r.body.Status() == "SUCCESS" <==>
              request.params.imagePath in existing && inference.Output? && inference.raw.Finite?
    ensures r.body.SuccessResponse? ==>
              r.body.result.ThermalResult? && r.body.result.detectedCount >= 0
    // The count in a success envelope is the one the handler returned.
    ensures var o := Thermal.ThermalUsvDetection(existing, request.params.imagePath, inference);
            o.Ok? ==> r.body.SuccessResponse? && r.body.result == ThermalResult(o.value)
    ensures request.params.imagePath !in existing ==>
              r.httpStatus == HTTP_404_NOT_FOUND && r.body.error == ErrorPayload(4041, NOT_FOUND_MESSAGE)
    ensures var o := Thermal.ThermalUsvDetection(existing, request.params.imagePath, inference);
            o.Raised? ==>
              && (r.httpStatus, r.body.error.code) == ERROR_TABLE[KindOf(o.error)]
              && r.body.error.message == o.error.message
    // A NaN or infinite network output is an internal error.
    ensures request.params.imagePath in existing && inference.Output? && !inference.raw.Finite? ==>
              r.httpStatus == HTTP_500_INTERNAL_SERVER_ERROR && r.body.error.code == 5000
    ensures r.httpStatus in {HTTP_200_OK, HTTP_404_NOT_FOUND, HTTP_422_UNPROCESSABLE_ENTITY, HTTP_500_INTERNAL_SERVER_ERROR}
  {
    var outcome := Thermal.ThermalUsvDetection(existing, request.params.imagePath, inference);
    Conclude(request.commandId, timestamp, outcome.MapValue(c => ThermalResult(c)))
  }

  /** POST /v1/command/analyze_image/visible_identify. A task type other than
      VISIBLE_USV_IDENTIFY is refused before the handler runs. */
  function AnalyzeVisibleImageForUsvIdentification(
    request: AnalyzeImageRequest, timestamp: string,
    existing: set<string>, draws: seq<Visible.Draw>): (r: Reply)
    requires Visible.ValidDraws(draws)
    ensures r.body.requestCommandId == request.commandId
    ensures r.body.timestampUtc == timestamp
    ensures Coherent(r)
    ensures request.taskType != VISIBLE_USV_IDENTIFY ==>
              && r.body.FailureResponse?
              && (r.httpStatus, r.body.error.code) == ERROR_TABLE[BadRequest]
              && r.body.error.message == InvalidTaskTypeMessage(request.taskType)
    ensures r.body.Status() == "SUCCESS" <==>
              request.taskType == VISIBLE_USV_IDENTIFY && request.params.imagePath in existing
    ensures request.taskType == VISIBLE_USV_IDENTIFY && request.params.imagePath !in existing ==>
              r.httpStatus == HTTP_404_NOT_FOUND && r.body.error == ErrorPayload(4041, NOT_FOUND_MESSAGE)
    ensures r.body.SuccessResponse? ==>
              && r.body.result.VisibleResult?
              && Visible.DetectionList(r.body.result.detections)
              && |r.body.result.detections| == |draws|
              && forall i :: 0 <= i < |draws| ==> Visible.DrawOf(r.body.result.detections[i]) == draws[i]
    // The detections in a success envelope are the ones the handler returned.
    ensures var o := Visible.VisibleUsvIdentification(existing, request.params.imagePath, draws);
            request.taskType == VISIBLE_USV_IDENTIFY && o.Ok? ==>
              r.body.SuccessResponse? && r.body.result == VisibleResult(o.value)
    ensures var o := Visible.VisibleUsvIdentification(existing, request.params.imagePath, draws);
            request.taskType == VISIBLE_USV_IDENTIFY && o.Raised? ==>
              && (r.httpStatus, r.body.error.code) == ERROR_TABLE[KindOf(o.error)]
              && r.body.error.message == o.error.message
    ensures r.httpStatus in {HTTP_200_OK, HTTP_400_BAD_REQUEST, HTTP_404_NOT_FOUND}
  {
    if request.taskType != VISIBLE_USV_IDENTIFY then
      Reply(HTTP_400_BAD_REQUEST,
            FailureResponse(request.commandId, timestamp,
                            ErrorPayload(4001, InvalidTaskTypeMessage(request.taskType))))
    else
      var outcome := Visible.VisibleUsvIdentification(existing, request.params.imagePath, draws);
      Conclude(request.commandId, timestamp, outcome.MapValue(ds => VisibleResult(ds)))
  }

  // ---------------------------------------------------------------------------
  // Properties relating several calls

  /** On the identification route a wrong task type decides the reply alone:
      neither the filesystem nor the draws make any difference, so a missing
      file is not reported either. */
  lemma TaskTypeGuardComesFirst(
    request: AnalyzeImageRequest, timestamp: string,
    existing1: set<string>, draws1: seq<Visible.Draw>,
    existing2: set<string>, draws2: seq<Visible.Draw>)
    requires Visible.ValidDraws(draws1) && Visible.ValidDraws(draws2)
    requires request.taskType != VISIBLE_USV_IDENTIFY
    ensures AnalyzeVisibleImageForUsvIdentification(request, timestamp, existing1, draws1)
         == AnalyzeVisibleImageForUsvIdentification(request, timestamp, existing2, draws2)
    ensures AnalyzeVisibleImageForUsvIdentification(request, timestamp, existing1, draws1).httpStatus == HTTP_400_BAD_REQUEST
  {
  }

  /** The counting route answers the same whatever task type the command
      declares, including the identification task's own. */
  lemma ThermalIgnoresTaskType(
    request: AnalyzeImageRequest, taskType: string, timestamp: string,
    existing: set<string>, inference: Thermal.Inference)
    ensures AnalyzeThermalImageForUsvCount(request.(taskType := taskType), timestamp, existing, inference)
         == AnalyzeThermalImageForUsvCount(request, timestamp, existing, inference)
  {
  }

  /** A file that cannot be opened on the counting route is reported as
      unprocessable, 422/4221, even when the decoder itself raised
      FileNotFoundError (the file vanished after the existence check). */
  lemma DecodeNotFoundIsUnprocessable(
    request: AnalyzeImageRequest, timestamp: string, existing: set<string>, message: string)
    requires request.params.imagePath in existing
    ensures var r := AnalyzeThermalImageForUsvCount(
                       request, timestamp, existing, Thermal.Failed(FileNotFoundError(message)));
            && r.httpStatus == HTTP_422_UNPROCESSABLE_ENTITY
            && r.body.error == ErrorPayload(4221, Thermal.PROCESSING_PREFIX + message)
  {
  }

  /** Every successful identification reply lists proper rectangles under
      pairwise distinct identities. */
  lemma VisibleSuccessShape(
    request: AnalyzeImageRequest, timestamp: string,
    existing: set<string>, draws: seq<Visible.Draw>, i: nat, j: nat)
    requires Visible.ValidDraws(draws)
    requires AnalyzeVisibleImageForUsvIdentification(request, timestamp, existing, draws).body.SuccessResponse?
    requires i < |draws| && j < |draws|
    ensures var dets := AnalyzeVisibleImageForUsvIdentification(request, timestamp, existing, draws).body.result.detections;
            && dets[i].boxXyxy[0] < dets[i].boxXyxy[2]
            && dets[i].boxXyxy[1] < dets[i].boxXyxy[3]
            && (i != j ==> dets[i].identity != dets[j].identity)
  {
    var dets := AnalyzeVisibleImageForUsvIdentification(request, timestamp, existing, draws).body.result.detections;
    if i != j {
      Visible.IdentitiesDistinct(dets, i, j);
    }
  }
}
