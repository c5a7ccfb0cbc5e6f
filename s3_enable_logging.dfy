/**
 * The bucket-logging bot: turn on server access logging for the entity's
 * bucket, sending the logs to the bucket named by the first parameter.
 *
 * The `BucketLogging.put` call is foreign: what it produced for the request is
 * an input (`put`), and the report says which request, if any, was made.
 */
module S3EnableLogging {
  import opened Common

  /** The `LoggingEnabled` part of the `BucketLoggingStatus` that `put` sends. */
  datatype LoggingEnabled = LoggingEnabled(targetBucket: string, targetPrefix: string)

  /** One `BucketLogging(bucket).put(...)` call. */
  datatype PutRequest = PutRequest(bucket: string, loggingEnabled: LoggingEnabled)

  /**
   * What the `put` call produced: a response with its HTTP status code and its
   * text `str(result)`, or a `ClientError` with its error code and its text `str(e)`.
   */
  datatype PutOutcome =
    | Response(httpStatusCode: int, rendered: string)
    | ClientError(code: string, rendered: string)

  /** The text the bot returns, and the `put` request it made, if any. */
  datatype Report = Report(text: string, request: Option<PutRequest>)

  /** The kinds of text the bot can return. */
  datatype Status = UsageError | Enabled | CrossRegionError | TargetAclError | Unexpected

  // The fixed texts are written in pieces: each piece is a short literal, which keeps the
  // character-by-character comparisons in the read-back lemmas small.
  const UsageText :=
    "No target_bucket found to send the logs " + "to. Can't remediate.\n" +
    "Usage: AUTO: s3_enable_logging " + "<target_bucket_name>\n"
  const CrossRegionGuidance :=
    "The target bucket for logging " + "needs to be in the same region as " + "the remediation bucket.\n"
  const TargetAclGuidance :=
    "The target bucket must have write_object " + "and read_bucket_permissions S3 logging ACLs.\n"
  const EnabledPrefix := "Bucket logging enabled from bucket: "

  function EnabledText(bucketName: string, targetBucketName: string): string
  {
    EnabledPrefix + bucketName + " to bucket: " + targetBucketName + " \n"
  }

  /** The decision table the bot follows once the call has been made. */
  function ExpectedStatus(outcome: PutOutcome): Status
  {
    match outcome
    case Response(code, _) => if code >= 400 then Unexpected else Enabled
    case ClientError(code, _) =>
      if code == "CrossLocationLoggingProhibitted" then CrossRegionError
      else if code == "InvalidTargetBucketForLogging" then TargetAclError
      else Unexpected
  }

  /** Reads back which kind of text a string is, by its fixed opening words. */
  function StatusOfText(text: string): Option<Status>
  {
    if text == UsageText then Some(UsageError)
    else if StartsWith(text, EnabledPrefix) then Some(Enabled)
    else if StartsWith(text, CrossRegionGuidance + ErrorPrefix) then Some(CrossRegionError)
    else if StartsWith(text, TargetAclGuidance + ErrorPrefix) then Some(TargetAclError)
    else if StartsWith(text, ErrorPrefix) then Some(Unexpected)
    else None
  }

  /** The text for the outcome of the `put` call. */
  function OutcomeText(bucketName: string, targetBucketName: string, outcome: PutOutcome): (text: string)
    ensures ExpectedStatus(outcome) == Enabled ==> text == EnabledText(bucketName, targetBucketName)
    ensures ExpectedStatus(outcome) != Enabled ==>
              |text| >= |UnexpectedError(outcome.rendered)| &&
              text[|text| - |UnexpectedError(outcome.rendered)|..] == UnexpectedError(outcome.rendered)
    ensures ExpectedStatus(outcome) == Unexpected ==> text == UnexpectedError(outcome.rendered)
    ensures ExpectedStatus(outcome) == CrossRegionError ==>
              text == CrossRegionGuidance + UnexpectedError(outcome.rendered)
    ensures ExpectedStatus(outcome) == TargetAclError ==>
              text == TargetAclGuidance + UnexpectedError(outcome.rendered)
  {
    match outcome
    case Response(code, result) =>
      if code >= 400 then UnexpectedError(result)
      else EnabledText(bucketName, targetBucketName)
    case ClientError(error, e) =>
      if error == "CrossLocationLoggingProhibitted" then CrossRegionGuidance + UnexpectedError(e)
      else if error == "InvalidTargetBucketForLogging" then TargetAclGuidance + UnexpectedError(e)
      else UnexpectedError(e)
  }

  /**
   * `run_action`: without parameters, the usage text and no call; otherwise one
   * `put` for the entity's bucket naming `params[0]` as target with an empty
   * prefix, and the text for what that call produced.
   */
  function RunAction(bucketName: string, params: seq<string>, put: PutRequest -> PutOutcome): (r: Report)
    ensures params == [] ==> r == Report(UsageText, None)
    ensures params != [] ==>
              r.request == Some(PutRequest(bucketName, LoggingEnabled(params[0], ""))) &&
              r.text == OutcomeText(bucketName, params[0], put(r.request.value))
  {
    if params == [] then Report(UsageText, None)
    else
      var targetBucketName := params[0];
      var request := PutRequest(bucketName, LoggingEnabled(targetBucketName, ""));
      Report(OutcomeText(bucketName, targetBucketName, put(request)), Some(request))
  }

  lemma UnexpectedErrorStatus(detail: string)
    ensures StatusOfText(UnexpectedError(detail)) == Some(Unexpected)
  {
    var t := UnexpectedError(detail);
    assert t[0] == 'U' && UsageText[0] == 'N';
    assert t[0] != EnabledPrefix[0];
    assert t[0] != (CrossRegionGuidance + ErrorPrefix)[0];
    assert t[0] != (TargetAclGuidance + ErrorPrefix)[0];
  }

  lemma EnabledStatus(bucketName: string, targetBucketName: string)
    ensures StatusOfText(EnabledText(bucketName, targetBucketName)) == Some(Enabled)
  {
    var t := EnabledText(bucketName, targetBucketName);
    assert t[0] == 'B' && UsageText[0] == 'N';
    assert t[..|EnabledPrefix|] == EnabledPrefix;
  }

  lemma GuidanceStatus(detail: string)
    ensures StatusOfText(CrossRegionGuidance + UnexpectedError(detail)) == Some(CrossRegionError)
    ensures StatusOfText(TargetAclGuidance + UnexpectedError(detail)) == Some(TargetAclError)
  {
    var c := CrossRegionGuidance + UnexpectedError(detail);
    assert c[0] == 'T' && UsageText[0] == 'N';
    assert c[0] != EnabledPrefix[0];
    assert c[..|CrossRegionGuidance + ErrorPrefix|] == CrossRegionGuidance + ErrorPrefix;
    var a := TargetAclGuidance + UnexpectedError(detail);
    assert a[0] == 'T' && UsageText[0] == 'N';
    assert a[0] != EnabledPrefix[0];
    // The two guidance texts first differ at index 18: "must" against "for logging".
    assert a[18] == 'm' && (CrossRegionGuidance + ErrorPrefix)[18] == 'f';
    assert a[..|TargetAclGuidance + ErrorPrefix|] == TargetAclGuidance + ErrorPrefix;
  }

  /**
   * Every run returns exactly one kind of text, and which kind is decided by
   * the inputs alone: the usage text when there are no parameters, otherwise
   * the decision table applied to what the `put` call produced.
   */
  lemma TextDeterminesStatus(bucketName: string, params: seq<string>, put: PutRequest -> PutOutcome)
    ensures var r := RunAction(bucketName, params, put);
            StatusOfText(r.text) ==
              Some(if params == [] then UsageError else ExpectedStatus(put(r.request.value)))
  {
    var r := RunAction(bucketName, params, put);
    if params != [] {
      var outcome := put(r.request.value);
      match outcome
      case Response(code, result) =>
        if code >= 400 {
          UnexpectedErrorStatus(result);
        } else {
          EnabledStatus(bucketName, params[0]);
        }
      case ClientError(error, e) =>
        GuidanceStatus(e);
        UnexpectedErrorStatus(e);
    }
  }
}
