# Remediation bots: blanket-permission detach and bucket logging

This project models two cloud remediation bots in Dafny and proves properties of the models.

**Policy-detach bot** (`bots/lambda_detach_blanket_permissions.py`). Given a function's execution role, the bot finds every policy in the role's `combinedPolicies` that has at least one qualifying statement. A statement qualifies when:
- its `Effect` is `"Allow"`;
- it has a `Resource` key;
- the Python text of that `Resource` contains a `*`.

The bot keeps the first occurrence of each policy id and detaches each policy from the role in that order. It writes one note per successful detach into `text_output`. A failed detach replaces the whole of `text_output` with an error line. This includes the notes of earlier successful detaches.

Three modules cover this bot:
- `LambdaDetachBlanketPermissions` holds the bot itself. The selection and the detach loop are methods with loops, each proved against specification functions.
- `Lists` holds generic models of the Python list idioms the bot uses: a comprehension's `if` clause, `extend` in a loop, and `list(dict.fromkeys(...))`.
- `PyText` holds models of `str.split('/')[-1]` and of `str()` applied to a list of strings.

The IAM call `detach_role_policy` is an input: a function `respond` from an ARN to `Detached` or `Failed(error)`. The requests the loop makes are returned, so their number, order and arguments can be stated.

**Bucket-logging bot** (`bots/s3_enable_logging.py`). With no parameters it returns a usage text. Otherwise it asks S3 to log the entity's bucket into the bucket named by `params[0]`, with an empty prefix. It then turns the outcome into one of four kinds of text. The `BucketLogging.put` call is an input, `put`, that maps the request to a response (HTTP status code and text) or to a `ClientError` (error code and text). The module `S3EnableLogging` is pure: `RunAction` is a function. `StatusOfText` reads a text's kind back from its fixed opening words, and the lemmas prove that this reading always gives the kind the decision table chose.

`Common` holds the `"Unexpected error: %s \n"` line both bots write.

## Model

| member | source | states |
|---|---|---|
| LambdaDetachBlanketPermissions.WildcardTextTest | bots/lambda_detach_blanket_permissions.py:62 | `"*" in str(Resource)` holds exactly when the string, or some element of the list, contains `*`. |
| PyText.StarInListRepr | bots/lambda_detach_blanket_permissions.py:62 | The Python text of a list of strings contains `*` exactly when one of its elements does, since brackets, quotes, separators and escapes add none. |
| PyText.StarInEscape | bots/lambda_detach_blanket_permissions.py:62 | Escaping a string inside its quotes neither adds nor removes a `*`. |
| LambdaDetachBlanketPermissions.SubstringWildcard | bots/lambda_detach_blanket_permissions.py:62 | The test is a substring test: an `Allow` whose resource, or one of whose resources, ends in `/*` qualifies. |
| LambdaDetachBlanketPermissions.HasBlanketAllowMeans | bots/lambda_detach_blanket_permissions.py:58-63 | The generator yields a policy's id at least once exactly when some statement of the policy passes the test. |
| Lists.FilterMembership | bots/lambda_detach_blanket_permissions.py:58-63 | A comprehension with an `if` clause keeps exactly the elements that pass the test. |
| Lists.ConcatMapMembership | bots/lambda_detach_blanket_permissions.py:56-63 | After `extend` over every policy, a value is in the list exactly when some policy contributed it. |
| LambdaDetachBlanketPermissions.CollectedMembership | bots/lambda_detach_blanket_permissions.py:56-63 | Before repeats are dropped, an id is in `arn_list` exactly when a policy with that id has a qualifying statement. |
| LambdaDetachBlanketPermissions.AdminPoliciesMembership | bots/lambda_detach_blanket_permissions.py:56-65 | An id is in the result if and only if some policy with that id has an `Allow` statement with a `Resource` whose text holds `*`; no id appears twice. |
| LambdaDetachBlanketPermissions.AdminPoliciesOrder | bots/lambda_detach_blanket_permissions.py:56-65 | The result for the first n policies is a prefix of the result for all of them. Kept ids are ordered by where each first occurs in `arn_list`. |
| LambdaDetachBlanketPermissions.NonQualifyingStatementIgnored | bots/lambda_detach_blanket_permissions.py:60-62 | Inserting a statement that fails the test anywhere in any policy leaves the result unchanged. |
| LambdaDetachBlanketPermissions.DenyNeverSelects | bots/lambda_detach_blanket_permissions.py:60 | A `Deny` statement never changes the result, whatever its `Resource`, including `"*"`. |
| LambdaDetachBlanketPermissions.MissingResourceNeverSelects | bots/lambda_detach_blanket_permissions.py:61 | An `Allow` statement without a `Resource` key never changes the result. |
| LambdaDetachBlanketPermissions.GetAdminPolicies | bots/lambda_detach_blanket_permissions.py:51-70 | The nested loops and the dedup return exactly `AdminPolicies` of the role's policies. The result has no repeats, and it is empty when the role has no policies. |
| Lists.RemoveDuplicates | bots/lambda_detach_blanket_permissions.py:65 | Keeping a set of the keys seen so far computes exactly `Dedup`. |
| Lists.DedupSpec | bots/lambda_detach_blanket_permissions.py:65 | Dropping repeats keeps every element of the input and only those, each exactly once. |
| Lists.DedupMembership | bots/lambda_detach_blanket_permissions.py:65 | A value is in the deduplicated list exactly when it is in the input. |
| Lists.DedupExtends | bots/lambda_detach_blanket_permissions.py:65 | Deduplicating a longer list keeps what the shorter list gave, as its prefix. |
| Lists.DedupFirstOccurrenceOrder | bots/lambda_detach_blanket_permissions.py:65 | Kept elements appear in the order of their first occurrences in the input. |
| PyText.LastSegmentNoSlash | bots/lambda_detach_blanket_permissions.py:33 | The policy name taken from an ARN contains no `/`. |
| PyText.LastSegmentSuffix | bots/lambda_detach_blanket_permissions.py:33 | The policy name is a suffix of the ARN. It is either the whole ARN or the part after a `/`. |
| Common.UnexpectedErrorParts | bots/lambda_detach_blanket_permissions.py:41 | The error line starts with `Unexpected error: `, ends with ` \n`, and carries the error text between the two, so that text can be read back. |
| LambdaDetachBlanketPermissions.OutputLinesStep | bots/lambda_detach_blanket_permissions.py:26-41 | Each detach either appends its note to the lines so far or leaves only its own error line. |
| LambdaDetachBlanketPermissions.ReportShape | bots/lambda_detach_blanket_permissions.py:26-41 | After the loop, the lines are the error line of the last failed detach (or nothing when none failed), followed by one note per later ARN, in order. |
| LambdaDetachBlanketPermissions.AllDetached | bots/lambda_detach_blanket_permissions.py:33-37 | When every detach succeeds, the text holds one note per ARN, in list order. |
| LambdaDetachBlanketPermissions.FailureOverwrites | bots/lambda_detach_blanket_permissions.py:40-41 | Right after a failed detach, the text is exactly that failure's error line, whatever was written before it. |
| LambdaDetachBlanketPermissions.RenderOpensWith | bots/lambda_detach_blanket_permissions.py:33-41 | A text whose first line is a note starts with a space. A text whose first line is an error starts with `Unexpected error: `. |
| LambdaDetachBlanketPermissions.ReportOpensWithError | bots/lambda_detach_blanket_permissions.py:26-41 | The final text starts with `Unexpected error: ` if and only if some detach failed. |
| LambdaDetachBlanketPermissions.DetachEach | bots/lambda_detach_blanket_permissions.py:26-41 | The loop makes one detach request per ARN, in list order, each naming the role, and goes on after a `ClientError`. The text it leaves is `Report` of the outcomes. |
| LambdaDetachBlanketPermissions.RunAction | bots/lambda_detach_blanket_permissions.py:14-46 | `run_action` detaches exactly the selected policies, in selection order, from the role named `name`. It returns the folded text. |
| S3EnableLogging.RunAction | bots/s3_enable_logging.py:15-53 | With no parameters, the result is the usage text and no call is made. Otherwise exactly one `put` is made for the entity's bucket, with `TargetBucket` = `params[0]` and `TargetPrefix` = `''`, and the text is the outcome text of what it produced. |
| S3EnableLogging.OutcomeText | bots/s3_enable_logging.py:38-51 | A status below 400 gives the "logging enabled" text naming both buckets. A status of 400 or more, or an error code other than the two named ones, gives exactly the `Unexpected error: ` line carrying the call's own text. `CrossLocationLoggingProhibitted` and `InvalidTargetBucketForLogging` give exactly their own guidance line followed by that error line. |
| S3EnableLogging.UnexpectedErrorStatus | bots/s3_enable_logging.py:39-51 | A bare error line reads back as the generic unexpected-error kind. |
| S3EnableLogging.EnabledStatus | bots/s3_enable_logging.py:41-42 | The success text reads back as the "enabled" kind. |
| S3EnableLogging.GuidanceStatus | bots/s3_enable_logging.py:44-49 | The same-region guidance text and the logging-ACL guidance text each read back as their own kind, distinct from each other and from the rest. |
| S3EnableLogging.TextDeterminesStatus | bots/s3_enable_logging.py:19-53 | Every run returns exactly one kind of text. It is the usage text when there are no parameters; otherwise the kind is what the decision table gives for the call's outcome (status ≥ 400, the two named error codes, any other code). |

## Left out

- The bots `bots/ami_set_to_private.py`, `bots/s3_enable_versioning.py`, `bots/ec2_terminate_instance.py` and `optional_bots/s3_delete_bucket.py` are not part of this model. Each is a single SDK call followed by the same `>= 400` check that `S3EnableLogging.OutcomeText` covers.
- boto3 sessions, clients and resources are not modelled. The two calls `detach_role_policy` and `BucketLogging.put` are inputs to the model, not side effects.
- The logging variant commented out inside the string literal after `run_action` in `bots/s3_enable_logging.py` is not modelled, because it is inactive.
- The `except ClientError` branches of `get_admin_policies` and of the outer `try` in `run_action` are not modelled. No call inside them can raise `ClientError`, so they cannot be reached. One of them would make `get_admin_policies` return a string instead of a list.
- The texts `str(e)` and `str(result)` are opaque strings carried by the outcome inputs.
- Missing entity fields are not modelled, because the input is typed. In the source they behave as follows:
  - A missing `executionRole` makes `policy.get('name')` raise `AttributeError`.
  - A missing role `name` does not raise. `None` becomes the `RoleName` of every detach request and appears as `None` in the notes. When no policy qualifies, nothing fails.
  - A missing `combinedPolicies`, `policyDocument`, `Statement` or `Effect` raises `KeyError` in `get_admin_policies`. `Effect` is read for every statement.
  - A missing policy `id` raises `KeyError` only when some statement of that policy qualifies, because the generator reads `id` only for the statements it yields.
  - A missing bucket `id` in the logging bot raises `KeyError`.
  - A missing `Resource` key is modelled as `None`.
- `params` given as `None` to the logging bot is not a separate case. `if not params` treats it like an empty list and returns the usage text, which is what `S3EnableLogging.RunAction` does for `[]`.
- Exceptions other than `ClientError` are not modelled. `ParamValidationError`, `EndpointConnectionError`, `NoCredentialsError` and the like are not caught, and neither is a `KeyError` from reading `HTTPStatusCode` out of the `put` response. Each propagates out of `run_action`. In the detach bot this abandons the loop, and the detaches made before it stay in effect while no text is returned. `DetachOutcome` and `PutOutcome` cover only a normal return and a `ClientError`, so the promise that `DetachEach` goes on after a failure holds only for a `ClientError`.
- A `Resource` other than a string or a list of strings is not modelled, nor is a `Statement` given as a single object instead of a list.
- PyText.StrRepr: Python writes a string that contains `'` but no `"` between double quotes, and writes other control characters as `\x..` escapes. The model always uses single quotes and escapes only `\`, `'`, newline, carriage return and tab. None of these choices adds or removes a `*`, which is all the selection depends on.
- Python's `%` formatting and f-strings are modelled as plain concatenation of the already-converted texts.
