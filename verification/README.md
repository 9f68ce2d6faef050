# Jira UAC analyzer — a Dafny model of its core

The analyzer is a console program. It reads Jira issue keys from the
operator and fetches each issue from the tracker. It renders the issue into
a fixed instruction prompt and asks a local LLM backend, which is
constrained by a JSON response schema, whether the issue has adequate user
acceptance criteria. It prints the backend's verdict. Before the loop starts
it asks the backend to download ("pull") the model and follows the streamed
progress records.

This project models the program's one class, `Analyzer`, in six modules
(`IssueKey`, `Prompt`, `Schema`, `Pull`, `Inference`, `Session`) plus two
support modules (`JavaText`, `Options`):

- `IssueKey` (issue_key.dfy): the key pattern `^[a-zA-Z]+-\d+$` as a
  five-state scanner. It is proved equal to the declarative shape: letters,
  one dash, digits.
- `JavaText` (java_text.dfy): the pieces of the Java library the program
  leans on.
  - `String.valueOf` on a null string gives `null`.
  - `Integer.toString`.
  - The `%s` / `%%` subset of `String.format`.
  - `long` division, which truncates toward zero.
- `Prompt` (prompt.dfy): `generatePrompt` and `promptTemplate`. The
  instruction text is held exactly as the Java text block yields it.
- `Schema` (schema.dfy): `expectedResponseFormat` and the two request
  bodies, plus an evaluator for the part of JSON Schema the response schema
  uses, so that what the schema admits can be stated.
- `Pull` (pull.dfy): the `pullModel` read loop as a fold over decoded
  progress records. Each printed line is an event.
- `Inference` (inference.dfy): the verdict `queryLLM` extracts from the
  backend's reply, or the failure when the reply body is not JSON.
- `Session` (session.dfy): `main`.
  - The outer prompt, the re-prompt loop and one analysis are three mutually
    recursive functions over the input lines.
  - Every call to the outside world is recorded as an `Action`.
  - Credential installation (`configureJiraApi`) and clearing
    (`RestAssured.reset`) are actions too, so the credential discipline can
    be stated over the trace.
- `Options` (options.dfy): the option type.

The tracker and the LLM backend are oracles. They are functions from the
request (the key, or the prompt) and its ordinal (how many such calls came
before) to the outcome. The session loop takes the model name and the
prompt builder as part of its environment, so its properties hold for any
model and any builder. `Main` wires in the `ollama.model` setting with its
default and `GeneratePrompt` with the platform line separator; both are
parameters of `Main`.

Some behaviour of `main` and its helpers is easy to misread; the model
follows the code:

- `exit` ends the session only at the outer prompt. At the re-prompt after
  an invalid key it is one more invalid key.
- A failure of the inference request is not caught. The process ends with
  an exception; the loop does not continue.
- A reply whose body is not JSON (a plain-text error page, say) makes
  `jsonPath().getString` throw, and nothing catches that either. Only a JSON
  reply without a `response` field is printed verbatim.
- Prompt generation can fail. A comment without an author object throws a
  NullPointerException, which ends the process.
- A tracker reply whose status is not 200 (an unknown key, refused
  credentials) is not caught. `statusCode(200)` throws an AssertionError,
  which is an `Error` and escapes `catch (Exception e)` in `loadJiraIssue`,
  so the process ends right after the fetch. Only a failed connection
  becomes the JiraApiException that `main` reports before reading on.
- A failed connection to the tracker leaves the credentials installed. A later
  `configureJiraApi` only installs them again; they are cleared at the next
  `RestAssured.reset()`, which comes only after a later analysis has
  fetched and rendered its issue. No inference call happens before that
  reset, so the credential invariant still holds.
- In `pullModel`, only an I/O error while reading the download stream leads to
  `System.exit(1)`. A refused pull request, or a stream line that is not
  the expected JSON, ends the process with an uncaught exception.
- The percentage is computed from whole megabytes, not from bytes.
  - 1.5 MiB of 2 MiB shows 50%.
  - A blob under 1 MiB divides by zero in `double`, which gives NaN or
    Infinity.
- The response schema lists no required keys. It admits any object whose
  two verdict fields, where present, are booleans.

## Model

| member | source | states |
|---|---|---|
| IssueKey.IsIssueKeyCorrect | src/main/java/com/mwdle/Analyzer.java:210 | The key check accepts a line exactly when it is one or more ASCII letters, one dash, then one or more ASCII digits (both directions). |
| IssueKey.ExitIsNotAKey | src/main/java/com/mwdle/Analyzer.java:206-214 | The exit sentinel does not have the key shape, so the re-prompt loop rejects it like any malformed key. |
| IssueKey.AcceptedKeys | src/main/java/com/mwdle/Analyzer.java:210 | `ABC-123` and lower-case `jira-1` are accepted. |
| IssueKey.RejectedKeys | src/main/java/com/mwdle/Analyzer.java:210 | A missing half, a digit among the letters, a letter among the digits and a second dash are each rejected. |
| JavaText.DecimalRoundTrip | src/main/java/com/mwdle/Analyzer.java:95-99 | The attachment count rendered by `%s` reads back as the same number, so the count reaches the prompt without loss. |
| JavaText.FormatFields | src/main/java/com/mwdle/Analyzer.java:81-98 | `String.format` on a template whose fixed text has no `%` puts each argument in its `%s` slot verbatim, whatever the argument contains, and does not throw. |
| JavaText.WeaveLayout | src/main/java/com/mwdle/Analyzer.java:93-98 | In a filled template, the text before field k ends with the label that precedes it, the field's value follows verbatim, and the next field starts after the value and the next fixed chunk. |
| JavaText.TruncDiv | src/main/java/com/mwdle/Analyzer.java:144-145 | `long` division truncates toward zero: for a non-negative dividend the quotient q satisfies q*b <= a < (q+1)*b, and for a negative one (q-1)*b < a <= q*b. |
| JavaText.TruncDivMonotone | src/main/java/com/mwdle/Analyzer.java:144-145 | Truncating division by a positive divisor preserves order, for dividends of either sign. |
| Prompt.RenderCommentsDefined | src/main/java/com/mwdle/Analyzer.java:191-194 | Rendering the comment thread succeeds exactly when every comment has an author; otherwise it throws. |
| Prompt.RenderCommentsAppend | src/main/java/com/mwdle/Analyzer.java:190-194 | The comments section of a concatenated thread is the two sections concatenated, so the comments appear in the tracker's order. |
| Prompt.RenderCommentsSmall | src/main/java/com/mwdle/Analyzer.java:193 | One comment renders as `created - displayName: body` plus the line separator, with `null` for each missing field. A comment without an author throws. |
| Prompt.TwoCommentPrompt | src/main/java/com/mwdle/Analyzer.java:190-195 | An issue with two comments gets a prompt whose comments section is the first comment's line followed by the second's. |
| Prompt.ChunksEndWithLabels | src/main/java/com/mwdle/Analyzer.java:93-98 | Each field line of the template ends with its label: Title, Description, Attachments, Issue Type, Status, Comments. |
| Prompt.ChunksPlain | src/main/java/com/mwdle/Analyzer.java:93-99 | The field lines of the template contain no `%` beyond their `%s` directives. |
| Prompt.PreamblePlain | src/main/java/com/mwdle/Analyzer.java:81-92 | The instruction text of the template contains no `%`. |
| Prompt.PromptIsFormatted | src/main/java/com/mwdle/Analyzer.java:80-99 | `promptTemplate` equals `String.format` of the text block with the six values: the call does not throw, and the values fill the six slots in order, verbatim. |
| Prompt.PromptLayout | src/main/java/com/mwdle/Analyzer.java:80-99 | The prompt opens with the instruction text. In the field dump after it, each label is directly followed by its own value, and the next label comes after that value and a line break. |
| Prompt.GeneratePromptDefined | src/main/java/com/mwdle/Analyzer.java:184-196 | A prompt is produced exactly when every comment has an author. An issue with no comments gets the template with an empty comments section. |
| Prompt.EmptyCommentsSection | src/main/java/com/mwdle/Analyzer.java:98-99 | With no comments the prompt ends with the bare `Comments: ` label and the template's final line break. |
| Schema.Put | src/main/java/com/mwdle/Analyzer.java:107-118 | `JSONObject.put` sets one key and leaves every other key as it was. |
| Schema.ExpectedResponseFormat | src/main/java/com/mwdle/Analyzer.java:106-120 | The schema has exactly the keys `type` and `properties`. Its type is `object`, and its properties are exactly the two verdict fields, each of type boolean. |
| Schema.ResponseFormatMeaning | src/main/java/com/mwdle/Analyzer.java:106-120 | A JSON value conforms to the schema exactly when it is an object whose verdict fields, where present, are booleans. |
| Schema.PullRequest | src/main/java/com/mwdle/Analyzer.java:127-129 | The pull body has exactly the keys `model` and `stream`: the given model, with streaming on. |
| Schema.GenerateRequest | src/main/java/com/mwdle/Analyzer.java:168-172 | The generate body has exactly the keys `model`, `stream`, `prompt` and `format`: the given model, streaming off, the prompt verbatim, and the response schema as the format. |
| Schema.ResponseFormatSamples | src/main/java/com/mwdle/Analyzer.java:106-120 | A two-boolean verdict conforms, and so does `{}`. A verdict field holding a string does not, and neither does an array. |
| Inference.Verdict | src/main/java/com/mwdle/Analyzer.java:174-176 | There is no verdict exactly when the body is not JSON, since reading the field then throws. Otherwise the verdict is the `response` field when present, and the raw body when not. |
| Inference.VerdictIsBody | src/main/java/com/mwdle/Analyzer.java:174-176 | The verdict equals the raw body exactly when the body is JSON and the field is missing or equals the body. A present empty field is returned as the empty string. |
| Inference.VerdictSamples | src/main/java/com/mwdle/Analyzer.java:174-176 | `{"response":"X"}` yields `X`; `{"other":"Y"}` yields its own text; the plain text `404 page not found` yields no verdict. |
| Pull.ToMB | src/main/java/com/mwdle/Analyzer.java:144-145 | A non-negative byte count becomes the whole number of MiB it contains, rounded down. |
| Pull.Percent | src/main/java/com/mwdle/Analyzer.java:146 | The percentage is a finite quotient exactly when the total megabyte count is non-zero. It is then completedMB*100 over totalMB. |
| Pull.Measure | src/main/java/com/mwdle/Analyzer.java:144-147 | A progress record's status line carries the record's status text and its sizes in whole megabytes (each the number of full MiB in the byte count), and its percentage is computed from those truncated values. |
| Pull.MeasureWholeMegabytes | src/main/java/com/mwdle/Analyzer.java:144-147 | Two records with the same status whose byte counts lie in the same whole megabytes print the same line: bytes below a megabyte never reach the output. |
| Pull.Step | src/main/java/com/mwdle/Analyzer.java:136-149 | One loop iteration succeeds exactly when the line is well formed. A non-progress record changes nothing. A progress record makes its digest the tracked one, and starts a new line exactly when that digest differs from the tracked one. |
| Pull.ProgressRecords | src/main/java/com/mwdle/Analyzer.java:138 | The reference list of progress records: each has `total` and `completed` and occurs in the stream. |
| Pull.TrackEnd | src/main/java/com/mwdle/Analyzer.java:133-157 | The loop stops early exactly when some line throws, and then at the first such line. Otherwise it ends normally, or with exit status 1 when reading failed. |
| Pull.TrackDigest | src/main/java/com/mwdle/Analyzer.java:135-141 | After a well-formed stream, the tracked digest is the last progress record's digest, or the initial one when there was none. |
| Pull.TrackNewLines | src/main/java/com/mwdle/Analyzer.java:139-143 | The number of new progress lines equals the number of progress records whose digest differs from the previous one, counting from the empty digest. |
| Pull.TrackUpdates | src/main/java/com/mwdle/Analyzer.java:138-148 | The status lines printed are exactly the progress records, measured, in stream order. Records without `total` or `completed` print nothing. |
| Pull.MegabytesOrdered | src/main/java/com/mwdle/Analyzer.java:144-146 | When completed <= total bytes, completedMB <= totalMB. With a non-zero total the percentage lies between 0 and 100. |
| Pull.PercentSamples | src/main/java/com/mwdle/Analyzer.java:144-146 | 1 MiB of 2 MiB gives 100/2 (50%), and so does 1.5 MiB of 2 MiB. Under 1 MiB in total the quotient is NaN or Infinity. |
| Pull.DigestChangeSample | src/main/java/com/mwdle/Analyzer.java:135-148 | For records `sha1`, `sha1`, `sha2` the loop starts exactly two new lines and ends tracking `sha2`. The first status line shows 1 of 2 MB at 100/2. |
| Session.Main | src/main/java/com/mwdle/Analyzer.java:198-202 | No session action happens unless the model download finished cleanly. |
| Session.OuterDisciplined | src/main/java/com/mwdle/Analyzer.java:201-229 | Every trace of the loop is well ordered. Each fetch comes right after a credential install. Each query comes right after a reset. Each report comes right after a query. Iterations begin with a rejection or an install. |
| Session.CredentialScope | src/main/java/com/mwdle/Analyzer.java:215-226 | In every session, for any input and any backend answers: every fetch happens with tracker credentials installed, and every inference request with none installed. Fetched keys have the key shape and rejected lines do not. Every inference request names the session's model. |
| Session.ProcessCredentialScope | src/main/java/com/mwdle/Analyzer.java:198-230 | For the whole process: a failed download runs no session and does not end with `exit`. The credential discipline holds for every action after a clean download. The model pulled is the `ollama.model` setting (default `mistral`), and every inference body names that same model, carries its prompt and asks for the response schema. |
| Session.AuthAfterStep | src/main/java/com/mwdle/Analyzer.java:38-41 | The credentials are installed just after `configureJiraApi` and cleared just after `RestAssured.reset`. |
| Session.ExitAtOuterPrompt | src/main/java/com/mwdle/Analyzer.java:205-209 | `exit` at the outer prompt ends the session at once, with no further action. |
| Session.ExitIgnoredWhenReprompting | src/main/java/com/mwdle/Analyzer.java:210-214 | At the re-prompt, `exit` is rejected as an invalid key and the loop reads on. When it is the last line, the process crashes at the end of input instead of exiting. |
| Session.ExitNeedsSentinel | src/main/java/com/mwdle/Analyzer.java:201-209 | A session ends with status 0 only if the sentinel was read. |
| Session.AnalyzeReports | src/main/java/com/mwdle/Analyzer.java:215-228 | A successful analysis with a JSON reply installs credentials, fetches, clears them, queries with the generated prompt and reports the extracted verdict. It then returns to the outer prompt. |
| Session.AnalyzeReplyNotJson | src/main/java/com/mwdle/Analyzer.java:224-227 | A reply whose body is not JSON ends the process right after the query: nothing is reported and no further line is read. |
| Session.AnalyzeBadStatus | src/main/java/com/mwdle/Analyzer.java:59-68 | A tracker reply whose status is not 200 ends the process right after the fetch, with no query and no further input read. |
| Session.BadStatusSession | src/main/java/com/mwdle/Analyzer.java:202-220 | A valid key answered with a status other than 200, followed by `exit`, gives install and fetch and then a crash; the `exit` is never read. |
| Session.AnalyzeTrackerError | src/main/java/com/mwdle/Analyzer.java:217-223 | A failed connection to the tracker is reported. The loop returns to the outer prompt with no query, and the credentials are left installed. |
| Session.OneKeySession | src/main/java/com/mwdle/Analyzer.java:202-229 | One valid key followed by `exit` produces exactly install, fetch, reset, query, report, and then exit. |
| Session.RecoverySession | src/main/java/com/mwdle/Analyzer.java:202-229 | After a failed connection to the tracker the loop accepts more input. A malformed line is rejected at the re-prompt, and the next valid key is analysed in full. |
| Session.MainRunsLoop | src/main/java/com/mwdle/Analyzer.java:198-202 | After a clean download the process runs the session loop with the configured model and `generatePrompt` as the prompt builder. |
| Session.EndToEndSample | src/main/java/com/mwdle/Analyzer.java:198-230 | With no model configured, key `ABC-123` with a two-comment issue sends a `mistral` request whose prompt holds both comment lines in order. The printed verdict is exactly the backend's `response` text. |

## Left out

- `loadProperties` and the configuration values (hosts, user, password) are left out. They only address the backends, which are oracles here. The one setting kept is `ollama.model`: it is `Main`'s `modelSetting`, read through `Schema.ModelName` with the default `mistral`.
- HTTP transport and the JiraApiException message text are left out. Each tracker call is one outcome: `Loaded`, `BadStatus` (any status other than 200) or `Unavailable` (a transport failure).
- Console text is left out: the prompts, "Invalid Jira issue code", "Result: " and the `printf` of the progress line. What is printed is kept as actions and events. The `%.2f` rounding of the percentage is not modelled; the exact quotient is kept.
- `Scanner` is left out. `main` builds a new `Scanner` on each outer iteration, and the model reads the input as one sequence of lines. That matches interactive use; lines a discarded scanner had buffered ahead are not modelled.
- JSON decoding of the download stream is left out. Lines arrive as decoded records, or as "not JSON". A `completed` or `total` that is not a number, or a `digest` or `status` that is not a string, is not modelled.
- JsonPath extraction of the issue is left out. The fields are modelled as nullable strings and a count, and a comment's author as present or absent. Issues outside that domain throw in the source, and the model does not represent them:
  - a missing `fields.attachment` or `fields.comment.comments` array;
  - a `fields.summary`, `fields.description`, `fields.issuetype.name` or `fields.status.name` that is not a string, which the assignment to a `String` local rejects with a ClassCastException;
  - a comment `author` that is not an object, which the `Map` cast rejects with a ClassCastException.

  `Prompt.GeneratePromptDefined` and `Prompt.RenderCommentsDefined` speak about the modelled domain. There, only a missing author makes rendering fail. A comment's `created`, `displayName` and `body` of any type are appended as text, and the model keeps them as nullable strings.
- `String.format` directives other than `%s` and `%%` are out of scope. The template uses only `%s`.
- The inference backend oracle is keyed on the prompt rather than on the whole body. Within a session the rest of the body is fixed by the model name, which each `Query` action records; `Session.RequestBody` rebuilds the body from it.
- The session loop's properties are stated for any prompt builder and any model name. The platform line separator and the `ollama.model` setting are parameters of `Main`.

