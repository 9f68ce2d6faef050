/** The session loop of `main`: provisioning first, then one analysis per
    issue key read from the operator, as a state machine over the input
    lines. The tracker and the inference backend are oracles: functions from
    the request and its ordinal (how many such calls came before) to the
    outcome. Everything the loop does to the outside world is recorded as an
    `Action`, which is what the credential-scope properties talk about. */
module Session {
  import opened Options
  import opened IssueKey
  import opened Prompt
  import opened Inference
  import opened Schema
  import opened Pull

  /** The input that ends the loop at the outer prompt. */
  const ExitSentinel := "exit"

  /** `loadJiraIssue`: the issue; a reply whose status is not 200, which
      `statusCode(200)` rejects with an AssertionError that `catch (Exception)`
      does not catch; or a transport failure, which becomes the caught
      JiraApiException. */
  datatype FetchOutcome = Loaded(issue: Issue) | BadStatus | Unavailable

  /** `POST /api/generate`: the backend's reply, or a failure of the request
      (not caught anywhere). */
  datatype QueryOutcome = Replied(reply: GenerateReply) | QueryError

  /** What an iteration calls out to: the model named in every inference
      request, the prompt builder (`generatePrompt` with the platform line
      separator fixed, wired in by `Main`) and the two backends. The
      inference backend is keyed on the prompt, the one part of the request
      body that varies within a session. The loop's properties are stated
      for any model name and any builder. */
  datatype Env = Env(model: string,
                     render: Issue -> Option<string>,
                     tracker: (string, nat) -> FetchOutcome,
                     llm: (string, nat) -> QueryOutcome)

  /** What the loop does, in order. */
  datatype Action =
    | Rejected(line: string)                // "Invalid Jira issue code", then a re-prompt
    | Configure                             // configureJiraApi: tracker basic auth installed
    | Fetch(key: string)                    // GET /rest/api/2/issue/{key}
    | TrackerError(key: string)             // the JiraApiException message is printed
    | Reset                                 // RestAssured.reset(): tracker auth cleared
    | Query(model: string, prompt: string)  // POST /api/generate, body RequestBody
    | Report(verdict: string)               // "Result: " and the verdict

  /** Exceptions that escape `main`. */
  datatype Crash =
    | NoMoreInput              // Scanner.nextLine at the end of input
    | StatusNot200             // AssertionError from statusCode(200) in loadJiraIssue
    | CommentWithoutAuthor     // NullPointerException in generatePrompt
    | QueryFailed              // queryLLM's request failed
    | ReplyNotJson             // jsonPath() could not parse the reply body
    | PullRefused              // the pull request itself failed
    | MalformedProgress(index: nat)  // JSONException on stream line `index`

  /** How the process ends: `exit` at the prompt (status 0), System.exit(1)
      after a failed model download, or an uncaught exception. */
  datatype Stop = Exited | ExitStatusOne | Crashed(cause: Crash)

  datatype Run = Run(trace: seq<Action>, stop: Stop)

  function Then(prefix: seq<Action>, r: Run): Run {
    Run(prefix + r.trace, r.stop)
  }

  /** The outer prompt, with `fetches` tracker calls and `queries` inference
      calls made so far. */
  function Outer(lines: seq<string>, env: Env, fetches: nat, queries: nat): Run
    decreases |lines|, 0
  {
    if |lines| == 0 then Run([], Crashed(NoMoreInput))
    else if lines[0] == ExitSentinel then Run([], Exited)
    else Validate(lines[0], lines[1..], env, fetches, queries)
  }

  /** The re-prompt loop: `line` is checked against the key pattern and
      re-read until it matches; the exit sentinel is not looked for here. */
  function Validate(line: string, rest: seq<string>, env: Env, fetches: nat, queries: nat): Run
    decreases |rest|, 2
  {
    if IsIssueKey(line) then Analyze(line, rest, env, fetches, queries)
    else if |rest| == 0 then Run([Rejected(line)], Crashed(NoMoreInput))
    else Then([Rejected(line)], Validate(rest[0], rest[1..], env, fetches, queries))
  }

  /** One analysis of a valid key: install the tracker credentials, fetch,
      and on failure report and go back to the outer prompt; otherwise build
      the prompt, clear the credentials, query and report. */
  function Analyze(key: string, rest: seq<string>, env: Env, fetches: nat, queries: nat): Run
    decreases |rest|, 1
  {
    var fetched := [Configure, Fetch(key)];
    match env.tracker(key, fetches)
    case BadStatus => Run(fetched, Crashed(StatusNot200))
    case Unavailable => Then(fetched + [TrackerError(key)], Outer(rest, env, fetches + 1, queries))
    case Loaded(issue) =>
      match env.render(issue)
      case None => Run(fetched, Crashed(CommentWithoutAuthor))
      case Some(prompt) =>
        var queried := fetched + [Reset, Query(env.model, prompt)];
        match env.llm(prompt, queries)
        case QueryError => Run(queried, Crashed(QueryFailed))
        case Replied(reply) =>
          match Verdict(reply)
          case None => Run(queried, Crashed(ReplyNotJson))
          case Some(verdict) => Then(queried + [Report(verdict)], Outer(rest, env, fetches + 1, queries + 1))
  }

  /** `main` after the properties are loaded: pull the model, then run the
      loop only if the download stream closed normally. */
  datatype Process = Process(model: string, pull: Pulled, run: Run)

  /** The JSON body `pullModel` posts to `/api/pull`. */
  function PullBody(p: Process): Json {
    PullRequest(p.model)
  }

  /** `modelSetting` is the `ollama.model` property, read with its default
      both for the pull and for every inference request. */
  function Main(modelSetting: Option<string>, pullReply: PullReply, lines: seq<string>, lineSeparator: string,
                tracker: (string, nat) -> FetchOutcome, llm: (string, nat) -> QueryOutcome): (p: Process)
    ensures p.run.trace != [] ==> p.pull.end == Finished
  {
    var model := ModelName(modelSetting);
    var env := Env(model, issue => GeneratePrompt(issue, lineSeparator), tracker, llm);
    var pulled := PullModel(pullReply);
    match pulled.end
    case Finished => Process(model, pulled, Outer(lines, env, 0, 0))
    case ReadFailed => Process(model, pulled, Run([], ExitStatusOne))
    case Malformed(i) => Process(model, pulled, Run([], Crashed(MalformedProgress(i))))
    case RequestFailed => Process(model, pulled, Run([], Crashed(PullRefused)))
  }

  // Properties of traces, stated independently of the loop.

  /** Whether tracker basic auth is installed after these actions: the last
      `Configure` or `Reset` decides, and nothing is installed at start. */
  function AuthAfter(t: seq<Action>): bool
    decreases |t|
  {
    if |t| == 0 then false
    else match t[|t| - 1]
      case Configure => true
      case Reset => false
      case _ => AuthAfter(t[..|t| - 1])
  }

  /** The local discipline of one action in a trace. */
  ghost predicate ActionOk(t: seq<Action>, i: int)
    requires 0 <= i < |t|
  {
    match t[i]
    case Rejected(line) => !KeyShape(line)
    case Configure => i + 1 < |t| && t[i + 1].Fetch?
    case Fetch(key) => KeyShape(key) && i > 0 && t[i - 1] == Configure
    case TrackerError(key) =>
      && i > 0 && t[i - 1] == Fetch(key)
      && (i + 1 < |t| ==> t[i + 1].Rejected? || t[i + 1] == Configure)
    case Reset => i > 0 && t[i - 1].Fetch? && i + 1 < |t| && t[i + 1].Query?
    case Query(_, _) => i > 0 && t[i - 1] == Reset
    case Report(_) => i > 0 && t[i - 1].Query?
  }

  ghost predicate Disciplined(t: seq<Action>) {
    forall i :: 0 <= i < |t| ==> ActionOk(t, i)
  }

  /** The JSON body `queryLLM` posts for a query of the trace. */
  function RequestBody(a: Action): Json
    requires a.Query?
  {
    GenerateRequest(a.model, a.prompt)
  }

  /** Every inference request in the trace names `model`. */
  predicate RequestsFor(t: seq<Action>, model: string) {
    forall i :: 0 <= i < |t| && t[i].Query? ==> t[i].model == model
  }

  /** Where a new iteration of the loop may begin. */
  predicate StartsIteration(t: seq<Action>) {
    |t| == 0 || t[0].Rejected? || t[0] == Configure
  }

  predicate EndsIteration(t: seq<Action>) {
    |t| == 0 || t[|t| - 1].Rejected? || t[|t| - 1].TrackerError? || t[|t| - 1].Report?
  }

  lemma DisciplinedConcat(a: seq<Action>, b: seq<Action>)
    requires Disciplined(a) && Disciplined(b)
    requires EndsIteration(a) && StartsIteration(b)
    ensures Disciplined(a + b)
  {
    var t := a + b;
    forall i | 0 <= i < |t| ensures ActionOk(t, i) {
      if i < |a| {
        assert ActionOk(a, i);
        assert t[i] == a[i];
        if i > 0 { assert t[i - 1] == a[i - 1]; }
        if i + 1 < |a| { assert t[i + 1] == a[i + 1]; }
        else if i + 1 < |t| { assert t[i + 1] == b[0]; }
      } else {
        var j := i - |a|;
        assert ActionOk(b, j);
        assert t[i] == b[j];
        if j > 0 { assert t[i - 1] == b[j - 1]; }
        if j + 1 < |b| { assert t[i + 1] == b[j + 1]; }
      }
    }
  }

  lemma RequestsConcat(a: seq<Action>, b: seq<Action>, model: string)
    requires RequestsFor(a, model) && RequestsFor(b, model)
    ensures RequestsFor(a + b, model)
  {
    var t := a + b;
    forall i | 0 <= i < |t| && t[i].Query? ensures t[i].model == model {
      if i < |a| {
        assert t[i] == a[i];
      } else {
        assert t[i] == b[i - |a|];
      }
    }
  }

  lemma {:induction false} OuterDisciplined(lines: seq<string>, env: Env, fetches: nat, queries: nat)
    ensures var t := Outer(lines, env, fetches, queries).trace;
            Disciplined(t) && StartsIteration(t) && RequestsFor(t, env.model)
    decreases |lines|, 0
  {
    if |lines| > 0 && lines[0] != ExitSentinel {
      ValidateDisciplined(lines[0], lines[1..], env, fetches, queries);
    }
  }

  lemma {:induction false} ValidateDisciplined(line: string, rest: seq<string>, env: Env, fetches: nat, queries: nat)
    ensures var t := Validate(line, rest, env, fetches, queries).trace;
            Disciplined(t) && StartsIteration(t) && RequestsFor(t, env.model)
    decreases |rest|, 2
  {
    IsIssueKeyCorrect(line);
    if IsIssueKey(line) {
      AnalyzeDisciplined(line, rest, env, fetches, queries);
    } else {
      var head := [Rejected(line)];
      assert ActionOk(head, 0);
      if |rest| > 0 {
        ValidateDisciplined(rest[0], rest[1..], env, fetches, queries);
        DisciplinedConcat(head, Validate(rest[0], rest[1..], env, fetches, queries).trace);
        RequestsConcat(head, Validate(rest[0], rest[1..], env, fetches, queries).trace, env.model);
      }
    }
  }

  lemma {:induction false} AnalyzeDisciplined(key: string, rest: seq<string>, env: Env, fetches: nat, queries: nat)
    requires IsIssueKey(key)
    ensures var t := Analyze(key, rest, env, fetches, queries).trace;
            Disciplined(t) && StartsIteration(t) && RequestsFor(t, env.model)
    decreases |rest|, 1
  {
    IsIssueKeyCorrect(key);
    var fetched := [Configure, Fetch(key)];
    assert ActionOk(fetched, 0) && ActionOk(fetched, 1);
    match env.tracker(key, fetches)
    case BadStatus =>
    case Unavailable =>
      var head := fetched + [TrackerError(key)];
      assert ActionOk(head, 0) && ActionOk(head, 1) && ActionOk(head, 2);
      OuterDisciplined(rest, env, fetches + 1, queries);
      DisciplinedConcat(head, Outer(rest, env, fetches + 1, queries).trace);
      RequestsConcat(head, Outer(rest, env, fetches + 1, queries).trace, env.model);
    case Loaded(issue) =>
      match env.render(issue)
      case None =>
      case Some(prompt) =>
        var queried := fetched + [Reset, Query(env.model, prompt)];
        assert ActionOk(queried, 0) && ActionOk(queried, 1) && ActionOk(queried, 2) && ActionOk(queried, 3);
        assert RequestsFor(queried, env.model);
        match env.llm(prompt, queries)
        case QueryError =>
        case Replied(reply) =>
          match Verdict(reply)
          case None =>
          case Some(verdict) =>
            var head := queried + [Report(verdict)];
            assert ActionOk(head, 0) && ActionOk(head, 1) && ActionOk(head, 2) && ActionOk(head, 3) && ActionOk(head, 4);
            assert RequestsFor(head, env.model);
            OuterDisciplined(rest, env, fetches + 1, queries + 1);
            DisciplinedConcat(head, Outer(rest, env, fetches + 1, queries + 1).trace);
            RequestsConcat(head, Outer(rest, env, fetches + 1, queries + 1).trace, env.model);
  }

  /** The credentials installed just after a `Configure` or a `Reset`. */
  lemma AuthAfterStep(t: seq<Action>, i: int)
    requires 0 < i <= |t|
    ensures t[i - 1] == Configure ==> AuthAfter(t[..i])
    ensures t[i - 1] == Reset ==> !AuthAfter(t[..i])
  {
    assert t[..i][i - 1] == t[i - 1];
  }

  /** The credential discipline of one action: fetches only right after
      the credentials are installed and with them installed, inference
      requests only right after they are cleared and with none installed;
      fetched keys have the issue-key shape and rejected lines do not; after
      a tracker failure the next action, if any, starts a new iteration. */
  ghost predicate Scoped(t: seq<Action>, i: int)
    requires 0 <= i < |t|
  {
    && (t[i].Fetch? ==> i > 0 && t[i - 1] == Configure && AuthAfter(t[..i]) && KeyShape(t[i].key))
    && (t[i].Query? ==> i > 0 && t[i - 1] == Reset && !AuthAfter(t[..i]))
    && (t[i].Rejected? ==> !KeyShape(t[i].line))
    && (t[i].TrackerError? && i + 1 < |t| ==> t[i + 1].Rejected? || t[i + 1] == Configure)
  }

  /** Credential scope: every action of every session, whatever the input
      and whatever the backends answer, keeps the credential discipline, and
      every inference request names the configured model. */
  lemma CredentialScope(lines: seq<string>, env: Env)
    ensures var t := Outer(lines, env, 0, 0).trace;
            && (forall i :: 0 <= i < |t| ==> Scoped(t, i))
            && RequestsFor(t, env.model)
  {
    var t := Outer(lines, env, 0, 0).trace;
    OuterDisciplined(lines, env, 0, 0);
    forall i | 0 <= i < |t| ensures Scoped(t, i) {
      assert ActionOk(t, i);
      if i > 0 {
        AuthAfterStep(t, i);
      }
    }
  }

  /** The same holds of the whole process: the pull request goes out before
      any credentials exist, the loop runs only after a clean download, and
      the model pulled is the model every inference request names. */
  lemma ProcessCredentialScope(modelSetting: Option<string>, pullReply: PullReply, lines: seq<string>,
                                lineSeparator: string, tracker: (string, nat) -> FetchOutcome,
                                llm: (string, nat) -> QueryOutcome)
    ensures var p := Main(modelSetting, pullReply, lines, lineSeparator, tracker, llm);
            && (p.pull.end != Finished ==> p.run.trace == [] && p.run.stop != Exited)
            && (forall i :: 0 <= i < |p.run.trace| ==> Scoped(p.run.trace, i))
            && PullBody(p).Obj? && PullBody(p).fields["model"] == Str(ModelName(modelSetting))
            && forall i :: 0 <= i < |p.run.trace| && p.run.trace[i].Query? ==>
                 && IsGenerateRequest(RequestBody(p.run.trace[i]), ModelName(modelSetting))
                 && RequestBody(p.run.trace[i]).fields["prompt"] == Str(p.run.trace[i].prompt)
  {
    var p := Main(modelSetting, pullReply, lines, lineSeparator, tracker, llm);
    var env := Env(ModelName(modelSetting), issue => GeneratePrompt(issue, lineSeparator), tracker, llm);
    if p.pull.end == Finished {
      assert p.run == Outer(lines, env, 0, 0);
      CredentialScope(lines, env);
    }
  }

  /** At the re-prompt, `exit` is one more malformed key: after a rejected
      line, an `exit` line is rejected too and the loop keeps reading, and
      when it was the last line the process crashes at the end of input
      instead of exiting. */
  lemma ExitIgnoredWhenReprompting(line: string, rest: seq<string>, env: Env, fetches: nat, queries: nat)
    requires !IsIssueKey(line) && |rest| > 0 && rest[0] == ExitSentinel
    ensures var r := Validate(line, rest, env, fetches, queries);
            && |r.trace| >= 2 && r.trace[0] == Rejected(line) && r.trace[1] == Rejected(ExitSentinel)
            && r == Then([Rejected(line)], Validate(rest[0], rest[1..], env, fetches, queries))
            && (|rest| == 1 ==> r == Run([Rejected(line), Rejected(ExitSentinel)], Crashed(NoMoreInput)))
            && (|rest| > 1 ==> r == Then([Rejected(line), Rejected(ExitSentinel)],
                                         Validate(rest[1], rest[2..], env, fetches, queries)))
  {
    ExitIsNotAKey();
    if |rest| > 1 {
      assert rest[1..][0] == rest[1] && rest[1..][1..] == rest[2..];
    }
  }

  /** At the outer prompt, `exit` ends the session at once, whatever came
      before: no credentials, no fetch and no query for it. */
  lemma ExitAtOuterPrompt(lines: seq<string>, env: Env, fetches: nat, queries: nat)
    requires |lines| > 0 && lines[0] == ExitSentinel
    ensures Outer(lines, env, fetches, queries) == Run([], Exited)
  {
  }

  /** A session ends with status 0 only by reading the sentinel. */
  lemma {:induction false} ExitNeedsSentinel(lines: seq<string>, env: Env, fetches: nat, queries: nat)
    ensures Outer(lines, env, fetches, queries).stop == Exited ==> ExitSentinel in lines
    decreases |lines|, 0
  {
    if |lines| > 0 && lines[0] != ExitSentinel {
      ValidateNeedsSentinel(lines[0], lines[1..], env, fetches, queries);
    }
  }

  lemma {:induction false} ValidateNeedsSentinel(line: string, rest: seq<string>, env: Env, fetches: nat, queries: nat)
    ensures Validate(line, rest, env, fetches, queries).stop == Exited ==> ExitSentinel in rest
    decreases |rest|, 1
  {
    if IsIssueKey(line) {
      assert Validate(line, rest, env, fetches, queries) == Analyze(line, rest, env, fetches, queries);
      match env.tracker(line, fetches)
      case BadStatus =>
      case Unavailable =>
        ExitNeedsSentinel(rest, env, fetches + 1, queries);
      case Loaded(issue) =>
        match env.render(issue)
        case None =>
        case Some(prompt) =>
          match env.llm(prompt, queries)
          case QueryError =>
          case Replied(reply) =>
            if reply.json {
              ExitNeedsSentinel(rest, env, fetches + 1, queries + 1);
            }
    } else if |rest| > 0 {
      ValidateNeedsSentinel(rest[0], rest[1..], env, fetches, queries);
    }
  }

  /** One successful iteration: credentials in, fetch, credentials out,
      query with the request body built from the prompt, report, then back
      to the outer prompt with both counters advanced. */
  lemma AnalyzeReports(key: string, rest: seq<string>, env: Env, fetches: nat, queries: nat,
                       issue: Issue, prompt: string, reply: GenerateReply)
    requires env.tracker(key, fetches) == Loaded(issue)
    requires env.render(issue) == Some(prompt)
    requires env.llm(prompt, queries) == Replied(reply)
    requires reply.json
    ensures Analyze(key, rest, env, fetches, queries)
         == Then([Configure, Fetch(key), Reset, Query(env.model, prompt), Report(Verdict(reply).value)],
                 Outer(rest, env, fetches + 1, queries + 1))
  {
  }

  /** A reply whose body is not JSON (a plain-text error page, say) ends the
      process after the query: nothing is reported and the loop does not go
      on. */
  lemma AnalyzeReplyNotJson(key: string, rest: seq<string>, env: Env, fetches: nat, queries: nat,
                            issue: Issue, prompt: string, reply: GenerateReply)
    requires env.tracker(key, fetches) == Loaded(issue)
    requires env.render(issue) == Some(prompt)
    requires env.llm(prompt, queries) == Replied(reply)
    requires !reply.json
    ensures Analyze(key, rest, env, fetches, queries)
         == Run([Configure, Fetch(key), Reset, Query(env.model, prompt)], Crashed(ReplyNotJson))
  {
  }

  /** A tracker reply whose status is not 200 (an unknown key, refused
      credentials) ends the process right after the fetch: the AssertionError
      escapes both `loadJiraIssue` and `main`, nothing is queried, and no
      further line is read. */
  lemma AnalyzeBadStatus(key: string, rest: seq<string>, env: Env, fetches: nat, queries: nat)
    requires env.tracker(key, fetches) == BadStatus
    ensures Analyze(key, rest, env, fetches, queries) == Run([Configure, Fetch(key)], Crashed(StatusNot200))
  {
  }

  /** A failed connection to the tracker: the error is reported, the
      credentials stay installed, and the loop returns to the outer prompt
      without querying. */
  lemma AnalyzeTrackerError(key: string, rest: seq<string>, env: Env, fetches: nat, queries: nat)
    requires env.tracker(key, fetches) == Unavailable
    ensures Analyze(key, rest, env, fetches, queries)
         == Then([Configure, Fetch(key), TrackerError(key)], Outer(rest, env, fetches + 1, queries))
    ensures AuthAfter([Configure, Fetch(key), TrackerError(key)])
  {
  }

  /** A whole session for one key: the key is accepted, the issue fetched
      under installed credentials, the credentials cleared before the query,
      the verdict reported, and `exit` at the next prompt ends the process. */
  lemma OneKeySession(key: string, env: Env, issue: Issue, prompt: string, reply: GenerateReply)
    requires IsIssueKey(key)
    requires env.tracker(key, 0) == Loaded(issue)
    requires env.render(issue) == Some(prompt)
    requires env.llm(prompt, 0) == Replied(reply)
    requires reply.json
    ensures Outer([key, ExitSentinel], env, 0, 0)
         == Run([Configure, Fetch(key), Reset, Query(env.model, prompt), Report(Verdict(reply).value)],
                Exited)
  {
    ExitIsNotAKey();
    assert [key, ExitSentinel][1..] == [ExitSentinel];
    AnalyzeReports(key, [ExitSentinel], env, 0, 0, issue, prompt, reply);
  }

  /** A key the tracker answers with a status other than 200: the session
      ends there, and the `exit` typed after it is never read. */
  lemma BadStatusSession(key: string, env: Env)
    requires IsIssueKey(key)
    requires env.tracker(key, 0) == BadStatus
    ensures Outer([key, ExitSentinel], env, 0, 0) == Run([Configure, Fetch(key)], Crashed(StatusNot200))
  {
    ExitIsNotAKey();
    AnalyzeBadStatus(key, [ExitSentinel], env, 0, 0);
  }

  /** A failed connection to the tracker, then a line that is not a key,
      then a key that succeeds: the failure is reported, the bad line is rejected at the
      re-prompt, and the second key is analysed as the second tracker call
      but the first inference call. */
  lemma RecoverySession(first: string, bad: string, second: string, env: Env,
                        issue: Issue, prompt: string, reply: GenerateReply)
    requires IsIssueKey(first) && !IsIssueKey(bad) && IsIssueKey(second)
    requires bad != ExitSentinel
    requires env.tracker(first, 0) == Unavailable
    requires env.tracker(second, 1) == Loaded(issue)
    requires env.render(issue) == Some(prompt)
    requires env.llm(prompt, 0) == Replied(reply)
    requires reply.json
    ensures var r := Outer([first, bad, second, ExitSentinel], env, 0, 0);
            && r.stop == Exited
            && r.trace == [Configure, Fetch(first), TrackerError(first), Rejected(bad),
                           Configure, Fetch(second), Reset, Query(env.model, prompt),
                           Report(Verdict(reply).value)]
  {
    var lines := [first, bad, second, ExitSentinel];
    ExitIsNotAKey();
    AnalyzeReports(second, [ExitSentinel], env, 1, 0, issue, prompt, reply);
    assert Validate(bad, [second, ExitSentinel], env, 1, 0)
        == Then([Rejected(bad)], Analyze(second, [ExitSentinel], env, 1, 0)) by {
      assert [second, ExitSentinel][1..] == [ExitSentinel];
    }
    assert Outer(lines[1..], env, 1, 0) == Validate(bad, [second, ExitSentinel], env, 1, 0) by {
      assert lines[1..][1..] == [second, ExitSentinel];
    }
    AnalyzeTrackerError(first, lines[1..], env, 0, 0);
  }

  /** After a clean download, `Main` runs the loop with the configured model
      and `generatePrompt` as the prompt builder. */
  lemma MainRunsLoop(modelSetting: Option<string>, pullReply: PullReply, lines: seq<string>, lineSeparator: string,
                     tracker: (string, nat) -> FetchOutcome, llm: (string, nat) -> QueryOutcome)
    requires PullModel(pullReply).end == Finished
    ensures Main(modelSetting, pullReply, lines, lineSeparator, tracker, llm).run
         == Outer(lines, Env(ModelName(modelSetting), issue => GeneratePrompt(issue, lineSeparator), tracker, llm), 0, 0)
  {
  }

  /** End to end through `Main`: no model is configured, the download
      stream closes cleanly, key `ABC-123` names an issue with two comments,
      and the backend answers in JSON with the verdict in its `response`
      field. The request sent names `mistral` and holds the template filled
      with the issue's fields and both comment lines in order, and the
      verdict printed is that exact text. */
  lemma EndToEndSample(c1: Comment, c2: Comment, tracker: (string, nat) -> FetchOutcome,
                       llm: (string, nat) -> QueryOutcome, body: string, verdict: string)
    requires c1.author.Some? && c2.author.Some?
    requires tracker("ABC-123", 0) == Loaded(Issue(Some("Login page"), None, 0, Some("Bug"), Some("Open"), [c1, c2]))
    requires forall prompt :: (llm(prompt, 0) == Replied(GenerateReply(body, true, Some(verdict))))
    ensures var comments := CommentLine(c1, "\n").value + CommentLine(c2, "\n").value;
            var prompt := PromptTemplate(Some("Login page"), None, 0, Some("Bug"), Some("Open"), comments);
            Main(None, Streamed([], false), ["ABC-123", ExitSentinel], "\n", tracker, llm).run
            == Run([Configure, Fetch("ABC-123"), Reset, Query(DefaultModel, prompt), Report(verdict)], Exited)
  {
    var issue := Issue(Some("Login page"), None, 0, Some("Bug"), Some("Open"), [c1, c2]);
    var env := Env(ModelName(None), i => GeneratePrompt(i, "\n"), tracker, llm);
    TwoCommentPrompt(issue, c1, c2, "\n");
    AcceptedKeys();
    OneKeySession("ABC-123", env, issue, GeneratePrompt(issue, "\n").value, GenerateReply(body, true, Some(verdict)));
    MainRunsLoop(None, Streamed([], false), ["ABC-123", ExitSentinel], "\n", tracker, llm);
  }
}
