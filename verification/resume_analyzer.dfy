/** `ResumeAnalyzer` (src/ResumeAnalyzer.js): `handleUpload`, which checks
    the files and the trimmed role, builds a form whose file keys depend on
    the `mode` prop, POSTs it with axios to an endpoint chosen by the mode
    and routes the reply to `result` or `batchResult`. The `mode` prop is
    any string; only `"company"` is special. */
module ResumeAnalyzer {
  import opened Optional
  import opened JsString
  import opened Multipart
  import opened Transport

  const CompanyMode: string := "company"

  /** The component's state hooks. `error` starts as `null` and both
      results start as `{}`. */
  datatype State = State(
    files: seq<File>,
    role: string,
    loading: bool,
    error: Json,
    result: Json,
    batchResult: Json)

  const Initial: State := State([], "", false, JNull, EmptyObject, EmptyObject)

  const MissingInputWarning: string := "\U{26A0}\U{FE0F} Please select file(s) and enter a job role."
  const FallbackError: string := "An error occurred. Please try again."
  const CompareBatchPath: string := "/api/compare-batch"
  const AnalyzePath: string := "/api/analyze"

  /** `!files.length || !role.trim()`. */
  predicate MissingInput(s: State) {
    |s.files| == 0 || Trim(s.role) == ""
  }

  /** The path chosen for the POST. */
  function Endpoint(mode: string): (r: string)
    ensures r == CompareBatchPath <==> mode == CompanyMode
    ensures r == AnalyzePath <==> mode != CompanyMode
  {
    if mode == CompanyMode then CompareBatchPath else AnalyzePath
  }

  /** The form: every file under `files` in company mode, only the first
      under `file` otherwise; then the role exactly as typed and the mode. */
  function BuildPayload(mode: string, s: State): Payload
    requires |s.files| > 0
  {
    var fileFields :=
      if mode == CompanyMode then FileFields("files", s.files)
      else [Field("file", FilePart(s.files[0]))];
    fileFields + [TextField("role", s.role), TextField("mode", mode)]
  }

  /** The synchronous part of `handleUpload`, up to the `await`. */
  datatype Submission = Rejected(state: State) | Sent(state: State, request: Request)

  function Submit(mode: string, s: State): (r: Submission)
    ensures r.Rejected? <==> MissingInput(s)
    ensures r.Rejected? ==> r.state == s.(error := JStr(MissingInputWarning))
    ensures r.Sent? ==> r.state == s.(loading := true, error := JNull)
    ensures r.Sent? ==> r.request.endpoint == Endpoint(mode)
  {
    if MissingInput(s) then Rejected(s.(error := JStr(MissingInputWarning)))
    else Sent(s.(loading := true, error := JNull), Request(Endpoint(mode), BuildPayload(mode, s)))
  }

  /** `response.data || {}`: a falsy body is replaced by an empty object,
      anything else is kept as received. */
  function DataOrEmpty(data: Json): (r: Json)
    ensures Truthy(r)
    ensures Truthy(data) ==> r == data
    ensures !Truthy(data) ==> r == EmptyObject
  {
    OrElse(Some(data), EmptyObject)
  }

  /** `error.response?.data?.error || "An error occurred. Please try again."` */
  function ErrorMessage(response: Option<Json>): (r: Json)
    ensures Truthy(r)
    ensures ServerErrorField(response).Some? && Truthy(ServerErrorField(response).value) ==>
              r == ServerErrorField(response).value
    ensures !(ServerErrorField(response).Some? && Truthy(ServerErrorField(response).value)) ==>
              r == JStr(FallbackError)
    ensures response.None? ==> r == JStr(FallbackError)
  {
    OrElse(ServerErrorField(response), JStr(FallbackError))
  }

  /** The state after the `await` settles, starting from the state `Submit`
      left behind. */
  function Complete(mode: string, s: State, o: Outcome): (r: State)
    ensures !r.loading
    ensures r.files == s.files && r.role == s.role
    ensures o.Success? ==> r.error == s.error
    ensures o.Success? && mode == CompanyMode ==>
              r.batchResult == DataOrEmpty(AxiosData(o.body)) && r.result == s.result
    ensures o.Success? && mode != CompanyMode ==>
              r.result == DataOrEmpty(AxiosData(o.body)) && r.batchResult == s.batchResult
    ensures !o.Success? ==>
              r.error == ErrorMessage(Axios(o).response)
              && r.result == s.result && r.batchResult == s.batchResult
  {
    var s1 :=
      match Axios(o)
      case Resolved(data) =>
        if mode == CompanyMode then s.(batchResult := DataOrEmpty(data))
        else s.(result := DataOrEmpty(data))
      case Thrown(response) => s.(error := ErrorMessage(response));
    s1.(loading := false)
  }

  /** `handleUpload` as one atomic step, given the outcome the request would
      have. */
  function Upload(mode: string, s: State, o: Outcome): (r: State)
    ensures Submit(mode, s).Rejected? ==> r == Submit(mode, s).state
    ensures Submit(mode, s).Sent? ==> r == Complete(mode, Submit(mode, s).state, o)
  {
    match Submit(mode, s)
    case Rejected(s1) => s1
    case Sent(s1, _) => Complete(mode, s1, o)
  }

  // ----- properties of handleUpload -----

  /** A role made only of whitespace is rejected like an empty one, with
      the fixed warning, and `loading` keeps its value. */
  lemma BlankRoleRejected(mode: string, s: State)
    requires IsBlank(s.role)
    ensures Submit(mode, s).Rejected?
    ensures Submit(mode, s).state.error == JStr(MissingInputWarning)
    ensures Submit(mode, s).state.loading == s.loading
  {
    TrimEmptyIffBlank(s.role);
  }

  /** Files and a role with a non-whitespace character get through, and the
      request goes out with `loading` set and `error` cleared. */
  lemma ReadyInputSent(mode: string, s: State)
    requires |s.files| > 0 && !IsBlank(s.role)
    ensures Submit(mode, s).Sent?
    ensures Submit(mode, s).state.loading && Submit(mode, s).state.error == JNull
  {
    TrimEmptyIffBlank(s.role);
  }

  /** Company mode: one `files` part per selected file, in order, then the
      untrimmed role and the mode, posted to `compare-batch`. */
  lemma CompanyPayload(s: State)
    requires Submit(CompanyMode, s).Sent?
    ensures var q := Submit(CompanyMode, s).request;
      && q.endpoint == CompareBatchPath
      && Keys(q.payload) == Repeat("files", |s.files|) + ["role", "mode"]
      && FilesUnder(q.payload, "files") == s.files
      && FilesUnder(q.payload, "file") == []
      && TextsUnder(q.payload, "role") == [s.role]
      && TextsUnder(q.payload, "mode") == [CompanyMode]
  {
    var p := Submit(CompanyMode, s).request.payload;
    var a := FileFields("files", s.files);
    var t := [TextField("role", s.role), TextField("mode", CompanyMode)];
    assert p == a + t;
    FileFieldsRoundTrip("files", s.files);
    TextPairReadBack("role", s.role, "mode", CompanyMode);
    ReadBackAppend(a, t);
  }

  /** Any other mode: a single `file` part holding the first selected file,
      then the untrimmed role and the mode, posted to `analyze`. */
  lemma SingleFilePayload(mode: string, s: State)
    requires mode != CompanyMode && Submit(mode, s).Sent?
    ensures var q := Submit(mode, s).request;
      && q.endpoint == AnalyzePath
      && Keys(q.payload) == ["file", "role", "mode"]
      && FilesUnder(q.payload, "file") == [s.files[0]]
      && FilesUnder(q.payload, "files") == []
      && TextsUnder(q.payload, "role") == [s.role]
      && TextsUnder(q.payload, "mode") == [mode]
  {
    var p := Submit(mode, s).request.payload;
    var a := [Field("file", FilePart(s.files[0]))];
    var t := [TextField("role", s.role), TextField("mode", mode)];
    assert p == a + t;
    FileFieldReadBack("file", s.files[0]);
    TextPairReadBack("role", s.role, "mode", mode);
    ReadBackAppend(a, t);
  }

  /** After a submission that was sent, `loading` is false again whatever
      the outcome, and a failure always leaves a visible (truthy) error. */
  lemma UploadSettles(mode: string, s: State, o: Outcome)
    requires !MissingInput(s)
    ensures !Upload(mode, s, o).loading
    ensures o.Success? ==> Upload(mode, s, o).error == JNull
    ensures !o.Success? ==> Truthy(Upload(mode, s, o).error)
  {
  }

  /** A server reply whose body is an object with a truthy `error` property
      shows that property as received, whatever its JSON type; the fixed
      fallback text appears only when there is no such property. */
  lemma ServerErrorShown(mode: string, s: State, m: map<string, Json>)
    requires !MissingInput(s)
    requires "error" in m && Truthy(m["error"])
    ensures Upload(mode, s, ServerError(JsonBody(JObj(m)))).error == m["error"]
  {
  }

  /** Without a response (a network failure), or with a body that is not an
      object carrying a truthy `error`, the fallback text is shown. */
  lemma FallbackErrorShown(mode: string, s: State, o: Outcome)
    requires !MissingInput(s) && !o.Success?
    requires o.NetworkError? || !AxiosData(o.body).JObj?
             || "error" !in AxiosData(o.body).fields || !Truthy(AxiosData(o.body).fields["error"])
    ensures Upload(mode, s, o).error == JStr(FallbackError)
  {
  }

  // ----- sessions of user events -----

  /** What the user can do on the page. `ClickUpload` carries the outcome
      the request would have if one is sent. */
  datatype Event =
    | ChooseFiles(files: seq<File>)
    | TypeRole(role: string)
    | ClickUpload(outcome: Outcome)

  function Apply(mode: string, s: State, e: Event): State {
    match e
    case ChooseFiles(fs) => s.(files := fs)
    case TypeRole(r) => s.(role := r)
    case ClickUpload(o) => Upload(mode, s, o)
  }

  function Run(mode: string, s: State, evs: seq<Event>): State
    decreases |evs|
  {
    if evs == [] then s else Run(mode, Apply(mode, s, evs[0]), evs[1..])
  }

  /** Each upload runs to completion, so no session ends with `loading`
      stuck on. */
  lemma {:induction false} NeverLeftLoading(mode: string, s: State, evs: seq<Event>)
    requires !s.loading
    ensures !Run(mode, s, evs).loading
    decreases |evs|
  {
    if evs != [] {
      NeverLeftLoading(mode, Apply(mode, s, evs[0]), evs[1..]);
    }
  }

  /** Routing by mode: a company-mode component never writes `result`, and
      any other mode never writes `batchResult`. */
  lemma {:induction false} ResultRouting(mode: string, s: State, evs: seq<Event>)
    ensures mode == CompanyMode ==> Run(mode, s, evs).result == s.result
    ensures mode != CompanyMode ==> Run(mode, s, evs).batchResult == s.batchResult
    decreases |evs|
  {
    if evs != [] {
      ResultRouting(mode, Apply(mode, s, evs[0]), evs[1..]);
    }
  }

  /** A session of the page as it first renders: never left loading, and
      the result the mode does not use stays `{}`. */
  lemma FreshSession(mode: string, evs: seq<Event>)
    ensures !Run(mode, Initial, evs).loading
    ensures mode == CompanyMode ==> Run(mode, Initial, evs).result == EmptyObject
    ensures mode != CompanyMode ==> Run(mode, Initial, evs).batchResult == EmptyObject
  {
    NeverLeftLoading(mode, Initial, evs);
    ResultRouting(mode, Initial, evs);
  }
}
