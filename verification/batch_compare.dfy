/** `BatchCompare` (src/BatchCompare.js): `handleUpload`, which checks the
    files and the trimmed role, POSTs every file plus the role with axios
    and stores the reply in `results`. Alerts are returned as values. */
module BatchCompare {
  import opened Optional
  import opened JsString
  import opened Multipart
  import opened Transport

  /** The component's state hooks. `results` starts as `[]`. */
  datatype State = State(
    files: seq<File>,
    role: string,
    results: Json,
    loading: bool)

  const Initial: State := State([], "", JArr([]), false)

  const BatchAnalyzePath: string := "/api/batchAnalyze"
  const MissingInputAlert: string := "Please upload resumes and enter a job role."
  const FailureAlert: string := "Failed to analyze batch resumes. Please try again."

  /** `files.length === 0 || role.trim() === ''`. */
  predicate MissingInput(s: State) {
    |s.files| == 0 || Trim(s.role) == ""
  }

  /** One `files` part per file, then the role as typed; there is no
      `mode` field. */
  function BuildPayload(s: State): Payload {
    FileFields("files", s.files) + [TextField("role", s.role)]
  }

  /** The synchronous part of `handleUpload`, up to the `await`: the alert
      and an untouched state, or the request with `loading` set. */
  datatype Submission = Rejected(alert: string) | Sent(state: State, request: Request)

  function Submit(s: State): (r: Submission)
    ensures r.Rejected? <==> MissingInput(s)
    ensures r.Rejected? ==> r.alert == MissingInputAlert
    ensures r.Sent? ==> r.state == s.(loading := true)
    ensures r.Sent? ==> r.request.endpoint == BatchAnalyzePath
  {
    if MissingInput(s) then Rejected(MissingInputAlert)
    else Sent(s.(loading := true), Request(BatchAnalyzePath, BuildPayload(s)))
  }

  /** The state after a handler, and the alert it raised, if any. */
  datatype Step = Step(state: State, alert: Option<string>)

  /** The `try`/`catch`/`finally` after the `await`: a 2xx reply replaces
      `results` with the body exactly as received; any failure raises the
      fixed alert and keeps `results`; `loading` ends false either way. */
  function Complete(s: State, o: Outcome): (r: Step)
    ensures !r.state.loading
    ensures r.state.files == s.files && r.state.role == s.role
    ensures o.Success? ==> r.state.results == AxiosData(o.body) && r.alert.None?
    ensures !o.Success? ==> r.state.results == s.results && r.alert == Some(FailureAlert)
  {
    match Axios(o)
    case Resolved(data) => Step(s.(results := data, loading := false), None)
    case Thrown(_) => Step(s.(loading := false), Some(FailureAlert))
  }

  /** `handleUpload` as one atomic step, given the outcome the request would
      have. */
  function Upload(s: State, o: Outcome): (r: Step)
    ensures Submit(s).Rejected? ==> r == Step(s, Some(Submit(s).alert))
    ensures Submit(s).Sent? ==> r == Complete(Submit(s).state, o)
  {
    match Submit(s)
    case Rejected(alert) => Step(s, Some(alert))
    case Sent(s1, _) => Complete(s1, o)
  }

  // ----- properties of handleUpload -----

  /** A blank role is rejected before anything is built, and `loading`
      is left as it was. */
  lemma BlankRoleRejected(s: State, o: Outcome)
    requires IsBlank(s.role)
    ensures Submit(s) == Rejected(MissingInputAlert)
    ensures Upload(s, o) == Step(s, Some(MissingInputAlert))
  {
    TrimEmptyIffBlank(s.role);
  }

  /** The form is one `files` part per file in selection order, then the
      role exactly as typed, and never a `mode` field. */
  lemma PayloadShape(s: State)
    requires Submit(s).Sent?
    ensures var p := Submit(s).request.payload;
      && Keys(p) == Repeat("files", |s.files|) + ["role"]
      && FilesUnder(p, "files") == s.files
      && TextsUnder(p, "role") == [s.role]
      && TextsUnder(p, "mode") == []
      && p[|p| - 1] == TextField("role", s.role)
  {
    var p := Submit(s).request.payload;
    var a := FileFields("files", s.files);
    var t := [TextField("role", s.role)];
    assert p == a + t;
    FileFieldsRoundTrip("files", s.files);
    TextFieldReadBack("role", s.role);
    ReadBackAppend(a, t);
  }

  /** A failure's alert never reflects what the server said: every failing
      outcome leads to the same state and the same alert. */
  lemma FailureIgnoresServerDetail(s: State, o1: Outcome, o2: Outcome)
    requires !o1.Success? && !o2.Success?
    ensures Upload(s, o1) == Upload(s, o2)
  {
  }

  // ----- sessions of user events -----

  datatype Event =
    | ChooseFiles(files: seq<File>)
    | TypeRole(role: string)
    | ClickAnalyze(outcome: Outcome)

  function Apply(s: State, e: Event): State {
    match e
    case ChooseFiles(fs) => s.(files := fs)
    case TypeRole(r) => s.(role := r)
    case ClickAnalyze(o) => Upload(s, o).state
  }

  function Run(s: State, evs: seq<Event>): State
    decreases |evs|
  {
    if evs == [] then s else Run(Apply(s, evs[0]), evs[1..])
  }

  /** Each upload runs to completion, so no session ends with `loading`
      stuck on. */
  lemma {:induction false} NeverLeftLoading(s: State, evs: seq<Event>)
    requires !s.loading
    ensures !Run(s, evs).loading
    decreases |evs|
  {
    if evs != [] {
      NeverLeftLoading(Apply(s, evs[0]), evs[1..]);
    }
  }

  /** The data of the session's clicks that passed the check and got a 2xx
      reply, in order: the only values `handleUpload` stores. A rejected
      click sends nothing and contributes nothing. */
  function Replies(s: State, evs: seq<Event>): seq<Json>
    decreases |evs|
  {
    if evs == [] then []
    else
      var here :=
        if evs[0].ClickAnalyze? && !MissingInput(s) && evs[0].outcome.Success?
        then [AxiosData(evs[0].outcome.body)] else [];
      here + Replies(Apply(s, evs[0]), evs[1..])
  }

  /** One event changes `results` only when it is a click that passes the
      check and gets a 2xx reply, and then to that reply's data. */
  lemma StoredReply(s: State, e: Event)
    ensures e.ClickAnalyze? && !MissingInput(s) && e.outcome.Success? ==>
              Apply(s, e).results == AxiosData(e.outcome.body)
    ensures !(e.ClickAnalyze? && !MissingInput(s) && e.outcome.Success?) ==>
              Apply(s, e).results == s.results
  {
  }

  /** `results` is stored as received and the last reply wins: after any
      session it is the initial value when no sent request succeeded, and
      otherwise the data of the last one that did. */
  lemma {:induction false} ResultsProvenance(s: State, evs: seq<Event>)
    ensures var rs := Replies(s, evs);
      Run(s, evs).results == if rs == [] then s.results else rs[|rs| - 1]
    decreases |evs|
  {
    if evs != [] {
      var s1 := Apply(s, evs[0]);
      ResultsProvenance(s1, evs[1..]);
      StoredReply(s, evs[0]);
      if !(evs[0].ClickAnalyze? && !MissingInput(s) && evs[0].outcome.Success?) {
        assert Replies(s, evs) == Replies(s1, evs[1..]);
      }
    }
  }

  /** A session of the page as it first renders: never left loading, and
      `results` still `[]` until a sent request succeeds, then the data of
      the last success. */
  lemma FreshSession(evs: seq<Event>)
    ensures !Run(Initial, evs).loading
    ensures Replies(Initial, evs) == [] ==> Run(Initial, evs).results == JArr([])
    ensures Replies(Initial, evs) != [] ==>
              Run(Initial, evs).results == Replies(Initial, evs)[|Replies(Initial, evs)| - 1]
  {
    NeverLeftLoading(Initial, evs);
    ResultsProvenance(Initial, evs);
  }
}
