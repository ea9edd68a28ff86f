/** The single-file `ResumeAnalyzer` form of src/ResumeAnylzer.js (the file
    name carries the source's spelling): `handleSubmit` checks the file and
    the role, POSTs exactly `file`, `role` and `mode` with axios to the
    analyze endpoint and stores the reply. */
module ResumeAnylzer {
  import opened Optional
  import opened JsString
  import opened Multipart
  import opened Transport

  /** The component's state hooks. `mode` is whatever the select holds;
      `result` and `error` start as empty strings. */
  datatype State = State(
    file: Option<File>,
    role: string,
    mode: string,
    result: Json,
    loading: bool,
    error: string)

  const Initial: State := State(None, "", "candidate", JStr(""), false, "")

  const AnalyzePath: string := "/api/analyze"
  const MissingInputError: string := "Please select a file and specify a role."
  const FailureError: string := "Failed to analyze resume. Please try again."

  /** `!file || !role`: no trim, only the empty role is rejected. */
  predicate MissingInput(s: State) {
    s.file.None? || s.role == ""
  }

  /** The synchronous part of `handleSubmit`, up to the `await`. */
  datatype Submission = Rejected(state: State) | Sent(state: State, request: Request)

  function Submit(s: State): (r: Submission)
    ensures r.Rejected? <==> MissingInput(s)
    ensures r.Rejected? ==> r.state == s.(error := MissingInputError)
    ensures r.Sent? ==> r.state == s.(loading := true, error := "", result := JStr(""))
    ensures r.Sent? ==> r.request.endpoint == AnalyzePath
  {
    if MissingInput(s) then Rejected(s.(error := MissingInputError))
    else
      var payload := [Field("file", FilePart(s.file.value)), TextField("role", s.role), TextField("mode", s.mode)];
      Sent(s.(loading := true, error := "", result := JStr("")), Request(AnalyzePath, payload))
  }

  /** The `try`/`catch`/`finally` after the `await`: a 2xx reply becomes
      `result` as received; any failure sets the one fixed message; `loading`
      ends false either way. */
  function Complete(s: State, o: Outcome): (r: State)
    ensures !r.loading
    ensures r.file == s.file && r.role == s.role && r.mode == s.mode
    ensures o.Success? ==> r.result == AxiosData(o.body) && r.error == s.error
    ensures !o.Success? ==> r.result == s.result && r.error == FailureError
  {
    match Axios(o)
    case Resolved(data) => s.(result := data, loading := false)
    case Thrown(_) => s.(error := FailureError, loading := false)
  }

  /** `handleSubmit` as one atomic step, given the outcome the request would
      have. */
  function Upload(s: State, o: Outcome): (r: State)
    ensures Submit(s).Rejected? ==> r == Submit(s).state
    ensures Submit(s).Sent? ==> r == Complete(Submit(s).state, o)
  {
    match Submit(s)
    case Rejected(s1) => s1
    case Sent(s1, _) => Complete(s1, o)
  }

  // ----- properties of handleSubmit -----

  /** Without a trim, any non-empty role made only of whitespace is sent. */
  lemma WhitespaceRoleAccepted(s: State)
    requires s.file.Some? && IsBlank(s.role) && s.role != ""
    ensures Submit(s).Sent?
  {
  }

  /** A rejection sets the fixed message and touches neither `loading` nor
      `result`. */
  lemma RejectionKeepsState(s: State, o: Outcome)
    requires MissingInput(s)
    ensures Upload(s, o).loading == s.loading && Upload(s, o).result == s.result
    ensures Upload(s, o).error == MissingInputError
  {
  }

  /** Whatever the mode, the form is exactly `file`, `role`, `mode` in that
      order, and it goes to the analyze endpoint even in company mode. */
  lemma PayloadShape(s: State)
    requires Submit(s).Sent?
    ensures var q := Submit(s).request;
      && q.endpoint == AnalyzePath
      && Keys(q.payload) == ["file", "role", "mode"]
      && FilesUnder(q.payload, "file") == [s.file.value]
      && TextsUnder(q.payload, "role") == [s.role]
      && TextsUnder(q.payload, "mode") == [s.mode]
  {
    var p := Submit(s).request.payload;
    var a := [Field("file", FilePart(s.file.value))];
    var t := [TextField("role", s.role), TextField("mode", s.mode)];
    assert p == a + t;
    FileFieldReadBack("file", s.file.value);
    TextPairReadBack("role", s.role, "mode", s.mode);
    ReadBackAppend(a, t);
  }

  /** The failure message ignores any server detail: every failing outcome
      of a sent submission ends in the same state. */
  lemma FailureIgnoresServerDetail(s: State, o1: Outcome, o2: Outcome)
    requires !o1.Success? && !o2.Success?
    ensures Upload(s, o1) == Upload(s, o2)
  {
  }

  /** A failed submission leaves `result` cleared rather than showing the
      previous reply. */
  lemma FailureClearsResult(s: State, o: Outcome)
    requires !MissingInput(s) && !o.Success?
    ensures Upload(s, o).result == JStr("")
    ensures Upload(s, o).error == FailureError
  {
  }

  // ----- sessions of user events -----

  datatype Event =
    | PickFile(file: Option<File>)
    | TypeRole(role: string)
    | SelectMode(mode: string)
    | ClickAnalyze(outcome: Outcome)

  function Apply(s: State, e: Event): State {
    match e
    case PickFile(f) => s.(file := f)
    case TypeRole(r) => s.(role := r)
    case SelectMode(m) => s.(mode := m)
    case ClickAnalyze(o) => Upload(s, o)
  }

  function Run(s: State, evs: seq<Event>): State
    decreases |evs|
  {
    if evs == [] then s else Run(Apply(s, evs[0]), evs[1..])
  }

  /** Each submission runs to completion, so no session ends with
      `loading` stuck on. */
  lemma {:induction false} NeverLeftLoading(s: State, evs: seq<Event>)
    requires !s.loading
    ensures !Run(s, evs).loading
    decreases |evs|
  {
    if evs != [] {
      NeverLeftLoading(Apply(s, evs[0]), evs[1..]);
    }
  }

  /** What a sent submission leaves in `result`: the data of a 2xx reply,
      or the `""` it was cleared to when the request failed. */
  function Stored(o: Outcome): Json {
    if o.Success? then AxiosData(o.body) else JStr("")
  }

  /** What each of the session's clicks that passed the check left in
      `result`, in order. A rejected click sends nothing and contributes
      nothing. */
  function Replies(s: State, evs: seq<Event>): seq<Json>
    decreases |evs|
  {
    if evs == [] then []
    else
      var here := if evs[0].ClickAnalyze? && !MissingInput(s) then [Stored(evs[0].outcome)] else [];
      here + Replies(Apply(s, evs[0]), evs[1..])
  }

  /** One event changes `result` only when it is a click that passes the
      check, and then to what that submission stores. */
  lemma StoredReply(s: State, e: Event)
    ensures e.ClickAnalyze? && !MissingInput(s) ==> Apply(s, e).result == Stored(e.outcome)
    ensures !(e.ClickAnalyze? && !MissingInput(s)) ==> Apply(s, e).result == s.result
  {
  }

  /** `result` is stored as received and the last submission wins: after
      any session it is the initial value when nothing was sent, and
      otherwise what the last sent submission stored, the data of its 2xx
      reply or `""`. */
  lemma {:induction false} ResultProvenance(s: State, evs: seq<Event>)
    ensures var rs := Replies(s, evs);
      Run(s, evs).result == if rs == [] then s.result else rs[|rs| - 1]
    decreases |evs|
  {
    if evs != [] {
      var s1 := Apply(s, evs[0]);
      ResultProvenance(s1, evs[1..]);
      StoredReply(s, evs[0]);
      if !(evs[0].ClickAnalyze? && !MissingInput(s)) {
        assert Replies(s, evs) == Replies(s1, evs[1..]);
      }
    }
  }

  /** A session of the form as it first renders: never left loading, and
      `result` is `""` until something is sent, then what the last sent
      submission stored. */
  lemma FreshSession(evs: seq<Event>)
    ensures !Run(Initial, evs).loading
    ensures Replies(Initial, evs) == [] ==> Run(Initial, evs).result == JStr("")
    ensures Replies(Initial, evs) != [] ==>
              Run(Initial, evs).result == Replies(Initial, evs)[|Replies(Initial, evs)| - 1]
  {
    NeverLeftLoading(Initial, evs);
    ResultProvenance(Initial, evs);
  }
}
