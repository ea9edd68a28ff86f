/** `App` (src/App.js): the candidate/company toggle and `uploadFile`,
    which checks the inputs, builds the form, POSTs it with `fetch` and
    stores the parsed JSON reply. Alerts are returned as values. */
module App {
  import opened Optional
  import opened JsString
  import opened Multipart
  import opened Transport

  /** The only two values the `mode` state ever holds. */
  datatype Mode = Candidate | Company

  /** The string sent in the `mode` field. */
  function ModeName(m: Mode): (r: string)
    ensures m == Candidate <==> r == "candidate"
    ensures m == Company <==> r == "company"
  {
    match m
    case Candidate => "candidate"
    case Company => "company"
  }

  /** The toggle button: candidate becomes company and back. */
  function Flip(m: Mode): (r: Mode)
    ensures r != m
  {
    match m
    case Candidate => Company
    case Company => Candidate
  }

  /** The component's state hooks. `result` starts as `null`. */
  datatype State = State(
    mode: Mode,
    role: string,
    files: seq<File>,
    jdFile: Option<File>,
    result: Json)

  const Initial: State := State(Candidate, "", [], None, JNull)

  const AnalyzeFilePath: string := "/api/analyze-file"
  const MissingInputAlert: string := "please upload file(s) and enter role"
  const MissingJdAlert: string := "please upload job description file"
  const UploadErrorAlert: string := "error uploading file"

  /** The two guards of `uploadFile`, in order. The role is not trimmed:
      only the empty string is rejected. */
  function Validate(s: State): (alert: Option<string>)
    ensures alert == Some(MissingInputAlert) <==> |s.files| == 0 || s.role == ""
    ensures alert == Some(MissingJdAlert)
            <==> |s.files| > 0 && s.role != "" && s.mode == Company && s.jdFile.None?
    ensures alert.None? ==> |s.files| > 0 && (s.mode == Company ==> s.jdFile.Some?)
  {
    if |s.files| == 0 || s.role == "" then Some(MissingInputAlert)
    else if s.mode == Company && s.jdFile.None? then Some(MissingJdAlert)
    else None
  }

  /** The form built once validation has passed: the file part(s) for the
      mode, then `role`, then `mode`. */
  function BuildPayload(s: State): Payload
    requires |s.files| > 0
    requires s.mode == Company ==> s.jdFile.Some?
  {
    var fileFields :=
      match s.mode
      case Candidate => [Field("file", FilePart(s.files[0]))]
      case Company => FileFields("files", s.files) + [Field("jd_file", FilePart(s.jdFile.value))];
    fileFields + [TextField("role", s.role), TextField("mode", ModeName(s.mode))]
  }

  /** What pressing "analyze" produces before the network is involved: an
      alert, or exactly one request. */
  datatype Submission = Rejected(alert: string) | Sent(request: Request)

  function Submit(s: State): (r: Submission)
    ensures r.Rejected? <==> Validate(s).Some?
    ensures r.Rejected? ==> r.alert == Validate(s).value
    ensures r.Sent? ==> r.request.endpoint == AnalyzeFilePath
  {
    match Validate(s)
    case Some(alert) => Rejected(alert)
    case None => Sent(Request(AnalyzeFilePath, BuildPayload(s)))
  }

  /** The state after a handler, and the alert it raised, if any. */
  datatype Step = Step(state: State, alert: Option<string>)

  /** The `try`/`catch` around `fetch`: any reply whose body parses as JSON
      becomes `result` (fetch does not reject on an HTTP error status);
      a network failure or a non-JSON body raises the upload alert and
      leaves `result` as it was. */
  function Complete(s: State, o: Outcome): (r: Step)
    ensures r.state.mode == s.mode && r.state.role == s.role
    ensures r.state.files == s.files && r.state.jdFile == s.jdFile
    ensures FetchJson(o).Some? ==> r.state.result == FetchJson(o).value && r.alert.None?
    ensures FetchJson(o).None? ==> r.state == s && r.alert == Some(UploadErrorAlert)
  {
    match FetchJson(o)
    case Some(data) => Step(s.(result := data), None)
    case None => Step(s, Some(UploadErrorAlert))
  }

  /** `uploadFile` as one atomic step, given the outcome the request would
      have. */
  function Upload(s: State, o: Outcome): (r: Step)
    ensures r.state.mode == s.mode && r.state.role == s.role
    ensures r.state.files == s.files && r.state.jdFile == s.jdFile
    ensures r.state.result == s.result || Some(r.state.result) == FetchJson(o)
    ensures Validate(s).Some? ==> r == Step(s, Validate(s))
    ensures Validate(s).None? ==> r == Complete(s, o)
  {
    match Submit(s)
    case Rejected(alert) => Step(s, Some(alert))
    case Sent(_) => Complete(s, o)
  }

  /** The mode-toggle handler. */
  function Toggle(s: State): (r: State)
    ensures r.mode != s.mode
    ensures r.role == s.role && r.files == s.files
    ensures r.jdFile == s.jdFile && r.result == s.result
  {
    s.(mode := Flip(s.mode))
  }

  // ----- properties of uploadFile -----

  /** A rejected submission builds no request, and what happens then does
      not depend on what the network would have answered. */
  lemma RejectionIgnoresNetwork(s: State, o1: Outcome, o2: Outcome)
    requires Validate(s).Some?
    ensures Submit(s).Rejected?
    ensures Upload(s, o1) == Upload(s, o2)
    ensures Upload(s, o1).state == s
  {
  }

  /** Without a trim, any non-empty role made only of whitespace passes the
      role check. */
  lemma WhitespaceRoleAccepted(s: State)
    requires |s.files| > 0 && (s.mode == Company ==> s.jdFile.Some?)
    requires IsBlank(s.role) && s.role != ""
    ensures Submit(s).Sent?
    ensures Submit(s).request.payload[|Submit(s).request.payload| - 2] == TextField("role", s.role)
  {
  }

  /** The job-description check runs only after the files/role check has
      passed: with no files or no role the first alert wins even when the
      job description is also missing. */
  lemma FirstGuardWins(s: State)
    requires |s.files| == 0 || s.role == ""
    ensures Submit(s) == Rejected(MissingInputAlert)
  {
  }

  /** The candidate form for a first resume and a role. */
  function CandidateForm(f: File, role: string): Payload {
    [Field("file", FilePart(f))] + [TextField("role", role), TextField("mode", "candidate")]
  }

  /** Reading the candidate form back gives the one file under `file`,
      nothing under the company keys, and the role and `"candidate"`. */
  lemma CandidateFormReadBack(f: File, role: string)
    ensures var p := CandidateForm(f, role);
      && Keys(p) == ["file", "role", "mode"]
      && FilesUnder(p, "file") == [f]
      && FilesUnder(p, "files") == [] && FilesUnder(p, "jd_file") == []
      && TextsUnder(p, "role") == [role]
      && TextsUnder(p, "mode") == ["candidate"]
  {
    var a := [Field("file", FilePart(f))];
    var t := [TextField("role", role), TextField("mode", "candidate")];
    FileFieldReadBack("file", f);
    TextPairReadBack("role", role, "mode", "candidate");
    ReadBackAppend(a, t);
  }

  /** Candidate payload: exactly `file`, `role`, `mode`; the one file part
      is the first selected file and any further files are dropped. */
  lemma CandidatePayload(s: State)
    requires Submit(s).Sent? && s.mode == Candidate
    ensures var p := Submit(s).request.payload;
      && Keys(p) == ["file", "role", "mode"]
      && FilesUnder(p, "file") == [s.files[0]]
      && FilesUnder(p, "files") == [] && FilesUnder(p, "jd_file") == []
      && TextsUnder(p, "role") == [s.role]
      && TextsUnder(p, "mode") == ["candidate"]
  {
    assert Submit(s).request.payload == CandidateForm(s.files[0], s.role);
    CandidateFormReadBack(s.files[0], s.role);
  }

  /** The fields the company form appends after the resumes. */
  function JdTail(jd: File, role: string): Payload {
    [Field("jd_file", FilePart(jd))] + [TextField("role", role), TextField("mode", "company")]
  }

  /** The company form for given resumes, JD file and role. */
  function CompanyForm(files: seq<File>, jd: File, role: string): Payload {
    FileFields("files", files) + JdTail(jd, role)
  }

  /** The tail reads back as the JD file, the role and the mode. */
  lemma JdTailReadBack(jd: File, role: string)
    ensures Keys(JdTail(jd, role)) == ["jd_file", "role", "mode"]
    ensures FilesUnder(JdTail(jd, role), "jd_file") == [jd]
    ensures forall k :: k != "jd_file" ==> FilesUnder(JdTail(jd, role), k) == []
    ensures TextsUnder(JdTail(jd, role), "role") == [role]
    ensures TextsUnder(JdTail(jd, role), "mode") == ["company"]
  {
    var j := [Field("jd_file", FilePart(jd))];
    var t := [TextField("role", role), TextField("mode", "company")];
    FileFieldReadBack("jd_file", jd);
    TextPairReadBack("role", role, "mode", "company");
    ReadBackAppend(j, t);
  }

  /** The three file keys of the form are distinct. */
  lemma FileKeysDistinct()
    ensures "files" != "jd_file" && "file" != "jd_file" && "file" != "files"
  {
    assert |"file"| == 4 && |"files"| == 5 && |"jd_file"| == 7;
  }

  /** The company form's keys: one `files` per resume, then `jd_file`,
      `role` and `mode`. */
  lemma CompanyFormKeys(files: seq<File>, jd: File, role: string)
    ensures Keys(CompanyForm(files, jd, role)) == Repeat("files", |files|) + ["jd_file", "role", "mode"]
  {
    var a := FileFields("files", files);
    var q := JdTail(jd, role);
    assert CompanyForm(files, jd, role) == a + q;
    FileFieldsRoundTrip("files", files);
    JdTailReadBack(jd, role);
    KeysAppend(a, q);
  }

  /** The company form's file parts read back as the resumes under `files`
      and the JD file under `jd_file`, with nothing under `file`. */
  lemma CompanyFormFiles(files: seq<File>, jd: File, role: string)
    ensures FilesUnder(CompanyForm(files, jd, role), "files") == files
    ensures FilesUnder(CompanyForm(files, jd, role), "jd_file") == [jd]
    ensures FilesUnder(CompanyForm(files, jd, role), "file") == []
  {
    var a := FileFields("files", files);
    var q := JdTail(jd, role);
    assert CompanyForm(files, jd, role) == a + q;
    FileKeysDistinct();
    JdTailReadBack(jd, role);
    assert FilesUnder(a + q, "files") == files by {
      FileFieldsRoundTrip("files", files);
      assert FilesUnder(q, "files") == [];
      FilesUnderAppend(a, q, "files");
    }
    assert FilesUnder(a + q, "jd_file") == [jd] by {
      FileFieldsOtherKey("files", files, "jd_file");
      FilesUnderAppend(a, q, "jd_file");
    }
    assert FilesUnder(a + q, "file") == [] by {
      FileFieldsOtherKey("files", files, "file");
      assert FilesUnder(q, "file") == [];
      FilesUnderAppend(a, q, "file");
    }
  }

  /** The company form's strings read back as the role and `"company"`. */
  lemma CompanyFormTexts(files: seq<File>, jd: File, role: string)
    ensures TextsUnder(CompanyForm(files, jd, role), "role") == [role]
    ensures TextsUnder(CompanyForm(files, jd, role), "mode") == ["company"]
  {
    var a := FileFields("files", files);
    var q := JdTail(jd, role);
    assert CompanyForm(files, jd, role) == a + q;
    FileFieldsRoundTrip("files", files);
    JdTailReadBack(jd, role);
    TextsUnderAppend(a, q, "role");
    TextsUnderAppend(a, q, "mode");
  }

  /** Company payload: one `files` part per resume in selection order, then
      exactly one `jd_file` part, then `role` and `mode`. */
  lemma CompanyPayload(s: State)
    requires Submit(s).Sent? && s.mode == Company
    ensures var p := Submit(s).request.payload;
      && Keys(p) == Repeat("files", |s.files|) + ["jd_file", "role", "mode"]
      && FilesUnder(p, "files") == s.files
      && FilesUnder(p, "jd_file") == [s.jdFile.value]
      && FilesUnder(p, "file") == []
      && TextsUnder(p, "role") == [s.role]
      && TextsUnder(p, "mode") == ["company"]
  {
    assert Submit(s).request.payload == CompanyForm(s.files, s.jdFile.value, s.role);
    CompanyFormKeys(s.files, s.jdFile.value, s.role);
    CompanyFormFiles(s.files, s.jdFile.value, s.role);
    CompanyFormTexts(s.files, s.jdFile.value, s.role);
  }

  /** In both modes `role` and then `mode` are the last two fields, sent as
      typed, and every field before them is a file part. */
  lemma RoleAndModeLast(s: State)
    requires Submit(s).Sent?
    ensures var p := Submit(s).request.payload;
      && |p| >= 3
      && p[|p| - 2] == TextField("role", s.role)
      && p[|p| - 1] == TextField("mode", ModeName(s.mode))
      && forall i :: 0 <= i < |p| - 2 ==> p[i].part.FilePart?
  {
  }

  /** Toggling the mode does not change where the form is posted. */
  lemma EndpointModeIndependent(s: State)
    requires Submit(s).Sent? && Submit(Toggle(s)).Sent?
    ensures Submit(s).request.endpoint == Submit(Toggle(s)).request.endpoint
  {
  }

  /** Toggling twice restores the mode and touches nothing else. */
  lemma ToggleTwice(s: State)
    ensures Toggle(Toggle(s)) == s
  {
  }

  // ----- sessions of user events -----

  /** What the user can do on the page. `ClickAnalyze` carries the outcome
      the request would have if one is sent. */
  datatype Event =
    | ToggleMode
    | TypeRole(role: string)
    | PickJd(jd: Option<File>)
    | PickResumes(files: seq<File>)
    | ClickAnalyze(outcome: Outcome)

  function Apply(s: State, e: Event): State {
    match e
    case ToggleMode => Toggle(s)
    case TypeRole(r) => s.(role := r)
    case PickJd(jd) => s.(jdFile := jd)
    case PickResumes(fs) => s.(files := fs)
    case ClickAnalyze(o) => Upload(s, o).state
  }

  function Run(s: State, evs: seq<Event>): State
    decreases |evs|
  {
    if evs == [] then s else Run(Apply(s, evs[0]), evs[1..])
  }

  /** How many toggles a session contains. */
  function Toggles(evs: seq<Event>): nat {
    if evs == [] then 0 else (if evs[0].ToggleMode? then 1 else 0) + Toggles(evs[1..])
  }

  /** The mode after a session is decided by the parity of the toggles in
      it alone; uploads and edits never change it. */
  lemma {:induction false} ModeParity(s: State, evs: seq<Event>)
    ensures Run(s, evs).mode == if Toggles(evs) % 2 == 0 then s.mode else Flip(s.mode)
    decreases |evs|
  {
    if evs != [] {
      ModeParity(Apply(s, evs[0]), evs[1..]);
    }
  }

  /** The parsed bodies of the session's clicks that passed validation and
      got a JSON reply, in order: the only values `uploadFile` stores. A
      rejected click sends nothing and contributes nothing. */
  function Replies(s: State, evs: seq<Event>): seq<Json>
    decreases |evs|
  {
    if evs == [] then []
    else
      var here :=
        if evs[0].ClickAnalyze? && Validate(s).None? && FetchJson(evs[0].outcome).Some?
        then [FetchJson(evs[0].outcome).value] else [];
      here + Replies(Apply(s, evs[0]), evs[1..])
  }

  /** One event changes `result` only when it is a click that passes
      validation and gets a JSON reply, and then to that reply. */
  lemma StoredReply(s: State, e: Event)
    ensures e.ClickAnalyze? && Validate(s).None? && FetchJson(e.outcome).Some? ==>
              Apply(s, e).result == FetchJson(e.outcome).value
    ensures !(e.ClickAnalyze? && Validate(s).None? && FetchJson(e.outcome).Some?) ==>
              Apply(s, e).result == s.result
  {
  }

  /** `result` is stored as received and the last reply wins: after any
      session it is the initial value when no sent request got a JSON
      reply, and otherwise the body of the last one that did. */
  lemma {:induction false} ResultProvenance(s: State, evs: seq<Event>)
    ensures var rs := Replies(s, evs);
      Run(s, evs).result == if rs == [] then s.result else rs[|rs| - 1]
    decreases |evs|
  {
    if evs != [] {
      var s1 := Apply(s, evs[0]);
      ResultProvenance(s1, evs[1..]);
      var rest := Replies(s1, evs[1..]);
      StoredReply(s, evs[0]);
      if !(evs[0].ClickAnalyze? && Validate(s).None? && FetchJson(evs[0].outcome).Some?) {
        assert Replies(s, evs) == rest;
      }
    }
  }

  /** A session of the page as it first renders: candidate mode flipped
      once per toggle, and `result` still `null` until a sent request gets
      a JSON reply, then the last such reply. */
  lemma FreshSession(evs: seq<Event>)
    ensures Run(Initial, evs).mode == if Toggles(evs) % 2 == 0 then Candidate else Company
    ensures Replies(Initial, evs) == [] ==> Run(Initial, evs).result == JNull
    ensures Replies(Initial, evs) != [] ==>
              Run(Initial, evs).result == Replies(Initial, evs)[|Replies(Initial, evs)| - 1]
  {
    ModeParity(Initial, evs);
    ResultProvenance(Initial, evs);
  }
}
