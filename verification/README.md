# Resume analyzer upload handlers — a Dafny model

This project models the request side of the ResumeHelp AI front end. It covers
the four React handlers that take a user's selected résumé files and target
role, check them, build a `multipart/form-data` form and POST it to the
analysis backend:

- `uploadFile` in `src/App.js`, with the candidate/company mode toggle;
- `handleUpload` in `src/ResumeAnalyzer.js`;
- `handleUpload` in `src/BatchCompare.js`;
- `handleSubmit` in `src/ResumeAnylzer.js` (the file name has the source's spelling).

Each handler is one module, and the four are kept separate because they really
differ. They trim the role or not. They require a job-description file or not.
They send a `mode` field or not, and they post to different endpoints. Each
handler is split into three parts:

- `Submit` covers the synchronous part up to the `await`. It validates the input
  and either rejects or produces the state update and one `Request`.
- `Complete` is the state update once the request settles.
- `Upload` composes the two into one atomic step.

The network is a parameter. An `Outcome` is one of `Success(body)` (a 2xx
reply), `ServerError(body)` (any other status) or `NetworkError` (no reply). A
body is JSON or unparseable text. `Transport` states how `axios` and `fetch` turn
an outcome into a resolved value or a thrown error. A form is an ordered
`seq<Field>` of key/part pairs. `Multipart` reads it back through `Keys`,
`FilesUnder` and `TextsUnder`, and the payload lemmas are round trips through
those readers. Each module also has an `Event` type and a `Run` function over a
sequence of user events, and its session lemmas are proved by induction over
that sequence.

Modules: `Optional` (null/undefined), `JsString` (JavaScript `trim`), `Multipart`
(the form), `Transport` (JSON values, outcomes, axios/fetch semantics), `App`,
`ResumeAnalyzer`, `BatchCompare`, `ResumeAnylzer`.

Facts about the code that the model keeps:

- No handler checks file types or limits how many files are sent.
- Only `ResumeAnalyzer.js` and `BatchCompare.js` trim the role.
- No response normaliser exists. Every body is stored exactly as received, or as
  `{}` when it is falsy in `ResumeAnalyzer.js`.
- The mode toggle in `App.js` flips the mode only. It clears no files, role or
  result.
- A reply that settles after a newer click still overwrites the state. Nothing discards stale replies.
- `App.js` uses `fetch`, which does not reject on an HTTP error status. A non-2xx
  reply with a JSON body is therefore stored as `result`. Only a network failure
  or a non-JSON body reaches the `catch`.

## Model

| member | source | states |
|---|---|---|
| `JsString.TrimStart` | src/BatchCompare.js:14 | drops exactly the leading whitespace of the role: the result is a suffix, everything dropped is whitespace, and the result does not start with whitespace |
| `JsString.TrimEnd` | src/BatchCompare.js:14 | drops exactly the trailing whitespace: the result is a prefix, everything dropped is whitespace, and the result does not end with whitespace |
| `JsString.Trim` | src/ResumeAnalyzer.js:91 | `role.trim()` is never longer than the role, and what it returns is empty or starts and ends with a character that is not JavaScript whitespace |
| `JsString.TrimEmptyIffBlank` | src/ResumeAnalyzer.js:91 | `role.trim()` is empty if and only if the role is made only of whitespace or line terminators |
| `JsString.TrimIsSlice` | src/BatchCompare.js:14 | trimming returns a contiguous slice of the input and never changes the inner text |
| `Multipart.FileFields` | src/BatchCompare.js:20 | the `forEach` append adds one part per file, position by position, each under the same key |
| `Multipart.FileFieldsRoundTrip` | src/App.js:24 | reading back the `forEach` append gives the selected files in order under their key, nothing under any other key and no string parts |
| `Multipart.ReadBackAppend` | src/App.js:20-28 | appending fields one after another keeps each reader's results in append order |
| `App.Validate` | src/App.js:11-18 | rejects with the files/role alert exactly when no file is selected or the role is `""`, and with the job-description alert exactly when those pass in company mode without a JD file; passing guarantees the inputs the form needs |
| `App.Submit` | src/App.js:10-31 | a request is built exactly when validation passes, and it always goes to `/api/analyze-file` |
| `App.Complete` | src/App.js:30-39 | a reply whose body parses as JSON becomes `result` with no alert; a network failure or non-JSON body raises "error uploading file" and changes nothing; mode, role, files and JD file are never touched |
| `App.Upload` | src/App.js:10-40 | after `uploadFile`, `result` is either unchanged or the parsed body, and mode, role and files are untouched; a rejection returns the state unchanged with its alert, and a submission that passes validation ends exactly as `Complete` says for the outcome |
| `App.Toggle` | src/App.js:45 | the toggle changes the mode and leaves role, files, JD file and result unchanged |
| `App.ToggleTwice` | src/App.js:45 | toggling twice restores the state |
| `App.RejectionIgnoresNetwork` | src/App.js:11-18 | a rejected submission builds no request, and its effect does not depend on any network outcome |
| `App.WhitespaceRoleAccepted` | src/App.js:11 | any non-empty role made only of whitespace is sent as typed, with files present and a JD file in company mode, because there is no trim |
| `App.FirstGuardWins` | src/App.js:11-18 | with no files or an empty role the files/role alert is raised even when the JD file is also missing |
| `App.CandidateFormReadBack` | src/App.js:20-28 | reading the candidate form back gives exactly the keys `file`, `role`, `mode`, the one file under `file`, nothing under `files` or `jd_file`, and the role and `"candidate"` |
| `App.CandidatePayload` | src/App.js:20-28 | the candidate form has keys `file`, `role`, `mode` only; the single file part is `files[0]`, further files are dropped, and the role and `"candidate"` are sent as given |
| `App.CompanyPayload` | src/App.js:20-28 | the company form has one `files` part per resume in selection order, then exactly one `jd_file` part holding the JD, then `role` and `"company"` |
| `App.RoleAndModeLast` | src/App.js:27-28 | in both modes the last two fields are `role` (as typed) and then `mode`, and every earlier field is a file part |
| `App.EndpointModeIndependent` | src/App.js:31 | both modes post to the same endpoint |
| `App.ModeParity` | src/App.js:45 | over any session the final mode is the initial mode flipped once per toggle; uploads and edits never change it |
| `App.StoredReply` | src/App.js:10-40 | one event changes `result` exactly when it is a click that passes both alerts and gets a JSON reply, and then to that body unaltered; a rejected click changes nothing |
| `App.ResultProvenance` | src/App.js:10-40 | over any session `result` is the starting value if no sent request got a JSON reply, and otherwise the body of the last one that did, unaltered; rejected clicks count for nothing |
| `App.FreshSession` | src/App.js:4-8 | from the page's first render the mode is candidate flipped once per toggle, and `result` stays `null` until a sent request gets a JSON reply, then is the last such body |
| `Transport.Axios` | src/ResumeAnalyzer.js:113-129 | `await axios.post` resolves exactly on a 2xx reply, with the parsed body or the raw text as `data`; otherwise it throws, and the error carries a `response` exactly when a reply arrived |
| `Transport.ServerErrorField` | src/ResumeAnalyzer.js:128 | `error.response?.data?.error` is defined exactly when a reply arrived whose body is an object with an `error` property, and then it is that property's value |
| `Transport.FetchJson` | src/App.js:31-35 | `fetch` then `res.json()` yields a value exactly when some response arrived and its body is JSON, whatever the status |
| `ResumeAnalyzer.Endpoint` | src/ResumeAnalyzer.js:112 | the endpoint is `compare-batch` if and only if the mode is `"company"`, and `analyze` for every other mode |
| `ResumeAnalyzer.Submit` | src/ResumeAnalyzer.js:90-113 | rejects exactly when there are no files or the trimmed role is empty, setting only the fixed warning; otherwise sets `loading`, clears `error` and posts to the mode's endpoint |
| `ResumeAnalyzer.DataOrEmpty` | src/ResumeAnalyzer.js:123-125 | the stored body is always truthy: a truthy body is kept as received and a falsy one becomes `{}` |
| `ResumeAnalyzer.ErrorMessage` | src/ResumeAnalyzer.js:128 | the error shown is always truthy: the server's `error` field, whatever its JSON type, if and only if it is present and truthy; otherwise the generic fallback, which is always used when no reply arrived |
| `ResumeAnalyzer.Complete` | src/ResumeAnalyzer.js:119-131 | on success company mode writes only `batchResult` and other modes write only `result`; on failure only `error` changes; `loading` ends false |
| `ResumeAnalyzer.Upload` | src/ResumeAnalyzer.js:90-132 | a rejected upload leaves exactly the warning state, and a sent one ends exactly as `Complete` says for the outcome, starting from `loading` set and `error` cleared |
| `ResumeAnalyzer.ServerErrorShown` | src/ResumeAnalyzer.js:127-128 | a non-2xx reply whose body is an object with a truthy `error` property shows that property as received |
| `ResumeAnalyzer.FallbackErrorShown` | src/ResumeAnalyzer.js:127-128 | a network failure, or a failing reply without a truthy `error` property, shows the fixed fallback text |
| `ResumeAnalyzer.BlankRoleRejected` | src/ResumeAnalyzer.js:91-94 | a whitespace-only role is rejected with the fixed warning and `loading` keeps its value |
| `ResumeAnalyzer.ReadyInputSent` | src/ResumeAnalyzer.js:91-97 | with files and a role containing a non-whitespace character, the request is sent with `loading` true and `error` null |
| `ResumeAnalyzer.CompanyPayload` | src/ResumeAnalyzer.js:100-112 | company mode sends one `files` part per file in order, then the untrimmed role and the mode, to `compare-batch` |
| `ResumeAnalyzer.SingleFilePayload` | src/ResumeAnalyzer.js:100-112 | any other mode sends a single `file` part holding `files[0]`, then the untrimmed role and the mode, to `analyze` |
| `ResumeAnalyzer.UploadSettles` | src/ResumeAnalyzer.js:96-131 | after a sent upload `loading` is false; success leaves `error` null and failure always leaves a visible error |
| `ResumeAnalyzer.NeverLeftLoading` | src/ResumeAnalyzer.js:131 | no session of edits and uploads ends with `loading` stuck on |
| `ResumeAnalyzer.FreshSession` | src/ResumeAnalyzer.js:70-75 | from the first render `loading` is false after any session, and the result the mode does not use stays `{}` |
| `ResumeAnalyzer.ResultRouting` | src/ResumeAnalyzer.js:122-126 | over any session a company-mode component never changes `result`, and any other mode never changes `batchResult` |
| `BatchCompare.Submit` | src/BatchCompare.js:13-26 | rejects with the fixed alert exactly when there are no files or the trimmed role is empty, leaving the state untouched; otherwise sets `loading` and posts to `/api/batchAnalyze` |
| `BatchCompare.Complete` | src/BatchCompare.js:25-35 | success replaces `results` with the response data as received; failure keeps `results` and raises the fixed alert; `loading` ends false |
| `BatchCompare.Upload` | src/BatchCompare.js:13-36 | a rejection returns the state untouched with the alert, and a sent upload ends exactly as `Complete` says for the outcome, starting from `loading` set |
| `BatchCompare.BlankRoleRejected` | src/BatchCompare.js:14-17 | a whitespace-only role is rejected before any form is built, and the state, `loading` included, is unchanged |
| `BatchCompare.PayloadShape` | src/BatchCompare.js:19-21 | the form is one `files` part per file in selection order followed by the untrimmed role, and has no `mode` field |
| `BatchCompare.FailureIgnoresServerDetail` | src/BatchCompare.js:30-32 | every failing outcome leads to the same state and the same alert |
| `BatchCompare.NeverLeftLoading` | src/BatchCompare.js:33-35 | no session ends with `loading` stuck on |
| `BatchCompare.StoredReply` | src/BatchCompare.js:13-32 | one event changes `results` exactly when it is a click that passes the check and gets a 2xx reply, and then to that reply's data unaltered |
| `BatchCompare.ResultsProvenance` | src/BatchCompare.js:13-36 | over any session `results` is the starting value if no sent request succeeded, and otherwise the data of the last success, unaltered; rejected clicks count for nothing |
| `BatchCompare.FreshSession` | src/BatchCompare.js:5-8 | from the first render `loading` is false after any session, and `results` stays `[]` until a sent request succeeds, then is the last success's data |
| `ResumeAnylzer.Submit` | src/ResumeAnylzer.js:14-31 | rejects exactly when there is no file or the role is `""`, setting only the fixed message; otherwise sets `loading` and clears `error` and `result` before posting to `/api/analyze` |
| `ResumeAnylzer.Complete` | src/ResumeAnylzer.js:30-41 | success stores the response data as received; failure sets the one fixed message and keeps `result`; `loading` ends false |
| `ResumeAnylzer.Upload` | src/ResumeAnylzer.js:14-42 | a rejection leaves exactly the message state, and a sent submission ends exactly as `Complete` says for the outcome, starting from `loading` set and `error` and `result` cleared |
| `ResumeAnylzer.WhitespaceRoleAccepted` | src/ResumeAnylzer.js:16 | with a file selected, any non-empty role made only of whitespace is sent, because there is no trim |
| `ResumeAnylzer.RejectionKeepsState` | src/ResumeAnylzer.js:16-19 | a rejection sets the fixed message and changes neither `loading` nor `result` |
| `ResumeAnylzer.PayloadShape` | src/ResumeAnylzer.js:25-31 | whatever the mode, the form is exactly `file`, `role`, `mode` in that order, posted to `/api/analyze` |
| `ResumeAnylzer.FailureIgnoresServerDetail` | src/ResumeAnylzer.js:37-38 | every failing outcome ends in the same state, so no server detail is shown |
| `ResumeAnylzer.FailureClearsResult` | src/ResumeAnylzer.js:21-38 | a sent submission that fails leaves `result` cleared to `""` and shows the fixed message |
| `ResumeAnylzer.NeverLeftLoading` | src/ResumeAnylzer.js:39-41 | no session ends with `loading` stuck on |
| `ResumeAnylzer.StoredReply` | src/ResumeAnylzer.js:14-41 | one event changes `result` exactly when it is a submission that passes the check, and then to the 2xx reply's data or, on failure, the `""` it was cleared to |
| `ResumeAnylzer.ResultProvenance` | src/ResumeAnylzer.js:14-42 | over any session `result` is the starting value if nothing was sent, and otherwise what the last sent submission left: its 2xx data unaltered, or `""` |
| `ResumeAnylzer.FreshSession` | src/ResumeAnylzer.js:7-12 | from the first render `loading` is false after any session, and `result` is `""` until something is sent, then what the last sent submission left |

## Left out

- The HTTP calls (`axios.post`, `fetch`) are not modelled; their outcome is a parameter (`Transport.Outcome`). The byte-level multipart encoding done by the browser's `FormData` is also left out.
- Base URLs are configuration (a hard-coded host or `REACT_APP_API_BASE_URL`), so endpoints are modelled as paths only.
- Overlapping submissions are not modelled. Each submission is one atomic step. The source has no cancellation and only disables the button while `loading` is set.
- The difference between `FileList` and `Array` is not modelled, and files are a `seq`. The source stores a `FileList` in `ResumeAnalyzer.js` and then calls `forEach` on it in company mode. A browser `FileList` has no `forEach`, so that call would throw and end in the fallback error. The model assumes the call succeeds.
- Rendering is not modelled. That includes `ResultDisplay` in `ResumeAnalyzer.js`, the results list in `BatchCompare.js` and the JSX of the other components.
- `src/pages/Home.js` is not part of this model: it holds animation, floating-point parallax and speech synthesis.
- `src/pages/Login.js` is not part of this model: it is Google OAuth and JWT decoding in foreign libraries.
- `src/index.js` and `src/LandingPage.js` are routing only.
- JSON numbers are exact reals. NaN and floating-point rounding are not represented, and only `0` is a falsy number.
- `console.log` and `console.error` calls are not modelled. `alert` calls are returned as values (`Step.alert`).
