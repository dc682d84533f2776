/**
  The decisions lib/api/scanService.ts makes around its requests: the file name a
  downloaded report gets from the `Content-Disposition` header, the form fields
  `createScanTask` uploads, how `getClientIp` fills in each address, and the message of
  the error every wrapper throws on a failed response.
*/
module ScanService {
  import opened Wrappers
  import Text
  import Web

  // ---------------------------------------------------------------- report file name

  /** The name a report gets when the server does not name it: `analysis-result-${taskId}`. */
  function DefaultReportName(taskId: string): (name: string)
    ensures |name| == |"analysis-result-"| + |taskId|
    ensures name[..|"analysis-result-"|] == "analysis-result-" && name[|"analysis-result-"|..] == taskId
  {
    "analysis-result-" + taskId
  }

  /** The literal text the pattern `/filename=([^;]+)/` starts with. */
  const FilenameKey := "filename="

  /**
    The pattern matches at position `p`: `filename=` starts there and is followed by at
    least one character other than `;` (the capture `[^;]+` cannot be empty).
  */
  predicate MatchesAt(header: string, p: int) {
    0 <= p && p + |FilenameKey| < |header| && header[p..p + |FilenameKey|] == FilenameKey
    && header[p + |FilenameKey|] != ';'
  }

  /** The leftmost position at or after `from` where the pattern matches, as a regular expression search finds it. */
  function FirstMatch(header: string, from: nat): (r: Option<nat>)
    ensures r.Some? ==> from <= r.value && MatchesAt(header, r.value)
    ensures r.Some? ==> forall q :: from <= q < r.value ==> !MatchesAt(header, q)
    ensures r.None? ==> forall q :: from <= q ==> !MatchesAt(header, q)
    decreases |header| - from
  {
    if from + |FilenameKey| >= |header| then None
    else if MatchesAt(header, from) then Some(from)
    else FirstMatch(header, from + 1)
  }

  /** `contentDisposition.match(/filename=([^;]+)/)?.[1]`: the captured group of the leftmost match. */
  function FilenameCapture(header: string): (r: Option<string>)
    ensures r.Some? ==> r.value != [] && ';' !in r.value
    ensures r.Some? ==>
      FirstMatch(header, 0).Some? && r.value == Text.UpTo(header[FirstMatch(header, 0).value + |FilenameKey|..], ';')
    ensures r.None? <==> forall q :: 0 <= q ==> !MatchesAt(header, q)
  {
    match FirstMatch(header, 0)
    case None => None
    case Some(p) => Some(Text.UpTo(header[p + |FilenameKey|..], ';'))
  }

  /** The captured name cleaned as `downloadReport` cleans it: every `"` removed, then trimmed. */
  function CleanName(capture: string): string {
    Text.Trim(Text.RemoveAll(capture, '"'))
  }

  /** A cleaned name has no quote and no white space at either end. */
  lemma CleanNameProperties(capture: string)
    ensures '"' !in CleanName(capture)
    ensures CleanName(capture) != [] ==> !Text.IsJsWhiteSpace(CleanName(capture)[0])
    ensures CleanName(capture) != [] ==> !Text.IsJsWhiteSpace(CleanName(capture)[|CleanName(capture)| - 1])
  {
    var removed := Text.RemoveAll(capture, '"');
    var front := Text.TrimStart(removed);
    var both := Text.TrimEnd(front);
    assert both == CleanName(capture);
    forall k | 0 <= k < |both|
      ensures both[k] != '"'
    {
      assert both[k] == front[k] == removed[|removed| - |front| + k];
    }
    if both != [] {
      assert front[0] == both[0];
    }
  }

  /**
    The file name `downloadReport` gives the saved report, as written: the default name
    unless the header is present and the pattern matches, in which case the cleaned
    capture, even when cleaning leaves nothing.
  */
  function ReportFileNameAsWritten(taskId: string, contentDisposition: Option<string>): string {
    if !Text.Truthy(contentDisposition) then DefaultReportName(taskId)
    else match FilenameCapture(contentDisposition.value)
      case None => DefaultReportName(taskId)
      case Some(capture) => CleanName(capture)
  }

  /**
    As written, a header whose captured name holds only quotes and white space, such as
    `filename=""`, names the download with the empty string.
  */
  lemma {:induction false} ReportFileNameAsWrittenEmpty(taskId: string)
    ensures ReportFileNameAsWritten(taskId, Some("filename=\"\"")) == ""
  {
    var header := "filename=\"\"";
    assert MatchesAt(header, 0);
    assert FirstMatch(header, 0) == Some(0);
    assert header[|FilenameKey|..] == "\"\"";
    assert Text.UpTo("\"\"", ';') == "\"\"" by {
      assert Text.UpTo("\"", ';') == "\"" by {
        assert Text.UpTo("\"", ';')[1..] == [];
      }
    }
    assert Text.RemoveAll("\"\"", '"') == [];
  }

  /**
    The name `downloadReport` evidently means to give: the cleaned capture when it is not
    empty, the default name otherwise.
  */
  function ReportFileName(taskId: string, contentDisposition: Option<string>): (name: string)
    ensures name != ""
    ensures !Text.Truthy(contentDisposition) ==> name == DefaultReportName(taskId)
    ensures Text.Truthy(contentDisposition) && FilenameCapture(contentDisposition.value).None? ==> name == DefaultReportName(taskId)
  {
    var written := ReportFileNameAsWritten(taskId, contentDisposition);
    if written == "" then DefaultReportName(taskId) else written
  }

  /**
    When the server names the file, the name is the leftmost capture with its quotes and
    surrounding white space gone, unless that leaves nothing; in every other case the
    corrected name agrees with the code as written.
  */
  lemma ReportFileNameFromHeader(taskId: string, header: string)
    requires header != "" && FilenameCapture(header).Some?
    ensures var capture := FilenameCapture(header).value;
      && (CleanName(capture) != "" ==> ReportFileName(taskId, Some(header)) == CleanName(capture))
      && (CleanName(capture) == "" ==> ReportFileName(taskId, Some(header)) == DefaultReportName(taskId))
    ensures ReportFileNameAsWritten(taskId, Some(header)) != "" ==>
      ReportFileName(taskId, Some(header)) == ReportFileNameAsWritten(taskId, Some(header))
  {
  }

  /** A name taken from the header carries no quote and no surrounding white space. */
  lemma ReportFileNameClean(taskId: string, header: string)
    requires header != "" && FilenameCapture(header).Some?
    requires CleanName(FilenameCapture(header).value) != ""
    ensures var name := ReportFileName(taskId, Some(header));
      '"' !in name && !Text.IsJsWhiteSpace(name[0]) && !Text.IsJsWhiteSpace(name[|name| - 1])
  {
    var capture := FilenameCapture(header).value;
    ReportFileNameFromHeader(taskId, header);
    assert ReportFileName(taskId, Some(header)) == CleanName(capture);
    CleanNameProperties(capture);
  }

  // ---------------------------------------------------------------- createScanTask form

  /** A value appended to a `FormData`: a text field or an uploaded file. */
  datatype FormValue = TextValue(text: string) | FileValue(file: Web.File)

  /** One `formData.append(name, value)`. */
  datatype FormEntry = FormEntry(name: string, value: FormValue)

  /** The value under `name` in a form, the first one appended. */
  function FormGet(form: seq<FormEntry>, name: string): Option<FormValue> {
    if form == [] then None
    else if form[0].name == name then Some(form[0].value)
    else FormGet(form[1..], name)
  }

  /** The form `createScanTask` uploads: `memberName`, then `file`, then `clientIp` only if it is non-empty. */
  function ScanTaskForm(memberName: string, file: Web.File, clientIp: string): (form: seq<FormEntry>)
    ensures |form| == if clientIp != "" then 3 else 2
    ensures form[0] == FormEntry("memberName", TextValue(memberName))
    ensures form[1] == FormEntry("file", FileValue(file))
  {
    var base := [FormEntry("memberName", TextValue(memberName)), FormEntry("file", FileValue(file))];
    if clientIp != "" then base + [FormEntry("clientIp", TextValue(clientIp))] else base
  }

  /**
    Reading the uploaded form back by name: the member name and the file are always
    there, and `clientIp` is there exactly when it is non-empty, with that value.
  */
  lemma ScanTaskFormFields(memberName: string, file: Web.File, clientIp: string)
    ensures FormGet(ScanTaskForm(memberName, file, clientIp), "memberName") == Some(TextValue(memberName))
    ensures FormGet(ScanTaskForm(memberName, file, clientIp), "file") == Some(FileValue(file))
    ensures FormGet(ScanTaskForm(memberName, file, clientIp), "clientIp") ==
      if clientIp != "" then Some(TextValue(clientIp)) else None
  {
    var form := ScanTaskForm(memberName, file, clientIp);
    assert form[1..][0] == form[1];
    assert FormGet(form, "clientIp") == FormGet(form[1..], "clientIp") == FormGet(form[1..][1..], "clientIp");
    if clientIp != "" {
      assert form[1..][1..] == [FormEntry("clientIp", TextValue(clientIp))];
    } else {
      assert form[1..][1..] == [];
    }
  }

  // ---------------------------------------------------------------- getClientIp

  /** What one address lookup ends with: the request or its JSON parse threw, or the parsed `ip` field. */
  datatype IpLookup = LookupThrew | LookupReturned(ip: Option<string>)

  /** `getClientIp`'s result object: both addresses are always filled in. */
  datatype ClientIp = ClientIp(ipv4: Option<string>, ipv6: Option<string>)

  /** The address one lookup yields: its `ip` if truthy, otherwise the empty string. */
  function AddressFrom(lookup: IpLookup): (address: string)
    ensures address != "" <==> lookup.LookupReturned? && Text.Truthy(lookup.ip)
    ensures address != "" ==> address == lookup.ip.value
  {
    match lookup
    case LookupThrew => ""
    case LookupReturned(ip) => Text.OrElse(ip, "")
  }

  /**
    `getClientIp`: start from an empty result and fill `ipv4`, then `ipv6`, each inside
    its own try/catch, so a failing IPv4 lookup leaves the IPv6 address untouched.
  */
  method GetClientIp(v4: IpLookup, v6: IpLookup) returns (result: ClientIp)
    ensures result.ipv4 == Some(AddressFrom(v4))
    ensures result.ipv6 == Some(AddressFrom(v6))
  {
    result := ClientIp(None, None);
    match v4 {
      case LookupThrew =>
        result := result.(ipv4 := Some(""));
      case LookupReturned(ip) =>
        result := result.(ipv4 := Some(Text.OrElse(ip, "")));
    }
    match v6 {
      case LookupThrew =>
        result := result.(ipv6 := Some(""));
      case LookupReturned(ip) =>
        result := result.(ipv6 := Some(Text.OrElse(ip, "")));
    }
  }

  // ---------------------------------------------------------------- error messages

  /** The wrappers of scanService.ts that throw on a failed response. */
  datatype Operation =
    | SendOtp | VerifyOtp | SubmitUserInfo | CreateMemberWithService
    | CreateScanTask | GetScanStatus | DownloadReport | GetMemberByEmail

  /** The fixed text each wrapper throws when the failed response carries no message. */
  function FallbackMessage(op: Operation): (message: string)
    ensures message != ""
  {
    match op
    case SendOtp => "Failed to send OTP"
    case VerifyOtp => "Failed to verify OTP"
    case SubmitUserInfo => "Failed to submit user info"
    case CreateMemberWithService => "Failed to create member with service"
    case CreateScanTask => "Failed to create scan task"
    case GetScanStatus => "Failed to get scan status"
    case DownloadReport => "Failed to download report"
    case GetMemberByEmail => "Failed to get member details"
  }

  /** Each wrapper's fallback text names its own operation: no two wrappers share one. */
  lemma FallbackMessagesDistinct(a: Operation, b: Operation)
    requires a != b
    ensures FallbackMessage(a) != FallbackMessage(b)
  {
  }

  /**
    The error a wrapper throws on a failed response: the backend's non-empty `message`,
    else the wrapper's own fallback; the message is never empty when the body parses.
  */
  function OperationError(op: Operation, body: Web.ErrorBody): (e: Web.Error)
    ensures body.JsonBody? && Text.Truthy(body.message) ==> e.message == body.message.value
    ensures body.JsonBody? && !Text.Truthy(body.message) ==> e.message == FallbackMessage(op)
    ensures body.JsonBody? ==> e.message != ""
    ensures body.Unparseable? ==> e == body.parseError
    ensures body.NullBody? ==> e == body.typeError
  {
    Web.ErrorFor(body, FallbackMessage(op))
  }
}
