# APK scan portal: front-end behaviour in Dafny

This project models the front end of an APK security-scanning portal, meaning the part of
it that has behaviour worth stating. A visitor drops an `.apk` on the home page. Before the
scan request is made, the visitor proves an email address with a six-digit code. A polling
session then follows the scan's progress. Administrators see two tables:

- an access-log table with sorting, search and a five-slot pagination bar;
- a member table that they export as a CSV file.

The model has one module per source component:

- `ScanPolling` models `lib/utils/pollingScan.ts`.
  - A polling session is a class. Its closure variables `attempts` and `isActive` are fields, and its callbacks and timer appear in an event log.
  - `poll` is split at its `await`. `Poll`/`Fire` run before the query returns and `Deliver` runs after it, so a cancel between the two has the effect it has in the source.
  - A reference function `Run` gives the trace of a session that is never cancelled. `PollUncancelled` is proved against it.
- `AccessCountPage` models `app/admin/access-count/page.tsx`. `app/access_count/page.tsx` holds the same logic.
  - `RenderPaginationItems` keeps the source's mutable `startPage` and push loop, and is proved equal to the pagination function `Items`.
  - The lemmas about `Items` state what the bar shows.
  - `TableControls` is the page's sort, search and page state.
- `AccessLogService` models `lib/api/accessLogService.ts`: the query string of `getAccessLogs` and the error fallbacks.
- `ScanService` models `lib/api/scanService.ts`:
  - the download name of `downloadReport`;
  - the form built by `createScanTask`;
  - the address fallbacks of `getClientIp`;
  - the error messages of the wrappers.
- `MemberExport` models `exportToExcel` and `fetchMembers` of `app/admin/members/page.tsx`. `app/members/page.tsx` holds the same code.
  - A reader for the grammar of section 2 of RFC 4180 is the partner of the escaping.
  - Reading the exported text back gives the header and every member's fields, in order.
- `OtpForm`, `FileUpload` and `HomePage` model `components/otp-form-modal.tsx`, `components/file-upload.tsx` and `app/page.tsx`.
  - Each component is a class with its state as fields.
  - The callbacks a component makes to its parent are logged.
  - A timer firing is an explicit method.
  - Scenario methods connect them: pick a file, scan, verify the email, submit.
- `Text`, `Web` and `Wrappers` hold the JavaScript string operations, the `Error`/`File` values and `Option` that the others share.

The public pages repeat the logic of the admin pages:

- In `app/access_count/page.tsx`, every handler and `renderPaginationItems` sit two lines below their place in the admin page. For example, the window is at lines 163-169 and `handleSort` at 114-122. The range text, Previous and Next sit at lines 375, 382 and 390.
- In `app/members/page.tsx`, every line of `escapeCSV`, `exportToExcel` and `fetchMembers` sits four lines below its place in the admin page.

The table below cites the admin pages.

## Model

| member | source | states |
|---|---|---|
| ScanPolling.CurrentStatus | lib/utils/pollingScan.ts:44 | the status is the nested `data.status` when truthy, otherwise the legacy `status`, lower-cased; neither present gives no status |
| ScanPolling.ReactTo | lib/utils/pollingScan.ts:46-58 | the classification as written, final `else` included; its cases are stated by `ReactToCases` |
| ScanPolling.ReactToCases | lib/utils/pollingScan.ts:46-58 | success exactly for "completed"/"success" in any case, the fixed APK message exactly for "failed", another poll for every other status including none; any failure carries the fixed message, so the branch reporting the backend's `error` text is unreachable |
| ScanPolling.ReactToIgnoresBackendError | lib/utils/pollingScan.ts:50-53 | the backend's `error` field never changes the reaction to a response |
| ScanPolling.AsError | lib/utils/pollingScan.ts:61 | a thrown `Error` is reported itself; any other thrown value becomes `Error("Polling error")` |
| ScanPolling.Handle | lib/utils/pollingScan.ts:40-62 | a thrown query gives exactly one onError; a returned one gives onStatusUpdate with that response, then onSuccess with it for completed/success, onError with the fixed APK message for failed, and otherwise a re-armed timer |
| ScanPolling.HandleCounts | lib/utils/pollingScan.ts:41-61 | handling a reply makes no query and exactly one terminal callback unless polling continues |
| ScanPolling.RunQueryBound | lib/utils/pollingScan.ts:30-37 | a session never makes more than `maxAttempts` status queries |
| ScanPolling.RunTerminatesOnce | lib/utils/pollingScan.ts:46-61 | at most one onSuccess/onError is made, and when made it is the last event |
| ScanPolling.RunTimesOut | lib/utils/pollingScan.ts:29-58 | when every reply is "still running", exactly `maxAttempts` queries are made and the timeout error is the last event |
| ScanPolling.PollingSession.Start | lib/utils/pollingScan.ts:18-66 | starting runs the first poll at once: one query with the counter at 1, or the timeout with a cap of 0 |
| ScanPolling.PollingSession.Poll | lib/utils/pollingScan.ts:29-40 | cancelled or at the cap: no query, counter unchanged, timeout reported exactly when at the cap; otherwise the counter rises by one and one query is logged |
| ScanPolling.PollingSession.Fire | lib/utils/pollingScan.ts:29-57 | a re-armed timer runs `poll` with the same rules |
| ScanPolling.PollingSession.Deliver | lib/utils/pollingScan.ts:40-62 | the reply's events are appended, the timer is armed exactly when polling continues, `isActive` stays set only then; the session invariant (counter = queries made ≤ cap) holds |
| ScanPolling.PollingSession.Cancel | lib/utils/pollingScan.ts:69-71 | clears `isActive` and changes nothing else, so running it twice is the same as once |
| ScanPolling.PollUncancelled | lib/utils/pollingScan.ts:18-72 | a session whose queries are all answered and whose timers all fire produces exactly the reference trace `Run` |
| ScanPolling.CancelRightAway | lib/utils/pollingScan.ts:29-71 | after a cancel no further query is ever made, whatever the replies |
| ScanPolling.PendingProcessingCompleted | lib/utils/pollingScan.ts:40-58 | pending, processing, completed gives three updates, two timers, one success and no fourth query |
| ScanPolling.FirstReplyFailed | lib/utils/pollingScan.ts:50-51 | a first "failed" reply ends the session with the fixed APK message |
| ScanPolling.FirstQueryThrew | lib/utils/pollingScan.ts:59-62 | a query that throws ends the session with no retry |
| ScanPolling.StatusChoiceAsWritten | lib/utils/pollingScan.ts:44-46 | an empty nested status falls back to the legacy one, and case is ignored |
| ScanPolling.CancelDuringQuery | lib/utils/pollingScan.ts:40-71 | a cancel while a query is in flight does not stop onStatusUpdate and onSuccess for its reply |
| ScanPolling.CancelThenTimerAtCap | lib/utils/pollingScan.ts:30-57 | a timer re-armed after a cancel makes no query but still reports the timeout at the cap |
| ScanPolling.ScanProgress | lib/utils/pollingScan.ts:77-92 | case-sensitive: pending 20, processing 60, completed/failed/Failed 100, anything else 0; always one of 0, 20, 60, 100 |
| ScanPolling.ProgressFollowsLifecycle | lib/utils/pollingScan.ts:78-90 | progress rises along pending, processing, completed; "Pending", "Success", "InProgress" give 0 |
| ScanPolling.FormatStatusText | lib/utils/pollingScan.ts:97-106 | the fixed text of the five keys, any other status unchanged (the own-key lookup) |
| ScanPolling.ProgressAndTextAgree | lib/utils/pollingScan.ts:77-106 | a status has non-zero progress exactly when its display text differs from it |
| ScanPolling.FormatStatusTextAsWrittenDiffers | lib/utils/pollingScan.ts:98-105 | the object-literal lookup agrees with the intended one except on inherited `Object.prototype` names, where it returns a non-string |
| ScanPolling.FormatStatusTextAsWritten | lib/utils/pollingScan.ts:98-105 | the object-literal lookup as written, inherited `Object.prototype` members included; the as-written half of the first finding |
| AccessCountPage.PushWindowLinks | app/admin/access-count/page.tsx:182-194 | the `for` loop appends exactly the window's links `lo..hi`, each active exactly when it is the current page |
| AccessCountPage.RenderPaginationItems | app/admin/access-count/page.tsx:159-210 | the bounds with their shifted `startPage`, the first link, the window loop and the last link build exactly the bar `Items` |
| AccessCountPage.WindowLinks | app/admin/access-count/page.tsx:182-194 | one link per page of the window, in order, active exactly for the current page |
| AccessCountPage.WindowBounds | app/admin/access-count/page.tsx:161-167 | with at least one page the window lies in [1, totalPages] and holds exactly min(5, totalPages) pages |
| AccessCountPage.WindowHoldsPage | app/admin/access-count/page.tsx:162-167 | a page in range lies inside the window |
| AccessCountPage.ItemsCount | app/admin/access-count/page.tsx:169-207 | the bar has the window's links plus one first link iff start > 1, one leading ellipsis iff start > 2, one last link iff end < totalPages, one trailing ellipsis iff end < totalPages - 1 |
| AccessCountPage.Items | app/admin/access-count/page.tsx:159-207 | the bar `renderPaginationItems` builds, as a value; stated by the `Items…` lemmas and reached by `RenderPaginationItems` |
| AccessCountPage.WindowStart | app/admin/access-count/page.tsx:162-167 | the first window page after the shift; bounded by `WindowBounds` |
| AccessCountPage.WindowEnd | app/admin/access-count/page.tsx:163 | the last window page; bounded by `WindowBounds` |
| AccessCountPage.ItemsEnds | app/admin/access-count/page.tsx:169-207 | the bar starts with a link to page 1 and ends with a link to the last page |
| AccessCountPage.ItemsAdjacent | app/admin/access-count/page.tsx:169-207 | two links next to each other are consecutive pages |
| AccessCountPage.ItemsGaps | app/admin/access-count/page.tsx:177-198 | an ellipsis sits between two links and marks at least one skipped page |
| AccessCountPage.LinksIncrease | app/admin/access-count/page.tsx:169-207 | in a bar of that shape page numbers strictly increase from left to right |
| AccessCountPage.NoDuplicateLinks | app/admin/access-count/page.tsx:169-207 | no page, page 1 and the last page included, is linked twice |
| AccessCountPage.ActiveIsCurrentPage | app/admin/access-count/page.tsx:182-188 | exactly one link is active, the one for the current page |
| AccessCountPage.LinksStayInRange | app/admin/access-count/page.tsx:169-207 | every link targets a page in [1, totalPages] |
| AccessCountPage.ShownRangeBounds | app/admin/access-count/page.tsx:374 | on a non-empty page the range lies in [1, total] and spans at most `limit` records, exactly `limit` on a full page |
| AccessCountPage.ShownFrom | app/admin/access-count/page.tsx:374 | `(page - 1) * limit + 1`; bounded by `ShownRangeBounds` |
| AccessCountPage.ShownTo | app/admin/access-count/page.tsx:374 | `Math.min(page * limit, total)`; bounded by `ShownRangeBounds` |
| AccessCountPage.ShownRangesTile | app/admin/access-count/page.tsx:374 | after a full page the next page's range starts right after this one's |
| AccessCountPage.SortAfterProperties | app/admin/access-count/page.tsx:112-118 | the clicked column becomes the sort column; clicking the current column flips the order and clicking twice restores it; a new column starts descending |
| AccessCountPage.SortAfter | app/admin/access-count/page.tsx:112-118 | the sort column and order after a header click; stated by `SortAfterProperties` |
| AccessCountPage.FetchQuery | app/admin/access-count/page.tsx:80-86 | the listing query carries limit 10, sortBy and sortOrder always, page whenever it is non-zero, and `search` exactly when it is non-empty |
| AccessCountPage.VisitRecord | app/admin/access-count/page.tsx:65-68 | an empty address is sent as absent, any other as itself |
| AccessCountPage.TableControls.constructor | app/admin/access-count/page.tsx:39-49 | page 1, sorted by last access time descending, empty search, one page, no records |
| AccessCountPage.TableControls.HandleSort | app/admin/access-count/page.tsx:112-120 | sort column and order become `SortAfter` of the old ones, page resets to 1, nothing else changes |
| AccessCountPage.TableControls.TypeSearch | app/admin/access-count/page.tsx:256 | only the search box text changes |
| AccessCountPage.TableControls.HandleSearch | app/admin/access-count/page.tsx:123-126 | the typed text becomes the search and page resets to 1 |
| AccessCountPage.TableControls.HandleKeyPress | app/admin/access-count/page.tsx:129-133 | Enter commits the search as above; any other key changes nothing |
| AccessCountPage.TableControls.Previous | app/admin/access-count/page.tsx:381 | page decreases by one only above 1, so a page in [1, totalPages] stays there |
| AccessCountPage.TableControls.Next | app/admin/access-count/page.tsx:389 | page increases by one only below totalPages, so a page in range stays in range |
| AccessCountPage.TableControls.GoToPage | app/admin/access-count/page.tsx:172-202 | clicking a link goes to its page |
| AccessCountPage.TableControls.Loaded | app/admin/access-count/page.tsx:93-95 | a listing response sets totalPages and total and nothing else |
| AccessLogService.SortByName | lib/api/accessLogService.ts:80 | every sort column has a non-empty wire name |
| AccessLogService.SortByNamesDistinct | lib/api/accessLogService.ts:39 | distinct columns have distinct wire names |
| AccessLogService.SortOrderName | lib/api/accessLogService.ts:81 | both orders have non-empty wire names |
| AccessLogService.SearchParamsOrder | lib/api/accessLogService.ts:78-82 | parameters always appear in the order page, limit, sortBy, sortOrder, search |
| AccessLogService.SearchParams | lib/api/accessLogService.ts:76-82 | the five conditional appends in source order; stated by `SearchParamsOrder` and `SearchParamsValues` |
| AccessLogService.SearchParamsValues | lib/api/accessLogService.ts:76-82 | under any name, the query holds exactly `ExpectedParam`: page and limit exactly when they are non-zero numbers, sortBy and sortOrder exactly when given, search exactly when non-empty, each with its text, and nothing under any other name |
| AccessLogService.AccessLogsUrlPrefix | lib/api/accessLogService.ts:84 | the URL is exactly the base followed by `/access-logs?`, the `?` present even for an empty query |
| AccessLogService.RecordAccessError | lib/api/accessLogService.ts:64-67 | a non-ok response throws the backend message or "Failed to record access" |
| AccessLogService.GetAccessLogsError | lib/api/accessLogService.ts:93-96 | the same with "Failed to get access logs" |
| AccessLogService.GetAccessCountError | lib/api/accessLogService.ts:112-115 | the same with "Failed to get access count" |
| ScanService.DefaultReportName | lib/api/scanService.ts:291 | the default name is exactly `analysis-result-` followed by the task id |
| ScanService.FirstMatch | lib/api/scanService.ts:294 | the leftmost position where `filename=` is followed by at least one non-`;` character |
| ScanService.FilenameCapture | lib/api/scanService.ts:294-295 | the capture is the greedy run after the leftmost `filename=` match up to the next `;` or the end, non-empty; absent exactly when nothing matches |
| ScanService.CleanNameProperties | lib/api/scanService.ts:296 | the cleaned name has no `"` and no leading or trailing white space |
| ScanService.ReportFileNameAsWrittenEmpty | lib/api/scanService.ts:290-297 | as written, `filename=""` names the download with the empty string |
| ScanService.ReportFileNameAsWritten | lib/api/scanService.ts:290-297 | the name as written, empty capture included; the as-written half of the second finding |
| ScanService.CleanName | lib/api/scanService.ts:296 | quotes removed, then trimmed; stated by `CleanNameProperties` |
| ScanService.ReportFileName | lib/api/scanService.ts:290-297 | the download name is never empty, and is the default name without the header or without a match |
| ScanService.ReportFileNameFromHeader | lib/api/scanService.ts:294-297 | with a match the name is the cleaned capture when that is not empty; otherwise it agrees with the code as written |
| ScanService.ReportFileNameClean | lib/api/scanService.ts:296 | a name taken from the header has no quotes and no surrounding white space |
| ScanService.ScanTaskForm | lib/api/scanService.ts:216-221 | memberName then file, then clientIp only when non-empty |
| ScanService.ScanTaskFormFields | lib/api/scanService.ts:216-221 | reading the form back gives the member name, the file, and the client IP exactly when it is non-empty |
| ScanService.AddressFrom | lib/api/scanService.ts:352-369 | the address is the lookup's ip when it returned a truthy one, and `""` otherwise |
| ScanService.GetClientIp | lib/api/scanService.ts:342-372 | each address comes from its own lookup only, so a failing IPv4 lookup does not affect IPv6 |
| ScanService.FallbackMessage | lib/api/scanService.ts:118-329 | every wrapper's fallback text is non-empty |
| ScanService.FallbackMessagesDistinct | lib/api/scanService.ts:118-329 | distinct wrappers have distinct fallback texts |
| ScanService.OperationError | lib/api/scanService.ts:116-119 | a non-ok response throws the backend message when present, else the wrapper's fallback, so a parsed body never gives an empty message; an unparseable body throws its parse error |
| MemberExport.DoubleQuotes | app/admin/members/page.tsx:65 | the result holds a `"` exactly when the input does and the same other characters; text without quotes is unchanged |
| MemberExport.EscapeCsv | app/admin/members/page.tsx:62-71 | `''` for a missing or empty value; a value with `,` `"` LF or CR is quoted with its quotes doubled; any other value is returned unchanged |
| MemberExport.FieldRoundTrip | app/admin/members/page.tsx:62-71 | reading an escaped value back as one RFC 4180 field gives the value (`''` for a missing one) and stops at the next separator |
| MemberExport.QuotedRoundTrip | app/admin/members/page.tsx:65-68 | a quoted field with doubled quotes reads back as the original text |
| MemberExport.BareRoundTrip | app/admin/members/page.tsx:70 | an unquoted field reads back up to the next separator |
| MemberExport.RecordRoundTrip | app/admin/members/page.tsx:77-86 | a record of escaped fields joined by `,` reads back as its fields |
| MemberExport.CsvRoundTrip | app/admin/members/page.tsx:75-87 | records joined by LF read back as the list of records |
| MemberExport.HeaderNeedsNoEscaping | app/admin/members/page.tsx:74-76 | the eight titles need no quoting, so the header line is the titles joined by `,` |
| MemberExport.FileSizeText | app/admin/members/page.tsx:84 | a size is written exactly when present, never empty, and for a whole number of megabytes as the decimal numeral of its value |
| MemberExport.RecordValues | app/admin/members/page.tsx:77-86 | every record has exactly eight fields |
| MemberExport.Rows | app/admin/members/page.tsx:75-87 | the header, then one record per member in list order, eight fields each |
| MemberExport.MemberLines | app/admin/members/page.tsx:77-86 | each member's line is its eight escaped fields joined by `,` |
| MemberExport.EscapeAll | app/admin/members/page.tsx:77-86 | every value of a row escaped, in order |
| MemberExport.CsvText | app/admin/members/page.tsx:74-87 | the header and member lines joined by LF; read back by `ExportRoundTrip` |
| MemberExport.ExportRoundTrip | app/admin/members/page.tsx:74-87 | the CSV text reads back as the header followed by each member's eight fields, in order |
| MemberExport.CsvContent | app/admin/members/page.tsx:90-91 | the content is one byte order mark followed by the CSV text |
| MemberExport.SingleBom | app/admin/members/page.tsx:90-91 | exactly one byte order mark: the text after it starts with the header's `F` |
| MemberExport.ExportFileName | app/admin/members/page.tsx:98 | `member-verifications-`, the date part, `.csv` |
| MemberExport.ExportFileNameForTimestamp | app/admin/members/page.tsx:98 | an ISO timestamp `date T time` names the file after `date` |
| MemberExport.MembersPage.constructor | app/admin/members/page.tsx:19-22 | no members, loading, no error, not exporting |
| MemberExport.MembersPage.FetchMembers | app/admin/members/page.tsx:28-44 | the list on success; the fixed text for a non-ok response; a thrown error's message or the fallback; loading ends; a success keeps an earlier error |
| MemberExport.MembersPage.ExportToExcel | app/admin/members/page.tsx:56-109 | the error clears and one file is handed over, named after the date and holding the byte order mark and the CSV text |
| MemberExport.LoadThenExport | app/admin/members/page.tsx:28-109 | the file exported after a load reads back as the header and the loaded members' fields, and is named after the day |
| OtpForm.WithFieldChangesOnlyThatField | components/otp-form-modal.tsx:61-64 | a field change sets that field and leaves every other field, email and OTP included, unchanged |
| OtpForm.KeepDigits | components/otp-form-modal.tsx:138 | only digits remain, and an all-digit text is kept whole |
| OtpForm.SanitizeOtp | components/otp-form-modal.tsx:138 | at most six characters, all digits, the first digits typed |
| OtpForm.SanitizeOtpIdempotent | components/otp-form-modal.tsx:138 | sanitising twice is sanitising once; a short digit code passes unchanged |
| OtpForm.SanitizeOtpExtends | components/otp-form-modal.tsx:138 | typing more never changes the digits already kept |
| OtpForm.OtpFormModal.constructor | components/otp-form-modal.tsx:27-39 | all seven fields empty and every flag cleared |
| OtpForm.OtpFormModal.EmailLocked | components/otp-form-modal.tsx:113 | the email input is disabled once the code is sent |
| OtpForm.OtpFormModal.SendDisabled | components/otp-form-modal.tsx:120 | the send button is disabled without an email, after sending and while loading |
| OtpForm.OtpFormModal.OtpEntryShown | components/otp-form-modal.tsx:130 | the OTP entry is shown between sending and verifying |
| OtpForm.OtpFormModal.VerifyDisabled | components/otp-form-modal.tsx:148 | verify is disabled unless the code has six characters |
| OtpForm.OtpFormModal.DetailsShown | components/otp-form-modal.tsx:158-165 | the verified badge and the detail fields appear once verified |
| OtpForm.OtpFormModal.SubmitDisabled | components/otp-form-modal.tsx:238 | submit is disabled while a submit is in flight |
| OtpForm.OtpFormModal.EmailChange | components/otp-form-modal.tsx:41-43 | only the email changes |
| OtpForm.OtpFormModal.SendOtp | components/otp-form-modal.tsx:45-53 | no-op without an email; otherwise loading starts and one send timer is pending |
| OtpForm.OtpFormModal.SendTimerFires | components/otp-form-modal.tsx:49-52 | the code counts as sent and loading ends |
| OtpForm.OtpFormModal.OtpChange | components/otp-form-modal.tsx:136-140 | the OTP becomes the sanitised input, nothing else changes |
| OtpForm.OtpFormModal.VerifyOtp | components/otp-form-modal.tsx:55-59 | verified becomes set exactly when the OTP has six characters; otherwise nothing changes |
| OtpForm.OtpFormModal.InputChange | components/otp-form-modal.tsx:61-64 | only the named detail field changes |
| OtpForm.OtpFormModal.Submit | components/otp-form-modal.tsx:66-71 | no-op unless verified; otherwise submitting starts and a timer holding the current data is pending |
| OtpForm.OtpFormModal.Dismiss | components/otp-form-modal.tsx:229-231 | the close and cancel buttons call onClose and keep what was typed |
| OtpForm.OtpFormModal.SubmitTimerFires | components/otp-form-modal.tsx:72-87 | onSubmit with the data held at submit time, then all seven fields empty and both OTP flags cleared, then onClose |
| OtpForm.VerifiedSubmission | components/otp-form-modal.tsx:41-87 | a full pass hands the parent exactly the data on screen at submit time, then closes, and leaves the form empty |
| OtpForm.ShortCodeBlocksSubmit | components/otp-form-modal.tsx:55-68 | without six digits the email is never verified and the parent hears nothing |
| OtpForm.ScreensAlongAPass | components/otp-form-modal.tsx:105-245 | along a whole pass the guards go: send enabled once an email is typed, disabled while sending, email locked and OTP entry shown once sent, verify enabled at six digits, details replacing the OTP entry once verified, submit disabled while submitting, and all back to the empty form after the submit |
| FileUpload.ApkNamesAccepted | components/file-upload.tsx:31-39 | any name ending in `.apk` is accepted |
| FileUpload.AcceptsApk | components/file-upload.tsx:31-39 | a file is present and its name ends in `.apk`, case-sensitively; stated by `ApkNamesAccepted` and `UpperCaseApkRefused` |
| FileUpload.UpperCaseApkRefused | components/file-upload.tsx:31-39 | the check is case-sensitive (`.APK` refused) and no file is refused |
| FileUpload.FileUploader.constructor | components/file-upload.tsx:14-15 | no file, not dragging, nothing reported |
| FileUpload.FileUploader.DragOver | components/file-upload.tsx:18-21 | dragging becomes set, nothing else changes |
| FileUpload.FileUploader.DragLeave | components/file-upload.tsx:23-25 | dragging becomes clear, nothing else changes |
| FileUpload.FileUploader.Drop | components/file-upload.tsx:27-35 | dragging clears; an `.apk` is stored and reported once; anything else changes nothing more |
| FileUpload.FileUploader.FileInput | components/file-upload.tsx:37-43 | the same rule for a picked file, the drag flag untouched |
| FileUpload.FileUploader.Remove | components/file-upload.tsx:45-47 | the file is cleared and the parent is not told |
| FileUpload.OnlyApksReported | components/file-upload.tsx:18-47 | over any sequence of drags, drops, picks and removals, in any order, every file reported is an `.apk` and the stored file is the last one reported |
| HomePage.Home.constructor | app/page.tsx:14-16 | no file, form shut, upload widget shown |
| HomePage.Home.HandleFileSelect | app/page.tsx:18-20 | the reported file becomes the selected file |
| HomePage.Home.HandleScan | app/page.tsx:22-26 | the form opens exactly when a file is selected; otherwise nothing changes |
| HomePage.Home.HandleFormSubmit | app/page.tsx:28-32 | the success panel is shown and the file forgotten |
| HomePage.Home.CloseModal | app/page.tsx:106 | only the form's open flag clears |
| HomePage.Home.UploadAnother | app/page.tsx:61 | only the uploaded flag clears |
| HomePage.Home.Notify | app/page.tsx:104-109 | onSubmit reaches `handleFormSubmit` and onClose shuts the form |
| HomePage.Home.ModalFileName | app/page.tsx:108 | the selected file's name, or `""` without one |
| HomePage.UploadAndSubmit | app/page.tsx:18-109 | dropping an `.apk`, scanning and completing the form shows its name in the form, hands over the data on screen, and ends with the success panel, the form shut and no file |
| HomePage.ScanOpensOnlyForApk | app/page.tsx:22-26 | over any dropped files, scan opens the form exactly when one was an `.apk` |
| HomePage.RemoveKeepsPageSelection | app/page.tsx:18-108 | removing the file in the uploader leaves the page holding it and passing its name to the form |
| Text.OrElse | lib/api/accessLogService.ts:66 | `a || b` on strings: `a` when present and non-empty, else `b` |
| Text.Lower | lib/utils/pollingScan.ts:44 | lower-cases ASCII capitals, position by position |
| Text.RemoveAll | lib/api/scanService.ts:296 | every occurrence of the character removed, the count of every other character kept |
| Text.RemoveAllAppend | lib/api/scanService.ts:296 | removing from a concatenation removes from each part, so the kept characters stay in order |
| Text.RemoveAllOne | lib/api/scanService.ts:296 | on one character, the character itself disappears and any other stays |
| Text.UpTo | lib/api/scanService.ts:294-295 | the longest prefix free of the character, followed in the input by that character or the end; also `split('T')[0]` of app/admin/members/page.tsx |
| Text.TrimStart | lib/api/scanService.ts:296 | only leading white space is dropped |
| Text.TrimEnd | lib/api/scanService.ts:296 | only trailing white space is dropped |
| Text.IntText | lib/api/accessLogService.ts:78-79 | the decimal numeral whose value is the number, after a `-` for negatives |
| Text.NatText | lib/api/accessLogService.ts:78-79 | a numeral without leading zero whose digits stand for the number |
| Text.NumeralIsNatText | lib/api/accessLogService.ts:78-79 | every numeral is the text of its value, so the text of a number is fixed by the number |
| Web.ErrorFor | lib/api/accessLogService.ts:64-67 | a non-ok response throws the backend message when non-empty, else the fallback; a `null` body throws the TypeError of reading `message`; an unparseable body throws its parse error |
| Web.ParsedErrorHasMessage | lib/api/accessLogService.ts:66 | with a non-empty fallback the thrown message is never empty |

## Left out

- Network I/O is not modelled:
  - `fetch`, `response.json()` and the proxy routes;
  - the IP lookup services and `AbortSignal.timeout`.
  - Replies are parameters: `Reply`, `MembersReply`, `IpLookup`, `ErrorBody`.
  - The success bodies of the wrappers are not decoded.
- Timers are not modelled as time. `setTimeout` is an explicit `Fire` / `SendTimerFires` / `SubmitTimerFires` step, and `intervalMs` is only recorded.
- `Promise.all` in `fetchData`, and the interleaving of overlapping requests, are not modelled. The page's loading flag, its `accessLogs` list and the stats cards are not state in `TableControls`.
- `recordPageAccess` is not modelled as a whole. Only its `|| undefined` conversion (`VisitRecord`) is modelled, because the rest is I/O and console logging.
- Locale formatting is not modelled. `toLocaleString`, `toLocaleDateString` and `toISOString` are opaque: `formatDate` is a parameter and the ISO timestamp is an input string.
- `MemberExport.FileSizeText` restricts `file_size` to integers. The member record declares it as a JavaScript `number` of megabytes (the table shows it as `${file_size} MB`), and `toString` of a fractional value, with its shortest round-trip decimal digits, is not modelled.
- The file size shown by the uploader is floating-point arithmetic, and is not modelled.
- `Text.Lower` does not model full Unicode case mapping, because it lower-cases ASCII only. The only use compares the result with ASCII words. A non-ASCII character that JavaScript lower-cases into one of them (the Kelvin sign) is not covered.
- `Web.ErrorBody` gives a parsed error body's `message` as an optional string. A truthy `message` that is not a string (`{"message": 42}`) would be converted by `new Error(...)` to its text ("42"), and this is not modelled.
- `URLSearchParams` percent-encoding is not modelled: only which parameters are appended, their order and their text.
- The download mechanics are not modelled: DOM anchors, `Blob`, object URLs and `URL.revokeObjectURL`.
- Two readers are not modelled, because the export itself writes LF only:
  - a CRLF line break in the RFC 4180 reader;
  - a CR inside an unquoted field.
- `renderSortIcon`, the row striping and all markup are not modelled. The disabled and visibility guards are predicates on the classes (`SendDisabled`, `OtpEntryShown`, `ExportDisabled`, …), not preconditions of the handlers. A handler can therefore be called in a state where its button is disabled, and it then does what the code does.
- `if (!isOpen) return null` in the OTP form is not modelled. The form's state survives while it is closed, which the separate class already reflects.
- These files are presentation only and are not modelled:
  - the header, footer, about page, admin layout and statistics charts;
  - the contact page, which repeats the OTP form's field-update pattern.
- The wrappers' remaining bodies are not modelled: `sendOtp`, `verifyOtp`, `submitUserInfo`, `createMemberWithService`, `getScanStatus` and `getMemberByEmail`. Only their error fallbacks appear, as `ScanService.FallbackMessage` and `ScanService.OperationError`.
- `ScanPolling.PollingSession.Deliver` runs onStatusUpdate, onSuccess and onError as log entries. A callback that itself throws is not modelled.

## Findings

| source | as written | input that shows it | evidently intended | confidence | as-written member | corrected member |
|---|---|---|---|---|---|---|
| lib/utils/pollingScan.ts:98-105 | `statusMap[status] \|\| status` looks the status up on an object literal, which also finds inherited `Object.prototype` members | status `"toString"` (or `"constructor"`, `"__proto__"`, …) yields a function, not a string | unknown statuses are returned unchanged | not executed | ScanPolling.FormatStatusTextAsWrittenDiffers | ScanPolling.FormatStatusText |
| lib/api/scanService.ts:294-297 | the cleaned capture replaces the default name even when cleaning leaves nothing | header `filename=""` gives the download name `""` | keep `analysis-result-<taskId>` when the header yields no usable name | not executed | ScanService.ReportFileNameAsWrittenEmpty | ScanService.ReportFileName |
