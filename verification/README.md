# MPJ membership portal: a verified model of its core

This project models the decision logic of the MPJ (Media Pondok Jawa Timur) membership portal in Dafny. The portal is a single-page web application that Islamic boarding schools (pesantren) use to register their media teams. It also serves regional and central administrators. The model covers these parts:

- **The access gate and the route table.** The gate is a two-layer check: account status first, role second. The table says which roles each path admits, and whether the gate is applied at all. Their composition decides what every signed-in or signed-out visitor sees. The forbidden page's "my dashboard" button is modelled too.
- **The member's screens.**
  - Profile leveling on the institution identity screen: basic, silver, gold and platinum.
  - The three-member crew roster.
  - The countdown banner for basic members.
  - The administration (payments) summary.
- **The sign-up flows.** Registration with its city-to-region table, the legacy-account claim, the six-cell one-time code and the transfer confirmation. These flows keep their records in the browser's storage.
- **The administrators' screens.**
  - Regional accounts: admin counts and the assignment of an admin.
  - Regional mapping: regions and cities.
  - Admin management and the two settings screens.
  - Gamification rules and the documentation reports.
- **The shared libraries.**
  - Upload validation.
  - Masking of personal data.
  - Sanitising of download file names.
  - The in-memory audit log.

How the source's code becomes Dafny:

- Pure code becomes functions over datatypes. This covers predicates, lookups, masks, file names and derived summaries.
- Screens whose handlers change state become classes. Their fields hold the state, and their methods carry `modifies` clauses and state the whole new state. The browser's storage is a class with one field per key, and the audit log is a class holding the list.
- The following are parameters of the methods that use them:
  - the backend's query results;
  - the browser's confirmation dialogs;
  - the clock and generated ids.
- A query whose result object is missing (`if (data)` in the source) takes an `Option`.

Each property the application promises is stated as an `ensures` clause or as a lemma next to the operation. The ensures give the order of a handler's checks and what each failure leaves unchanged. They also cover which fields a change keeps, the bounds of counts and lists, and the cases of every if-and-only-if.

## Model

| member | source | states |
|---|---|---|
| `AccessGate.Gate` | src/components/auth/ProtectedRoute.tsx:28-96 | the gate only ever redirects to the login, pending, rejected or forbidden page, and it shows the spinner exactly while loading |
| `AccessGate.AllowIffAdmissible` | src/components/auth/ProtectedRoute.tsx:44-95 | once loading is over, the children render exactly when the request is admissible: a session with a profile, held on its own status page while pending or rejected, and once active admitted to `/403` and to every route whose role list is absent, empty or names its role |
| `AccessGate.LoadingIgnoresEverything` | src/components/auth/ProtectedRoute.tsx:32-42 | while loading, the spinner is shown whatever the session, profile, path and role list |
| `AccessGate.NoUserGoesToLogin` | src/components/auth/ProtectedRoute.tsx:48-51 | without a session every request goes to `/login` |
| `AccessGate.NoProfileGoesToLogin` | src/components/auth/ProtectedRoute.tsx:53-56 | a session without a profile goes to `/login` |
| `AccessGate.PendingOnlyReachesPending` | src/components/auth/ProtectedRoute.tsx:58-65 | a pending identity sees `/pending` and is sent there from every other path, and neither its role nor the route's role list changes that |
| `AccessGate.RejectedOnlyReachesRejected` | src/components/auth/ProtectedRoute.tsx:67-74 | a rejected identity sees `/rejected` and is sent there from every other path, and neither its role nor the role list changes that |
| `AccessGate.ActiveAlwaysReachesForbiddenPage` | src/components/auth/ProtectedRoute.tsx:80-83 | every active identity may see `/403`, whatever the role list |
| `AccessGate.RoleLayer` | src/components/auth/ProtectedRoute.tsx:85-95 | for an active identity away from `/403`, a non-empty role list admits exactly the roles it names and sends every other role to `/403` |
| `AccessGate.NoRoleListAdmitsAll` | src/components/auth/ProtectedRoute.tsx:85-95 | for an active identity, an absent or empty role list admits every role |
| `RouteTable.PublicRoute` | src/App.tsx:44-52 | the eight public routes render their page without the gate |
| `RouteTable.StatusRoute` | src/App.tsx:54-78 | the three status routes are protected with no role list and render a status page |
| `RouteTable.AdminPusatRoute` | src/App.tsx:80-96 | `/dashboard` and the paths below it render Dashboard for admin_pusat only |
| `RouteTable.AdminRegionalRoute` | src/App.tsx:98-114 | `/regional-dashboard` and the paths below it render RegionalDashboard for admin_regional only |
| `RouteTable.UserRoute` | src/App.tsx:116-148 | the media and crew dashboards and the paths below them admit user only |
| `RouteTable.FinanceRoute` | src/App.tsx:150-166 | `/finance` and the paths below it render FinanceDashboard for admin_pusat only |
| `RouteTable.MajelisMilitanRoute` | src/App.tsx:168-184 | `/majelis-militan` and the paths below it render MajelisMilitanDashboard for admin_pusat only |
| `RouteTable.AdminDetailRoute` | src/App.tsx:186-194 | `/admin/regional/:id` renders AdminRegionalDetail for admin_pusat only |
| `RouteTable.Resolve` | src/App.tsx:43-198 | the first matching route wins and unlisted paths render NotFound; every protected route without a role list is a status page, and every role list names exactly one role, never admin_finance |
| `RouteTable.Visit` | src/App.tsx:41-198 | the table is consulted with the location's canonical form while the gate sees the location as typed; a public route always renders its page; whatever renders is the resolved route's page; a navigation only ever goes to the login, pending, rejected or forbidden page |
| `RouteTable.TrimTrailingSlashes` | src/App.tsx:41-43 | dropping the trailing slashes never lengthens the location |
| `RouteTable.TrimShape` | src/App.tsx:41-43 | only trailing slashes are dropped, the root `/` is kept, a non-empty location stays non-empty, and no trailing slash is left except on `/` |
| `RouteTable.Canonical` | src/App.tsx:41-43 | the form the router matches a location in: ASCII letters lower-cased, trailing slashes dropped; never longer than the location |
| `RouteTable.CanonicalIsCanonical` | src/App.tsx:41-43 | the canonical form has no upper-case letter and no trailing slash, and is empty only for the empty location |
| `RouteTable.CanonicalFixed` | src/App.tsx:41-43 | a location already in canonical form is matched as written |
| `RouteTable.VariantsShareCanonical` | src/App.tsx:41-43 | every spelling of a canonical location that differs only in ASCII case and trailing slashes is matched as that location |
| `RouteTable.StatusLocations` | src/App.tsx:54-78 | `/pending`, `/rejected` and `/403` typed as written reach their status routes |
| `RouteTable.CentralLocation` | src/App.tsx:80-96 | `/dashboard` typed as written reaches the central dashboard route |
| `RouteTable.RegionalLocation` | src/App.tsx:98-114 | `/regional-dashboard` typed as written reaches the regional dashboard route |
| `RouteTable.MediaLocation` | src/App.tsx:116-132 | `/media-dashboard` typed as written reaches the media dashboard route |
| `RouteTable.FinanceLocation` | src/App.tsx:150-166 | `/finance` typed as written reaches the finance route |
| `RouteTable.DashboardRoutes` | src/App.tsx:80-96 | `/dashboard` and every path below it resolve to Dashboard for admin_pusat only |
| `RouteTable.RegionalDashboardRoutes` | src/App.tsx:98-114 | `/regional-dashboard` and every path below it resolve to RegionalDashboard for admin_regional only |
| `RouteTable.MediaDashboardRoutes` | src/App.tsx:116-132 | `/media-dashboard` and every path below it resolve to MediaDashboard for user only |
| `RouteTable.CrewDashboardRoutes` | src/App.tsx:133-148 | `/crew-dashboard` and every path below it resolve to CrewDashboard for user only |
| `RouteTable.FinanceRoutes` | src/App.tsx:150-166 | `/finance` and every path below it resolve to FinanceDashboard for admin_pusat only |
| `RouteTable.MajelisMilitanRoutes` | src/App.tsx:168-184 | `/majelis-militan` and every path below it resolve to MajelisMilitanDashboard for admin_pusat only |
| `RouteTable.AdminRegionalDetailRoutes` | src/App.tsx:186-194 | `/admin/regional/` followed by any one non-empty segment resolves to AdminRegionalDetail for admin_pusat only |
| `RouteTable.StatusRoutes` | src/App.tsx:54-78 | `/pending`, `/rejected` and `/403` resolve to their status pages with no role list |
| `RouteTable.PublicRoutes` | src/App.tsx:44-52 | each of the eight public paths resolves to its own page without the gate |
| `RouteTable.RegisterIsNotFound` | src/App.tsx:196-197 | there is no registration route: `/register` falls through to NotFound |
| `RouteTable.UserDeniedCentralDashboard` | src/App.tsx:80-88 | an active user asking for `/dashboard` is sent to `/403` |
| `RouteTable.UserDeniedCentralDashboardVariant` | src/App.tsx:80-88 | an active user typing `/Dashboard`, `/DASHBOARD//` or any other spelling of `/dashboard` in other ASCII case or with trailing slashes is sent to `/403` too |
| `RouteTable.PendingDeniedCentralDashboard` | src/App.tsx:80-88 | a pending identity asking for `/dashboard` is sent to `/pending` |
| `RouteTable.StatusPagesOpenToActive` | src/App.tsx:54-78 | every active identity, admin_finance included, sees all three status pages |
| `RouteTable.PendingSeesOnlyPendingPage` | src/App.tsx:43-198 | wherever it navigates, a pending identity sees only public pages and the pending page |
| `RouteTable.RejectedSeesOnlyRejectedPage` | src/App.tsx:43-198 | wherever it navigates, a rejected identity sees only public pages and the rejected page |
| `RouteTable.FinanceAdminHasNoDashboard` | src/App.tsx:150-166 | no protected route admits admin_finance: apart from public pages it sees only status pages |
| `RouteTable.FinanceAdminDeniedFinance` | src/App.tsx:150-158 | an active admin_finance asking for `/finance` is sent to `/403` |
| `Forbidden.DashboardPath` | src/pages/Forbidden.tsx:17-27 | the central and regional admins get their own dashboards, and every other value, an absent one included, gets the media dashboard |
| `Forbidden.DashboardFromContext` | src/pages/Forbidden.tsx:9-27 | as written, the button always leads to the media dashboard |
| `Forbidden.DashboardFromProfile` | src/pages/Forbidden.tsx:17-27 | with the role read from the profile, the button leads to that role's dashboard |
| `Forbidden.OnClick` | src/pages/Forbidden.tsx:70-86 | the page navigates only on "my dashboard", goes back only on "back", and signs out only on "log out" |
| `Forbidden.CentralAdminBouncesBack` | src/pages/Forbidden.tsx:71-77 | as written, an active central admin who clicks "my dashboard" is sent back to `/403` |
| `Forbidden.ProfileTargetIsAdmitted` | src/pages/Forbidden.tsx:17-27 | with the role from the profile, every active central admin, regional admin or user reaches a dashboard that renders |
| `AuditLog.ActionKey` | src/lib/audit-log.ts:23-44 | every declared action has a non-empty wire name |
| `AuditLog.TagOfKey` | src/lib/audit-log.ts:23-44 | each wire name's length and fourth character from the end, per action |
| `AuditLog.ActionKeyInjective` | src/lib/audit-log.ts:23-44 | no two declared actions share a wire name |
| `AuditLog.FormatActionLabel` | src/lib/audit-log.ts:125-145 | the label shown is never empty |
| `AuditLog.LabelsTotal` | src/lib/audit-log.ts:125-145 | every declared action has its own Indonesian label, so the fallback to the raw action name is never taken |
| `AuditLog.BadgeColor` | src/lib/audit-log.ts:150-164 | green when the name holds a positive word; otherwise red for a negative word, then blue for an edit word, then purple for `added`; gray exactly when the name holds none of these words |
| `AuditLog.KeyHoldsVerb` | src/lib/audit-log.ts:23-44 | an action's wire name contains the word for what happened |
| `AuditLog.NoActionIsGray` | src/lib/audit-log.ts:150-164 | no declared action gets the gray badge |
| `AuditLog.ApprovalsAreGreen` | src/lib/audit-log.ts:150-153 | a regional claim approval, a verified payment and an issued NIP are all green |
| `AuditLog.Store.constructor` | src/lib/audit-log.ts:46-47 | the trail starts empty |
| `AuditLog.Store.LogAuditEntry` | src/lib/audit-log.ts:59-85 | the stamped entry is returned and put first, ahead of the older entries in their order, and only the 100 newest entries are kept |
| `AuditLog.Store.GetAuditLogs` | src/lib/audit-log.ts:90-92 | the caller gets a new array holding the stored entries in order |
| `AuditLog.Store.ByAction` | src/lib/audit-log.ts:97-99 | exactly the stored entries with that action, as many as there are, in the store's order (newest first) |
| `AuditLog.Store.ByActor` | src/lib/audit-log.ts:104-106 | exactly the stored entries by that actor, as many as there are, in the store's order |
| `AuditLog.Store.ByRegion` | src/lib/audit-log.ts:111-113 | exactly the stored entries carrying that region, as many as there are, in the store's order; entries without a region never match |
| `AuditLog.Store.Clear` | src/lib/audit-log.ts:118-120 | the trail is empty afterwards |
| `AuditLog.NewestMatchFirst` | src/lib/audit-log.ts:68-73 | after an entry is logged, filtering by its action returns it first, followed by the earlier matches that survive the cap |
| `CharterDownload.CollapseWhitespace` | src/lib/charter-download.ts:78 | the result is never longer than its input |
| `CharterDownload.CollapseSafe` | src/lib/charter-download.ts:77-78 | once only letters, digits and whitespace are left, collapsing the whitespace leaves only letters, digits and underscores |
| `CharterDownload.Sanitize` | src/lib/charter-download.ts:76-79 | a sanitised name has at most 50 characters, each an ASCII letter, a digit or an underscore |
| `CharterDownload.CollapseSeparates` | src/lib/charter-download.ts:78 | on a string without underscores, the result never has two underscores side by side and starts with one only when the input starts with whitespace |
| `CharterDownload.SanitizedShape` | src/lib/charter-download.ts:76-79 | a sanitised name never has two underscores in a row, because the original underscores are removed first |
| `CharterDownload.PlainNameUnchanged` | src/lib/charter-download.ts:76-79 | a name of at most 50 ASCII letters and digits is kept as it is |
| `CharterDownload.NoWhitespaceUnchanged` | src/lib/charter-download.ts:78 | a string without whitespace is left as it is |
| `CharterDownload.CollapseRun` | src/lib/charter-download.ts:78 | a run of whitespace between two words, however long, becomes exactly one underscore |
| `CharterDownload.CollapseKeepsWord` | src/lib/charter-download.ts:78 | characters that are not whitespace are kept as they are in front of what follows |
| `CharterDownload.PiagamFilename` | src/lib/charter-download.ts:74-82 | the charter file name is `Piagam_MPJ_`, then the sanitised name, then `.jpg` |
| `CharterDownload.CardWord` | src/lib/charter-download.ts:96 | the card-type word is `Virtual` or `Fisik`, letters only |
| `CharterDownload.EidFilename` | src/lib/charter-download.ts:90-98 | the member card file name is `EID_MPJ_`, the sanitised name, an underscore, the card-type word, then `.jpg` |
| `CharterDownload.PiagamFilenameIsFlat` | src/lib/charter-download.ts:74-82 | whatever the name, the charter file name is at most 65 characters and, before its `.jpg`, has no slash, backslash or dot |
| `CharterDownload.EidFilenameIsFlat` | src/lib/charter-download.ts:90-98 | whatever the name, the member card file name is at most 70 characters and, before its `.jpg`, has no slash, backslash or dot |
| `LaporanDokumentasi.FileCount` | src/components/regional-dashboard/LaporanDokumentasi.tsx:122 | the report's file count is the number of chosen files, or 0 when none were chosen |
| `LaporanDokumentasi.NewReport` | src/components/regional-dashboard/LaporanDokumentasi.tsx:112-123 | a submitted form becomes a pending report carrying the form's title, kind and event, the given id and date, and the number of chosen files |
| `LaporanDokumentasi.UploadAddsOnePending` | src/components/regional-dashboard/LaporanDokumentasi.tsx:125 | putting the new report at the head of the list adds exactly one pending report and leaves the number of approved reports unchanged |
| `LaporanDokumentasi.ReportsPage.constructor` | src/components/regional-dashboard/LaporanDokumentasi.tsx:85-93 | the screen starts with the three sample reports, the form hidden and the form empty with kind `foto` |
| `LaporanDokumentasi.ReportsPage.ToggleUploadForm` | src/components/regional-dashboard/LaporanDokumentasi.tsx:189 | the upload button flips whether the form is shown and keeps the reports and the form's contents |
| `LaporanDokumentasi.ReportsPage.CancelUploadForm` | src/components/regional-dashboard/LaporanDokumentasi.tsx:298 | cancel hides the form and keeps what was typed |
| `LaporanDokumentasi.ReportsPage.EditJudul` | src/components/regional-dashboard/LaporanDokumentasi.tsx:214 | typing a title changes only the form's title |
| `LaporanDokumentasi.ReportsPage.EditJenis` | src/components/regional-dashboard/LaporanDokumentasi.tsx:221-223 | choosing a kind changes only the form's kind |
| `LaporanDokumentasi.ReportsPage.EditEventTerkait` | src/components/regional-dashboard/LaporanDokumentasi.tsx:240 | choosing an event changes only the form's event |
| `LaporanDokumentasi.ReportsPage.EditDeskripsi` | src/components/regional-dashboard/LaporanDokumentasi.tsx:259 | typing a description changes only the form's description |
| `LaporanDokumentasi.ReportsPage.HandleFileChange` | src/components/regional-dashboard/LaporanDokumentasi.tsx:95-99 | a chosen file list replaces the previous one; no file list leaves the form unchanged |
| `LaporanDokumentasi.ReportsPage.HandleSubmit` | src/components/regional-dashboard/LaporanDokumentasi.tsx:101-134 | a form without a title or an event changes nothing; otherwise the new pending report goes in front of the old list, which keeps its order, and the form is emptied and hidden |
| `PengaturanAdmin.SaveProfile` | src/components/dashboard/PengaturanAdmin.tsx:29-35 | saving the profile is refused exactly when the name is empty |
| `PengaturanAdmin.AvatarInitial` | src/components/dashboard/PengaturanAdmin.tsx:76 | the avatar fallback is empty exactly for an empty name, otherwise the name's first character in capitals, and never holds a lower-case ASCII letter |
| `PengaturanAdmin.CheckPasswords` | src/components/dashboard/PengaturanAdmin.tsx:37-50 | the password checks report, in this order, a missing field, a confirmation that differs from the new password, then a new password shorter than eight characters |
| `PengaturanAdmin.ChangedIff` | src/components/dashboard/PengaturanAdmin.tsx:37-51 | a change goes through exactly when the current password is given and the new one is confirmed and at least eight characters long |
| `PengaturanAdmin.ShortReportedAfterMissing` | src/components/dashboard/PengaturanAdmin.tsx:38-49 | a short confirmed password is reported as too short only when the current password is given; otherwise the missing field is reported |
| `PengaturanAdmin.SettingsPage.constructor` | src/components/dashboard/PengaturanAdmin.tsx:11-27 | the screen starts with the fixed super admin profile, empty password fields and every password hidden |
| `PengaturanAdmin.SettingsPage.EditName` | src/components/dashboard/PengaturanAdmin.tsx:95 | typing a name changes only the profile's name |
| `PengaturanAdmin.SettingsPage.EditPassword` | src/components/dashboard/PengaturanAdmin.tsx:158-212 | typing in one password field changes that field and nothing else |
| `PengaturanAdmin.SettingsPage.ToggleShown` | src/components/dashboard/PengaturanAdmin.tsx:167-221 | the eye button of one field flips whether that field shows its text and changes nothing else |
| `PengaturanAdmin.SettingsPage.HandleChangePassword` | src/components/dashboard/PengaturanAdmin.tsx:37-52 | the outcome is the checks' verdict, and the password fields are emptied exactly when the change goes through |
| `VerifyOtp.CodeLength` | src/pages/VerifyOTP.tsx:66-68 | the joined code of cells holding at most one character each is as long as the number of filled cells, so it has six characters exactly when no cell is empty |
| `VerifyOtp.Pasted` | src/pages/VerifyOTP.tsx:34-40 | a paste writes one character per cell from the cell it lands in up to the last cell, and leaves the cells before it and after the pasted text as they were |
| `VerifyOtp.TagihanLabel` | src/pages/VerifyOTP.tsx:130-132 | the amount shown is Rp 20.000 exactly for the claim flow and Rp 50.000 for any other |
| `VerifyOtp.OtpPage.constructor` | src/pages/VerifyOTP.tsx:10-13 | the page starts with six empty cells, a 60-second countdown and resending not yet offered |
| `VerifyOtp.OtpPage.HandleChange` | src/pages/VerifyOTP.tsx:31-51 | a value longer than one character is pasted, from its first six characters; a single digit or an empty value is written into its cell; anything else changes nothing; the cells stay six of at most one character |
| `VerifyOtp.OtpPage.HandleVerify` | src/pages/VerifyOTP.tsx:65-116 | a code without six characters changes nothing and stays on the page; a complete one leads to the payment page, handing on the flow type as navigation state, and moves the flow's pending registration or claim, when there is one (an absent pending key stays absent), to the end of its stored list with the verified status and time, leaving the other flow's records and the payments alone |
| `VerifyOtp.OtpPage.Tick` | src/pages/VerifyOTP.tsx:21-28 | while the countdown is above zero a second passes; at zero resending becomes possible; the countdown stays between 0 and 60 |
| `VerifyOtp.OtpPage.HandleResend` | src/pages/VerifyOTP.tsx:119-124 | a resend is ignored until resending is possible; otherwise the countdown restarts at 60 and resending is withdrawn |
| `VerifyOtp.CompleteIffNoEmptyCell` | src/pages/VerifyOTP.tsx:66-68 | the verify handler and the verify button accept a code exactly when all six cells are filled |
| `VerifyOtp.PasteFromFirstCellFillsAll` | src/pages/VerifyOTP.tsx:31-41 | pasting six or more characters into the first cell fills every cell in order, and the joined code is the pasted text's first six characters |
| `Payment.FlowType` | src/pages/Payment.tsx:21 | without a navigation state the page runs the register flow; with one, the flow is the state's type |
| `Payment.Tagihan` | src/pages/Payment.tsx:23 | the fee is 20000 exactly for a legacy claim and 50000 for every other flow |
| `Payment.PaymentRecord` | src/pages/Payment.tsx:89-97 | the stored confirmation carries the id, the flow, the sender name as typed, the flow's fee, the proof file's name, the pending-confirmation status and the submission time |
| `Payment.PaymentPage.constructor` | src/pages/Payment.tsx:12-13 | the page starts with no sender name and no proof file |
| `Payment.PaymentPage.EditSenderName` | src/pages/Payment.tsx:12 | typing the sender name changes only the sender name |
| `Payment.PaymentPage.HandleFileChange` | src/pages/Payment.tsx:46-65 | no file changes nothing; a file over 5 MB is refused and the earlier choice kept; any other file becomes the proof, so a chosen proof is never over 5 MB |
| `Payment.PaymentPage.HandleSubmit` | src/pages/Payment.tsx:67-110 | a sender name made only of whitespace is refused first, then a missing proof; otherwise exactly one confirmation is appended to the stored payments and the page moves on to the payment-pending page; registrations and claims are never touched |
| `Payment.FeeFollowsCodePage` | src/pages/Payment.tsx:21-23 | opened with the flow type the code page hands on, the payment page asks for 20 000 exactly when the code page announced Rp 20.000, and 50 000 exactly when it announced Rp 50.000 |
| `Payment.FeeAgreesAcrossPages` | src/pages/Payment.tsx:23 | the fee asked here equals the fee stored with the pending claim or registration and the amount the code page announces for the same flow |
| `Administrasi.StatusDisplay` | src/components/media-dashboard/Administrasi.tsx:86-118 | each of the four stored statuses has its own label, and any other value shows as Unknown; the red badge marks exactly the unpaid and the rejected payments |
| `Administrasi.PaymentSummary` | src/components/media-dashboard/Administrasi.tsx:333-344 | the summary counts the payments awaiting transfer or verification, sums their total amounts, counts the verified ones and counts all payments |
| `Administrasi.CountsWithinTotal` | src/components/media-dashboard/Administrasi.tsx:333-344 | no payment is counted twice: the outstanding, verified and rejected counts together never exceed the number of payments |
| `Administrasi.TotalPendingOfAppend` | src/components/media-dashboard/Administrasi.tsx:334-335 | one more payment raises the outstanding total by its amount when it is outstanding and leaves the total unchanged otherwise |
| `Administrasi.TotalConcat` | src/components/media-dashboard/Administrasi.tsx:335 | the sum of amounts over two lists laid end to end is the sum of the two sums |
| `Administrasi.AccountStatus` | src/components/media-dashboard/Administrasi.tsx:347-355 | the account shows AKTIF exactly when paid; an unpaid account shows MENUNGGU VERIFIKASI exactly when some payment awaits verification, and BELUM BAYAR exactly when none does |
| `MemberBanner.DaysRemaining` | src/components/shared/BasicMemberBanner.tsx:13-24 | without an approval date there is no count; otherwise the count is the number of days to the deadline seven days after approval, rounded up: the time left lies in the count's last day |
| `MemberBanner.SevenDaysAtApproval` | src/components/shared/BasicMemberBanner.tsx:17-21 | at the moment of approval seven days remain |
| `MemberBanner.ExpiredIffDeadlinePassed` | src/components/shared/BasicMemberBanner.tsx:44 | the banner counts as expired exactly from seven days after the approval on |
| `MemberBanner.UrgentIffLastTwoDays` | src/components/shared/BasicMemberBanner.tsx:45 | the banner is urgent exactly during the last two days before the deadline |
| `MemberBanner.DaysNonIncreasing` | src/components/shared/BasicMemberBanner.tsx:13-24 | the count never goes up as time passes |
| `MemberBanner.ClassesExclusive` | src/components/shared/BasicMemberBanner.tsx:44-45 | the banner is never both expired and urgent, and without an approval date it is neither |
| `MemberBanner.Banner.constructor` | src/components/shared/BasicMemberBanner.tsx:31-35 | the first run of the effect shows the count for the approval date at that moment |
| `MemberBanner.Banner.Refresh` | src/components/shared/BasicMemberBanner.tsx:38-40 | each hourly run shows the count for the same approval date at the new moment |
| `FileValidation.ValidateFileSize` | src/lib/file-validation.ts:12-23 | a file passes exactly when its size in bytes is at most the limit in kilobytes times 1024; a refusal quotes the file's size and the limit |
| `FileValidation.ValidateFileType` | src/lib/file-validation.ts:25-34 | a file passes exactly when its MIME type is in the accepted list; otherwise it is refused as an unsupported format |
| `FileValidation.ValidateFile` | src/lib/file-validation.ts:36-60 | a file passes exactly when it is within the limit (350 KB when none is given) and the type list is absent, empty or holds its type; an oversized file is always refused for its size, and a type refusal happens only with a list that lacks the type |
| `FileValidation.StandardLimit` | src/lib/file-validation.ts:4-5 | the standard limit is 358 400 bytes: a file of exactly that size passes and one byte more is refused |
| `FileValidation.EmptyTypeListRefusesAll` | src/lib/file-validation.ts:25-34 | the type check on its own refuses every file when the accepted list is empty |
| `FileValidation.ValidateFileComposes` | src/lib/file-validation.ts:43-59 | the combined check runs the size check first and the type check only for a non-empty list, and with no options it is the size check at 350 KB |
| `Privacy.Digits` | src/lib/privacy-utils.ts:13 | removing the non-digits leaves only ASCII digits |
| `Privacy.MaskPhoneNumber` | src/lib/privacy-utils.ts:9-23 | an absent or empty number shows as "-"; a number with fewer than six digits is shown as given; otherwise the result is eleven characters: the first four digits, four stars and the last three digits |
| `Privacy.MaskPhoneIdempotent` | src/lib/privacy-utils.ts:9-23 | masking an already masked number gives it back unchanged |
| `Privacy.DigitsAroundStars` | src/lib/privacy-utils.ts:13 | the digits of a run of digits, four stars and another run of digits are the two runs joined |
| `Privacy.MaskEmail` | src/lib/privacy-utils.ts:29-44 | an absent or empty address shows as "-", and one without an '@' or starting with it is shown as given |
| `Privacy.MaskEmailReveals` | src/lib/privacy-utils.ts:32-43 | a well-formed address keeps everything from its first '@' on and shows one character of a local part of up to three characters or three of a longer one, followed by three stars; a local part of two or more characters always has at least one character hidden |
| `Privacy.MaskPart` | src/lib/privacy-utils.ts:55-56 | a part of up to two characters is kept; a longer one keeps its first three characters followed by "**", and a part longer than four also keeps its last two characters; no character is invented |
| `Privacy.MaskName` | src/lib/privacy-utils.ts:50-58 | an absent or empty name shows as "-" |
| `Privacy.MaskNameKeepsParts` | src/lib/privacy-utils.ts:53-57 | masking keeps the number of space-separated parts, and each part of the result is the matching part of the name masked on its own |
| `Privacy.FivePart` | src/lib/privacy-utils.ts:56 | a five-character part is masked as its first three characters, "**" and its last two, so nothing of it is hidden |
| `Privacy.TwoWords` | src/lib/privacy-utils.ts:53-57 | a name of two words without spaces is masked word by word with the space kept |
| `Privacy.FiveLetterWordsShownInFull` | src/lib/privacy-utils.ts:48-57 | as written, a name of two five-letter words is shown in full with "**" inserted in each word, so "Ahmad Fauzi" becomes "Ahm**ad Fau**zi" and not the documented "Ahm** Fau**" |
| `Privacy.MaskPartAsDocumented` | src/lib/privacy-utils.ts:48 | as documented, a part of up to two characters is kept and a longer one shows only its first three characters followed by "**" |
| `Privacy.MaskNameAsDocumented` | src/lib/privacy-utils.ts:46-58 | an absent or empty name shows as "-" |
| `Privacy.MaskNameAsDocumentedKeepsParts` | src/lib/privacy-utils.ts:53-57 | the documented masking keeps the parts apart, each part masked on its own |
| `Privacy.DocumentedTwoWordExample` | src/lib/privacy-utils.ts:48 | with the documented masking a two-word name of words longer than two characters shows the first three characters of each word followed by "**", as in "Ahm** Fau**" |
| `ClaimAccount.MaskEmail` | src/pages/ClaimAccount.tsx:31-34 | an address without '@' shows its first two characters followed by "***@undefined" |
| `ClaimAccount.MaskEmailOneAt` | src/pages/ClaimAccount.tsx:31-34 | an address with a single '@' keeps its whole domain and at most two characters of its local part, followed by "***@" |
| `ClaimAccount.MaskPhone` | src/pages/ClaimAccount.tsx:36-38 | the masked number is the first four characters (all, when shorter), four stars, then the last three characters (all, when shorter), so a number of seven characters or fewer shows some characters twice |
| `ClaimAccount.Find` | src/pages/ClaimAccount.tsx:54-57 | the search finds a record exactly when some legacy record has the query as its email or its phone, and what it finds is such a record |
| `ClaimAccount.FindIsFirst` | src/pages/ClaimAccount.tsx:54-57 | the record found is the first match: no record before it matches |
| `ClaimAccount.PendingClaim` | src/pages/ClaimAccount.tsx:89-96 | the saved claim is the found record with the new password, origin `claim`, a fee of 20000, the pending-code status and the claim time, not yet verified |
| `ClaimAccount.ClaimPage.constructor` | src/pages/ClaimAccount.tsx:21-24 | the page starts at the search step with an empty query, no record and no password |
| `ClaimAccount.ClaimPage.EditQuery` | src/pages/ClaimAccount.tsx:150 | typing the query changes only the query |
| `ClaimAccount.ClaimPage.EditPassword` | src/pages/ClaimAccount.tsx:248 | typing the new password changes only the password |
| `ClaimAccount.ClaimPage.HandleSearch` | src/pages/ClaimAccount.tsx:40-74 | a query made only of whitespace is refused; otherwise the first record whose email or phone equals the query as typed moves the page to the preview, and no match leaves it at the search step; a record is held exactly while past the search step |
| `ClaimAccount.ClaimPage.NotMine` | src/pages/ClaimAccount.tsx:209-213 | "not mine" returns to an empty search without a record |
| `ClaimAccount.ClaimPage.ItIsMine` | src/pages/ClaimAccount.tsx:219 | "it is me" moves on to the password step with the same record |
| `ClaimAccount.ClaimPage.Back` | src/pages/ClaimAccount.tsx:272 | "back" returns from the password step to the preview of the same record |
| `ClaimAccount.ClaimPage.HandleConfirm` | src/pages/ClaimAccount.tsx:76-106 | a password shorter than six characters is refused with nothing saved; otherwise the claim is saved as the pending claim and the page moves on to the code page with the flow type `claim` and the found record's email and phone as navigation state; registrations, claims and payments are untouched |
| `CrewRoster.Avatar` | src/components/media-dashboard/ManajemenKru.tsx:77 | a new member's avatar has at most two characters |
| `CrewRoster.Firsts` | src/components/media-dashboard/ManajemenKru.tsx:77 | the first characters of a list of non-empty words, one per word, in order |
| `CrewRoster.InitialsOfWords` | src/components/media-dashboard/ManajemenKru.tsx:77 | taking the first character of every part of the name, empty parts giving nothing, yields the first characters of the non-empty parts in order |
| `CrewRoster.AvatarMeaning` | src/components/media-dashboard/ManajemenKru.tsx:77 | the avatar holds the upper-cased first letters of the name's first two words, empty words from repeated spaces skipped |
| `CrewRoster.TwoWordAvatar` | src/components/media-dashboard/ManajemenKru.tsx:77 | a two-word name gives the upper-cased first letters of both words, as "Ahmad Fauzi" gives "AF" |
| `CrewRoster.FilterKeepsDistinct` | src/components/media-dashboard/ManajemenKru.tsx:90 | removing members from a roster whose ids are distinct keeps the remaining ids distinct |
| `CrewRoster.Roster.RemainingSlots` | src/components/media-dashboard/ManajemenKru.tsx:97 | with a valid roster there are between zero and two free slots |
| `CrewRoster.Roster.constructor` | src/components/media-dashboard/ManajemenKru.tsx:34-50 | the roster starts with the coordinator alone, the dialog closed and an empty draft |
| `CrewRoster.Roster.OpenDialog` | src/components/media-dashboard/ManajemenKru.tsx:108-117 | the add button and the empty-slot cards, offered only while a slot is free, open the dialog and change nothing else |
| `CrewRoster.Roster.CloseDialog` | src/components/media-dashboard/ManajemenKru.tsx:108 | dismissing the dialog keeps the roster and the draft |
| `CrewRoster.Roster.EditDraft` | src/components/media-dashboard/ManajemenKru.tsx:129-145 | the dialog's inputs set the draft's name, number and skill, the skill being one of the offered options |
| `CrewRoster.Roster.HandleAddMember` | src/components/media-dashboard/ManajemenKru.tsx:61-87 | a draft with a missing name, number or skill changes nothing; otherwise one member with the draft's details, the member role, the draft's skill and the name's avatar is appended, the draft is emptied and the dialog closed; the roster stays at most three, coordinator first, ids distinct |
| `CrewRoster.Roster.HandleDeleteMember` | src/components/media-dashboard/ManajemenKru.tsx:89-95 | deleting removes exactly the members with that id, keeps the others in order and keeps the coordinator first |
| `Gamifikasi.Reached` | src/components/dashboard/Gamifikasi.tsx:235-238 | when some level's threshold is within the XP total, the level found is one with the highest such threshold, the earliest of those on a tie; otherwise nothing is found, exactly when every threshold is above the total |
| `Gamifikasi.LevelByXP` | src/components/dashboard/Gamifikasi.tsx:235-238 | there is a level to show exactly when the list is non-empty; it is one of the levels, the one with the highest threshold reached when one is reached, and the first level when none is |
| `Gamifikasi.InitialLevelBands` | src/components/dashboard/Gamifikasi.tsx:106-112 | with the screen's own levels in their initial ascending order, a total below 500 (negative included) gives Muhibbin, 500-1499 Penggerak, 1500-2999 Aktivis, 3000-4999 Khodim and 5000 or more Tokoh |
| `Gamifikasi.RenderedLevelsDescending` | src/components/dashboard/Gamifikasi.tsx:414 | the level list the render's in-place sort leaves is the initial levels in strictly descending threshold order |
| `Gamifikasi.RenderedLevelBands` | src/components/dashboard/Gamifikasi.tsx:414 | on the rendered screen the bands from 0 on are the same, but a negative total falls back to the first level of the sorted list, Tokoh |
| `Gamifikasi.EditRules` | src/components/dashboard/Gamifikasi.tsx:158 | editing a rule overwrites the key, label, XP value and limit of the rules with that id and keeps their activity; every other rule is unchanged |
| `Gamifikasi.ToggleRules` | src/components/dashboard/Gamifikasi.tsx:175-177 | toggling flips the activity of the rules with that id and leaves the others unchanged |
| `Gamifikasi.ToggleTwice` | src/components/dashboard/Gamifikasi.tsx:175-177 | toggling the same rule twice gives back the list |
| `Gamifikasi.EditBadges` | src/components/dashboard/Gamifikasi.tsx:187 | editing a badge overwrites the name, icon, trigger and condition of the badges with that id with the form's, keeping the users count the badge had when its dialog opened; the others are unchanged |
| `Gamifikasi.EditLevels` | src/components/dashboard/Gamifikasi.tsx:212 | editing a level overwrites the name, threshold and colour of the levels with that id in place, without re-sorting; the others are unchanged |
| `Gamifikasi.Insert` | src/components/dashboard/Gamifikasi.tsx:219 | inserting a level into a list in threshold order keeps it in order and adds exactly that level |
| `Gamifikasi.KeepsHead` | src/components/dashboard/Gamifikasi.tsx:219 | a level that comes before the rest of a sorted list and before the inserted level still comes first after the insertion |
| `Gamifikasi.SortByMinXP` | src/components/dashboard/Gamifikasi.tsx:219 | sorting by threshold gives a list in threshold order with the same levels |
| `Gamifikasi.SortByMinXPStable` | src/components/dashboard/Gamifikasi.tsx:219 | the sort is stable: levels with the same threshold keep their relative order |
| `Gamifikasi.InsertStable` | src/components/dashboard/Gamifikasi.tsx:219 | an inserted level goes after every level that shares its threshold |
| `Gamifikasi.InsertFrontStable` | src/components/dashboard/Gamifikasi.tsx:219 | a level placed in front of higher thresholds comes first among its own threshold's levels |
| `Gamifikasi.AboveHeadNotAt` | src/components/dashboard/Gamifikasi.tsx:219 | a sorted list that starts above a threshold holds no level with that threshold |
| `Gamifikasi.SortSortedUnchanged` | src/components/dashboard/Gamifikasi.tsx:219 | a list already in threshold order is left as it is by the sort |
| `Gamifikasi.InsertAtEnd` | src/components/dashboard/Gamifikasi.tsx:219 | a level whose threshold is not below any in a sorted list is inserted at its end |
| `Gamifikasi.AddLevelToSortedList` | src/components/dashboard/Gamifikasi.tsx:219 | adding a level to a list in threshold order and sorting places it after every level whose threshold is not above its own, the others keeping their order |
| `Gamifikasi.GamificationPage.constructor` | src/components/dashboard/Gamifikasi.tsx:129-146 | the screen starts with its five rules, four badges and five levels, blank forms and nothing being edited |
| `Gamifikasi.GamificationPage.OpenXPRule` | src/components/dashboard/Gamifikasi.tsx:276-328 | opening the XP dialog on a rule copies its fields into the form; opening it for a new rule gives the blank form; the lists are untouched; the other two dialogs keep their forms and editing targets |
| `Gamifikasi.GamificationPage.EditXPForm` | src/components/dashboard/Gamifikasi.tsx:590-614 | the XP dialog's inputs change only the form; the other two dialogs keep their forms and editing targets |
| `Gamifikasi.GamificationPage.SaveXPRule` | src/components/dashboard/Gamifikasi.tsx:151-173 | an empty key or label changes nothing; otherwise the rule being edited is overwritten, or a new active rule appended, and the form is reset; badges and levels are untouched; the other two dialogs keep their forms and editing targets |
| `Gamifikasi.GamificationPage.ToggleXPRule` | src/components/dashboard/Gamifikasi.tsx:175-177 | the switch toggles the rule's activity and changes nothing else; the other two dialogs keep their forms and editing targets |
| `Gamifikasi.GamificationPage.OpenBadge` | src/components/dashboard/Gamifikasi.tsx:363-382 | opening the badge dialog on a badge copies its fields into the form; for a new badge the form is blank; the other two dialogs keep their forms and editing targets |
| `Gamifikasi.GamificationPage.EditBadgeForm` | src/components/dashboard/Gamifikasi.tsx:645-680 | the badge dialog's inputs change only the form; the other two dialogs keep their forms and editing targets |
| `Gamifikasi.GamificationPage.SaveBadge` | src/components/dashboard/Gamifikasi.tsx:180-202 | an empty name changes nothing; an edited badge keeps the users count it had when the dialog opened; a new badge is appended with zero users; the form is reset; the other two dialogs keep their forms and editing targets |
| `Gamifikasi.GamificationPage.OpenLevel` | src/components/dashboard/Gamifikasi.tsx:402-435 | opening the level dialog on a level copies its fields into the form; for a new level the form is blank; the other two dialogs keep their forms and editing targets |
| `Gamifikasi.GamificationPage.EditLevelForm` | src/components/dashboard/Gamifikasi.tsx:703-726 | the level dialog's inputs change only the form; the other two dialogs keep their forms and editing targets |
| `Gamifikasi.GamificationPage.SaveLevel` | src/components/dashboard/Gamifikasi.tsx:205-226 | an empty name changes nothing; an edited level is changed in place; a new level is appended and the whole list sorted by threshold; the form is reset; the other two dialogs keep their forms and editing targets |
| `AdminPusatPengaturan.RoleBadge` | src/components/admin-pusat/AdminPusatPengaturan.tsx:154-166 | each role has its own badge text: Admin Pusat, Admin Regional, Admin Finance, and User for the plain user role |
| `AdminPusatPengaturan.NotYetAdmins` | src/components/admin-pusat/AdminPusatPengaturan.tsx:190-192 | the crew offered are exactly the search results whose profile is not the user of a listed admin, each as often as in the results and in result order |
| `AdminPusatPengaturan.CentralAdmins` | src/components/admin-pusat/AdminPusatPengaturan.tsx:282 | the central team list holds exactly the listed admins with the central admin role, as many as there are, in fetch order |
| `AdminPusatPengaturan.RegionalAdmins` | src/components/admin-pusat/AdminPusatPengaturan.tsx:283 | the regional list holds exactly the listed admins with the regional admin role, as many as there are, in fetch order |
| `AdminPusatPengaturan.RoleLists` | src/components/admin-pusat/AdminPusatPengaturan.tsx:282-283 | the two lists never share an admin, a finance admin appears in neither, and together they hold every listed admin except the finance admins and plain users |
| `AdminPusatPengaturan.RoleCounts` | src/components/admin-pusat/AdminPusatPengaturan.tsx:282-283 | counting the admins by central, regional and remaining roles accounts for every listed admin exactly once |
| `AdminPusatPengaturan.Upsert` | src/components/admin-pusat/AdminPusatPengaturan.tsx:226-233 | the role upsert on the user id gives that user the chosen role and leaves every other user's role row as it was |
| `AdminPusatPengaturan.Demote` | src/components/admin-pusat/AdminPusatPengaturan.tsx:259-263 | demotion sets an existing role row to the user role, leaves every other row as it was, and creates no row |
| `AdminPusatPengaturan.PromoteThenRemove` | src/components/admin-pusat/AdminPusatPengaturan.tsx:212-277 | promoting a crew member and then removing them leaves that user with the plain user role, whatever they had before |
| `AdminPusatPengaturan.SettingsPage.constructor` | src/components/admin-pusat/AdminPusatPengaturan.tsx:50-69 | the screen mounts with empty password fields, no admins or regions yet and loading, the dialog closed, no crew selected, the regional admin role chosen and no region |
| `AdminPusatPengaturan.SettingsPage.Load` | src/components/admin-pusat/AdminPusatPengaturan.tsx:75-133 | the admin list is replaced only when some admin role row was found, the regions only when their query returned rows, and loading ends either way |
| `AdminPusatPengaturan.SettingsPage.EditPasswords` | src/components/admin-pusat/AdminPusatPengaturan.tsx:338-348 | typing in the password fields changes only those fields; every field of the page not named here stays |
| `AdminPusatPengaturan.SettingsPage.HandleChangePassword` | src/components/admin-pusat/AdminPusatPengaturan.tsx:135-152 | an empty field is refused with the fields kept; otherwise no password is changed but both fields are emptied; every field of the page not named here stays |
| `AdminPusatPengaturan.SettingsPage.OpenAddDialog` | src/components/admin-pusat/AdminPusatPengaturan.tsx:372 | the add button opens the dialog and keeps the search and selection; every field of the page not named here stays |
| `AdminPusatPengaturan.SettingsPage.TypeCrewQuery` | src/components/admin-pusat/AdminPusatPengaturan.tsx:168-210 | a query shorter than two characters empties the offers without searching; otherwise the offers are the results that are not admins yet, so a listed admin is never offered; every field of the page not named here stays |
| `AdminPusatPengaturan.SettingsPage.PickCrew` | src/components/admin-pusat/AdminPusatPengaturan.tsx:610-618 | picking an offered crew member selects it, puts its name in the search box, closes the offers and takes its region when it has one; every field of the page not named here stays |
| `AdminPusatPengaturan.SettingsPage.ChooseRole` | src/components/admin-pusat/AdminPusatPengaturan.tsx:652-659 | one of the three admin roles the select offers (never the plain user role) becomes the chosen role, and nothing else changes; every field of the page not named here stays |
| `AdminPusatPengaturan.SettingsPage.ChooseRegion` | src/components/admin-pusat/AdminPusatPengaturan.tsx:668 | choosing a region changes only the chosen region; every field of the page not named here stays |
| `AdminPusatPengaturan.SettingsPage.CancelAddDialog` | src/components/admin-pusat/AdminPusatPengaturan.tsx:685-690 | cancel closes the dialog and forgets the crew search and selection, keeping the chosen role and region; every field of the page not named here stays |
| `AdminPusatPengaturan.SettingsPage.HandleAddAdmin` | src/components/admin-pusat/AdminPusatPengaturan.tsx:212-252 | no crew member selected is refused first, then a regional admin without a region, then a failed write; on success the crew member's role row is upserted and the dialog closed and emptied; on any refusal the role table is unchanged; every field of the page not named here stays |
| `AdminPusatPengaturan.SettingsPage.AskRemove` | src/components/admin-pusat/AdminPusatPengaturan.tsx:424 | a remove button asks for confirmation of that admin; every field of the page not named here stays |
| `AdminPusatPengaturan.SettingsPage.CancelRemove` | src/components/admin-pusat/AdminPusatPengaturan.tsx:705 | closing the confirmation forgets the target and changes nothing else; every field of the page not named here stays |
| `AdminPusatPengaturan.SettingsPage.HandleRemoveAdmin` | src/components/admin-pusat/AdminPusatPengaturan.tsx:254-279 | without a target nothing happens; a failed write keeps the table and the target (the action button's close then clears it, as `CancelRemove` models); otherwise the target's role row becomes the user role and the target is cleared; every other field of the page stays |
| `RegionalMapping.NewRegionShape` | src/pages/admin-pusat/RegionalMapping.tsx:73-86 | a region added from a name and code that are not blank has a non-empty name without whitespace at either end and a non-empty code no longer than what was typed |
| `RegionalMapping.NewCity` | src/pages/admin-pusat/RegionalMapping.tsx:176 | a new city carries the inserted id, the trimmed name and the selected region's id |
| `RegionalMapping.FilteredCities` | src/pages/admin-pusat/RegionalMapping.tsx:233-235 | without a selected region no city is listed; with one, exactly the cities of that region are listed, in list order |
| `RegionalMapping.MappingPage.constructor` | src/pages/admin-pusat/RegionalMapping.tsx:26-38 | the page starts with no regions, no cities, no selection and empty dialogs, and is consistent |
| `RegionalMapping.MappingPage.Load` | src/pages/admin-pusat/RegionalMapping.tsx:41-65 | each list is replaced by its query's rows when the query returned rows, and kept otherwise; the selection and the dialogs are kept |
| `RegionalMapping.MappingPage.EditRegionDialog` | src/pages/admin-pusat/RegionalMapping.tsx:447-456 | the region dialog's inputs change only its name and code |
| `RegionalMapping.MappingPage.EditCityDialog` | src/pages/admin-pusat/RegionalMapping.tsx:489 | the city dialog's input changes only the city name |
| `RegionalMapping.MappingPage.SelectRegion` | src/pages/admin-pusat/RegionalMapping.tsx:320 | clicking a listed region selects it, changes nothing else and keeps the page consistent |
| `RegionalMapping.MappingPage.HandleAddRegion` | src/pages/admin-pusat/RegionalMapping.tsx:72-115 | a blank name or code is refused, then a failed insert; otherwise the new region with trimmed name and upper-cased trimmed code is appended and selected and the dialog emptied; the cities are untouched and the page stays consistent |
| `RegionalMapping.MappingPage.HandleDeleteRegion` | src/pages/admin-pusat/RegionalMapping.tsx:117-151 | a declined confirmation or a failed delete changes nothing; otherwise the region and every city of it go, the selection is cleared exactly when it was that region, and the page stays consistent |
| `RegionalMapping.MappingPage.HandleAddCity` | src/pages/admin-pusat/RegionalMapping.tsx:153-201 | a blank name is refused first, then a missing selection, then a failed insert; otherwise exactly one city of the selected region is appended and the dialog emptied; the page stays consistent |
| `RegionalMapping.MappingPage.HandleDeleteCity` | src/pages/admin-pusat/RegionalMapping.tsx:203-231 | a declined confirmation or a failed delete changes nothing; otherwise exactly the cities with that id go and the page stays consistent |
| `RegionalMapping.AppendRegionKeepsCities` | src/pages/admin-pusat/RegionalMapping.tsx:92 | appending a region keeps every city's region listed |
| `RegionalMapping.AddRegionKeepsMapped` | src/pages/admin-pusat/RegionalMapping.tsx:92-98 | adding a region and selecting it keeps every city's region listed and the selection listed |
| `RegionalMapping.DeleteRegionKeepsMapped` | src/pages/admin-pusat/RegionalMapping.tsx:131-136 | deleting a region with its cities, and clearing the selection when it was that region, keeps every city's region listed and the selection listed |
| `RegionalMapping.AddCityKeepsMapped` | src/pages/admin-pusat/RegionalMapping.tsx:176-182 | adding a city of the selected region keeps every city's region listed |
| `RegionalMapping.DeleteCityKeepsMapped` | src/pages/admin-pusat/RegionalMapping.tsx:216 | deleting cities keeps every remaining city's region listed |
| `RegionalMapping.CascadeLeavesNoCity` | src/pages/admin-pusat/RegionalMapping.tsx:132 | after a region is deleted none of its cities is listed under it, and every other region lists the same cities in the same order |
| `RegionalMapping.FilterTwice` | src/pages/admin-pusat/RegionalMapping.tsx:132-234 | dropping one region's cities and then keeping another region's gives that other region's cities |
| `RegionalDataAkun.CityCount` | src/pages/admin-pusat/RegionalDataAkun.tsx:90-93 | a region's city count never exceeds the number of fetched cities |
| `RegionalDataAkun.AdminCount` | src/pages/admin-pusat/RegionalDataAkun.tsx:95-100 | a region's admin count never exceeds the number of fetched users |
| `RegionalDataAkun.CityCountMap` | src/pages/admin-pusat/RegionalDataAkun.tsx:90-93 | the one-pass city count map gives every region id (0 when absent) the number of fetched cities naming it |
| `RegionalDataAkun.AdminCountMap` | src/pages/admin-pusat/RegionalDataAkun.tsx:95-100 | the one-pass admin count map gives every region id (0 when absent) the number of regional admins whose region it is, users without a region not counting |
| `RegionalDataAkun.ShownRegions` | src/pages/admin-pusat/RegionalDataAkun.tsx:89-110 | every fetched region is shown, in order, with its city count and its admin count |
| `RegionalDataAkun.FilteredUsers` | src/pages/admin-pusat/RegionalDataAkun.tsx:253-262 | the listed users are exactly those whose pesantren or caretaker name contains the query, ignoring case (any user for an empty query), and who are plain users or regional admins, as many as there are, in fetch order |
| `RegionalDataAkun.FindRegion` | src/pages/admin-pusat/RegionalDataAkun.tsx:167 | a region is found exactly when some listed region has the id, and what is found is such a region |
| `RegionalDataAkun.AssignUsers` | src/pages/admin-pusat/RegionalDataAkun.tsx:216-225 | every entry of the assigned user becomes a regional admin of the chosen region, with its name; every other user is unchanged |
| `RegionalDataAkun.BumpAdminCount` | src/pages/admin-pusat/RegionalDataAkun.tsx:228-232 | the chosen region's admin count goes up by one and every other region is unchanged |
| `RegionalDataAkun.RegionalAccountsPage.constructor` | src/pages/admin-pusat/RegionalDataAkun.tsx:37-46 | the screen starts with no users, no regions, an empty search, no user selected, no region chosen and the dialog closed |
| `RegionalDataAkun.RegionalAccountsPage.Load` | src/pages/admin-pusat/RegionalDataAkun.tsx:48-115 | the users are replaced by the fetched ones when they came back; the regions, when they came back, are shown in order with their city and admin counts, a missing city or user list counting nothing |
| `RegionalDataAkun.RegionalAccountsPage.OpenAssignDialog` | src/pages/admin-pusat/RegionalDataAkun.tsx:147-151 | opening the dialog for a user selects them and preselects the region they already have |
| `RegionalDataAkun.RegionalAccountsPage.ChooseRegion` | src/pages/admin-pusat/RegionalDataAkun.tsx:511 | choosing a region changes only the chosen region |
| `RegionalDataAkun.RegionalAccountsPage.HandleAssignAdmin` | src/pages/admin-pusat/RegionalDataAkun.tsx:154-250 | the checks come in order: a selected user, a chosen region, a listed region, the confirmation for a region without cities, then the role upsert; on success the user becomes the region's admin and its admin count goes up by one whatever the profile update did; otherwise nothing shown changes |
| `RegionalDataAkun.AssignNeverRaisesOtherCount` | src/pages/admin-pusat/RegionalDataAkun.tsx:216-225 | after an assignment, the number of admins of any other region never goes up |
| `RegionalDataAkun.AssignLowersOtherCount` | src/pages/admin-pusat/RegionalDataAkun.tsx:216-225 | when the assigned user was an admin of another region, that region now has fewer admins |
| `RegionalDataAkun.AssignPrefix` | src/pages/admin-pusat/RegionalDataAkun.tsx:216-225 | the assignment applied to all users and then cut before the last is the assignment applied to the others |
| `RegionalDataAkun.CountLast` | src/pages/admin-pusat/RegionalDataAkun.tsx:95-100 | the admin count grows by one for a last user who is an admin of the region and by nothing otherwise |
| `RegionalDataAkun.AssignedLast` | src/pages/admin-pusat/RegionalDataAkun.tsx:216-225 | after an assignment to another region, the last user is an admin of a region only if they were before, and never when they are the assigned user |
| `RegionalDataAkun.ReassignKeepsOldCount` | src/pages/admin-pusat/RegionalDataAkun.tsx:228-232 | moving a regional admin to another region leaves the old region's shown count unchanged although it now has fewer admins, so a count that was right becomes stale until the next fetch |
| `Register.Group` | src/pages/Register.tsx:19-58 | each city of a group of the table is paired with that group's region, in order |
| `Register.Keys` | src/pages/Register.tsx:60 | the table's keys are its cities, one per entry, in the table's order |
| `Register.Find` | src/pages/Register.tsx:81 | a city is found exactly when it is one of the table's keys, and what is found is a region the table pairs with that city |
| `Register.RegionsCoded` | src/pages/Register.tsx:19-58 | the seventeen regions carry the codes "01" to "17" in order, each with a name |
| `Register.TableCodes` | src/pages/Register.tsx:19-58 | every city the table lists maps to one of the seventeen regions |
| `Register.CitiesAreTableKeys` | src/pages/Register.tsx:60 | the city selector offers exactly the table's cities, each as often as the table lists it |
| `Register.PendingRecord` | src/pages/Register.tsx:115-122 | the saved sign-up carries the form's fields, the submission's id and time, the origin "register", the amount 50000 and the status "pending_otp", and is not yet verified |
| `Register.RegisterPage.constructor` | src/pages/Register.tsx:65-76 | the form starts with every field empty and the terms box unticked |
| `Register.RegisterPage.HandleCityChange` | src/pages/Register.tsx:80-88 | choosing a city sets it and fills the region's name and code from the table, both empty for a city the table does not list; nothing else in the form changes |
| `Register.RegisterPage.HandleSubmit` | src/pages/Register.tsx:90-131 | a missing required field is refused first, then an unticked terms box; only a complete, agreed form is saved as the pending registration and moves to the one-time-code step for its email; nothing else in the browser storage changes |
| `Register.SelectedCityHasRegion` | src/pages/Register.tsx:230-240 | a city picked from the selector always fills in a region whose code is one of "01" to "17" |
| `ProfileLeveling.Rank` | src/components/media-dashboard/IdentitasPesantren.tsx:43 | the four levels basic, silver, gold and platinum are ranked 0 to 3 |
| `ProfileLeveling.SetLink` | src/components/media-dashboard/IdentitasPesantren.tsx:130-135 | setting one social link gives it the new text and keeps the other platforms' links |
| `ProfileLeveling.UpdateSets` | src/components/media-dashboard/IdentitasPesantren.tsx:128-137 | after a field change, the named field holds the new value |
| `ProfileLeveling.UpdateKeepsOthers` | src/components/media-dashboard/IdentitasPesantren.tsx:128-137 | a field change leaves every other field and every other social link as it was |
| `ProfileLeveling.KeepsSocial` | src/components/media-dashboard/IdentitasPesantren.tsx:130-135 | a field change leaves the social links of the other platforms as they were |
| `ProfileLeveling.KeepsIdentity` | src/components/media-dashboard/IdentitasPesantren.tsx:137 | a field change leaves the other identity fields, from the institution's name to the media name, as they were |
| `ProfileLeveling.KeepsProfile` | src/components/media-dashboard/IdentitasPesantren.tsx:137 | a field change leaves the other fields of the caretaker and the coordinates as they were |
| `ProfileLeveling.KeepsDetail` | src/components/media-dashboard/IdentitasPesantren.tsx:137 | a field change leaves the other fields of the platinum section as they were |
| `ProfileLeveling.SilverMeaning` | src/components/media-dashboard/IdentitasPesantren.tsx:158-162 | silver can be claimed exactly when the institution's name, the caretaker's name and the address each hold a character other than whitespace |
| `ProfileLeveling.GoldMeaning` | src/components/media-dashboard/IdentitasPesantren.tsx:164-170 | gold can be claimed exactly when silver can, some social link is filled in and both coordinates are given; the logo is not required |
| `ProfileLeveling.PlatinumMeaning` | src/components/media-dashboard/IdentitasPesantren.tsx:172-177 | platinum can be claimed exactly when gold can and the vision and history texts are not blank; the building photo is not required |
| `ProfileLeveling.ClaimsCumulative` | src/components/media-dashboard/IdentitasPesantren.tsx:158-177 | a form that can claim a tier can claim every tier below it |
| `ProfileLeveling.StepCompleteMeaning` | src/components/media-dashboard/IdentitasPesantren.tsx:216-221 | a step counts as complete exactly when it is one of steps 1 to 3 and the level has reached that tier |
| `ProfileLeveling.ButtonMeaning` | src/components/media-dashboard/IdentitasPesantren.tsx:338-339 | exactly the save button of the tier right above the current level is enabled (the conditions at lines 339, 482 and 623) |
| `ProfileLeveling.ProgressMeaning` | src/components/media-dashboard/IdentitasPesantren.tsx:144-155 | progress is 25 for filled basic fields plus 25 for each tier reached, so one of 0, 25, 50, 75 and 100 |
| `ProfileLeveling.ProgressCountsBlankFields` | src/components/media-dashboard/IdentitasPesantren.tsx:147 | basic fields holding only a space earn the basic share of progress although they cannot claim silver |
| `ProfileLeveling.Promotion` | src/components/media-dashboard/IdentitasPesantren.tsx:179-213 | saving a step promotes to exactly that step's tier, and does nothing when the step's claim fails or the step is not 1, 2 or 3 |
| `ProfileLeveling.EmptyForm` | src/components/media-dashboard/IdentitasPesantren.tsx:82-104 | the form's later fields start empty, and a form with every field empty cannot claim silver |
| `ProfileLeveling.OrElse` | src/components/media-dashboard/IdentitasPesantren.tsx:75-79 | a debug value replaces the demo value only when it is present and not empty |
| `ProfileLeveling.InitialForm` | src/components/media-dashboard/IdentitasPesantren.tsx:73-105 | the opening form always has a region and a city, and cannot claim gold |
| `ProfileLeveling.InitialFormRestEmpty` | src/components/media-dashboard/IdentitasPesantren.tsx:82-104 | every field of the opening form other than the school, caretaker, address, region and city is the empty form's |
| `ProfileLeveling.IdentityScreen.constructor` | src/components/media-dashboard/IdentitasPesantren.tsx:67-105 | the screen opens at the level its parent gives, with the form built from the debug profile (or the demo values where it has none) |
| `ProfileLeveling.IdentityScreen.HandleFieldChange` | src/components/media-dashboard/IdentitasPesantren.tsx:128-142 | an input's change sets its field and keeps every other field, the read-only region and city, and the level |
| `ProfileLeveling.IdentityScreen.HandleSaveStep` | src/components/media-dashboard/IdentitasPesantren.tsx:179-213 | saving through an enabled button leaves the form, and either keeps the level or raises it by exactly one tier |
| `Browser.Store.constructor` | src/pages/VerifyOTP.tsx:91 | in a fresh browser profile no pending sign-up or claim is stored and every list key reads as empty |

## Left out

- The backend (Supabase): every query, insert, update, delete and RPC is a given result (rows, an inserted id, success or failure). Query semantics, row-level security and the database triggers are not modelled.
- The asynchronous session listener, deferred profile fetch and sign-out of src/contexts/AuthContext.tsx: only their outputs (loading, session present, profile or none) reach the gate.
- The router's own matching: the route table is resolved as an ordered list of patterns, first match winning, where the router ranks patterns by specificity; the two agree only if no two listed patterns other than the final catch-all match the same path, which is not proved. The location is not percent-decoded before matching, and case is ignored for ASCII letters only.
- Browser storage is one field per key. The JSON encoding is not modelled, and a malformed stored value is not considered.
- Timers, intervals and delays: the one-time-code countdown and the banner refresh are explicit tick methods. The delays before navigating are taken as elapsed. Input focus is not modelled.
- Toasts, icons, colours, layout and other rendering, except where a label or badge text is itself the promised result.
- Date parsing and formatting, `Intl` currency formatting and `toLocaleString`: instants are whole milliseconds and formatted texts are parameters. An approval date that does not parse, which makes the banner's day count NaN so the banner shows neither expired nor urgent, is not modelled.
- String lengths are counted in characters, not UTF-16 code units. Case mapping is ASCII-only: `toUpperCase` and `toLowerCase` outside A-Z and a-z are not modelled.
- Number fields such as amounts, sizes, XP values and limits are unbounded integers, and floating-point arithmetic is not modelled.
- Loading and saving flags (`isLoading`, `isSaving`, `lastSaved`) and the auto-save indicator of the identity screen.
- The chart, leaderboard, season reset and map screens, and every screen that only displays mock data.
- `downloadElementAsJPG` in src/lib/charter-download.ts: image rendering, not modelled.
- The console echo of each audit entry in src/lib/audit-log.ts.
- The profile update that follows an admin assignment in src/pages/admin-pusat/RegionalDataAkun.tsx: its outcome is logged by the screen and changes nothing shown, so the model ignores it.
- The reload of the admin list that follows an add or a remove on the central settings screen: the handlers return the role table they wrote and leave the shown list as it was, and the reload is a separate call of the fetch method.
- Gamifikasi.LevelByXP: reads the level list as given. The in-place descending sort that the screen's render applies to the level state (src/components/dashboard/Gamifikasi.tsx:414) is not modelled as a step of the page; its outcome on the initial levels is the fixed list RenderedLevels.
- Gamifikasi.InitialLevelBands: states the bands for the levels in their initial order, which no rendered screen reads; RenderedLevelBands gives what the screen shows.
- Payment.FlowType: a navigation state without a `type` field is treated as absent and so runs the register flow. The source would carry `undefined` through to the stored record.
- AdminPusatPengaturan.SettingsPage.TypeCrewQuery: a search that returns no data object, which keeps the previous offers, is not modelled. Neither are search results that arrive out of order.
- AdminPusatPengaturan.SettingsPage.HandleAddAdmin: the region chosen for a new regional admin is only checked for presence. The source's upsert carries just the user and the role, so the model's role table records only the role.
- Administrasi.AccountStatus: states the status text only, not the badge's classes.
- Register.CitiesAreTableKeys: counts each city as often as the table lists it. That the table's keys are distinct is not proved.
- ProfileLeveling.IdentityScreen.HandleFieldChange: requires a field that one of the screen's inputs edits, since the region and city inputs are disabled. A call naming another key is not modelled.
- ProfileLeveling.IdentityScreen.HandleSaveStep: requires the step's button to be enabled, the only way the screen calls it.
- RegionalDataAkun.ReassignKeepsOldCount: documents that the old region's shown admin count goes stale after a reassignment; the model follows the source and does not correct it.

## Findings

| source | as written | input that shows it | evidently intended | confidence | as-written member | corrected member |
|---|---|---|---|---|---|---|
| src/lib/privacy-utils.ts:56 | a part longer than four characters keeps its last two characters after the "**" | "Ahmad Fauzi" gives "Ahm**ad Fau**zi" | the documented example at line 48, "Ahmad Fauzi" shown as "Ahm** Fau**": three characters and "**" per part | medium, not executed | `Privacy.FiveLetterWordsShownInFull` | `Privacy.DocumentedTwoWordExample` |
| src/pages/Forbidden.tsx:9 | `role` is read from the authentication context, whose value (src/contexts/AuthContext.tsx:21-27) has no such field | an active central admin on `/403` clicks "my dashboard" and is sent to `/media-dashboard`, which the gate turns back to `/403` | the role taken from the signed-in profile, leading each admin to their own dashboard | medium, not executed | `Forbidden.CentralAdminBouncesBack` | `Forbidden.ProfileTargetIsAdmitted` |
