# CertiFlow attendee registry — a Dafny model

CertiFlow is a small React application for running event check-ins. It has these parts:

- **Registry.** Organizers import a roster of registrations ("Name, Email" lines pasted from a form export) into a registry of attendees.
- **Public check-in.** Attendees check in through a public page that looks up their email, "verifies" them, generates a certificate and mails it.
- **Certificate screen.** Organizers send certificates from here, one at a time or in bulk, to everyone eligible.
- **Dashboard.** A dashboard shows four figures; the model covers three of them (registered, verified, certificates sent).

The repository contains two variants of the top-level component:

- `App.tsx`, the root variant;
- `components/App.tsx`, the admin variant. It checks for a match before marking attendance and sends certificates through a separate, case-sensitive `markCertificateSent`.

This project models the registry and the lifecycle rules around it:

| module | file | what it holds |
|---|---|---|
| `Types` | `types.dfy` | the `Attendee` and `EventConfig` records |
| `Text` | `text.dfy` | ASCII `toLowerCase`, ECMAScript `trim`, one-character `split`/`join` |
| `Lists` | `lists.dfy` | order-preserving `filter` and the subsequence relation |
| `Registry` | `registry.dfy` | the pure list transforms of both App variants: merge on import, the case-insensitive attendance transition, the case-sensitive certificate flag |
| `Registration` | `registration.dfy` | the roster text parser |
| `CertificateManager` | `certificate_manager.dfy` | the eligibility filter, the sent count, and a `Manager` class for single and bulk sends, with `onSent` recorded as a trace |
| `PublicCheckIn` | `public_check_in.dfy` | the lookup, the thank-you note, and a `Session` class: the `idle → verifying → processing → success/error → idle` state machine, with `onVerify` recorded as a trace |
| `Dashboard` | `dashboard.dfy` | the three dashboard figures |
| `RootApp`, `AdminApp` | `root_app.dfy`, `admin_app.dfy` | the two App variants as classes holding the `attendees` state. Each handler assigns a pure function of the old list to the state field. Each variant's fold of its `onSent` handler over a send trace is `AfterSends`. |

Random ids and ISO timestamps are parameters `idOf`/`stampOf`, indexed by record position. The outcomes of geolocation, image composition, the text-generation service and mail dispatch are inputs to the steps that consume them.

An import does not drop duplicates within one batch: `App.tsx:51-52` filters the batch only against the existing list, and the model does the same. `Registry.BatchDuplicatesBothAppended` shows the consequence: two new candidates with the same lower-cased email are both appended, and the registry loses its unique-key property. `Registry.MergePreservesUniqueKeys` proves the property holds when the batch itself has no duplicates.

## Model

| member | source | states |
|---|---|---|
| Text.LowerChar | App.tsx:51-52 | lower-casing one character: the result is never an ASCII capital; capitals move by 32, everything else is kept |
| Text.Lower | App.tsx:51-52 | `toLowerCase` keeps the length and lower-cases position by position |
| Text.LowerIdempotent | components/PublicCheckIn.tsx:32-33 | lower-casing an already lower-cased string changes nothing |
| Text.TrimStart | components/Registration.tsx:22-23 | the result is the suffix left after the leading white space is dropped; it does not start with white space |
| Text.TrimEnd | components/Registration.tsx:22-23 | the result is the prefix left after the trailing white space is dropped; it does not end with white space |
| Text.Trim | components/Registration.tsx:17 | `trim()` is empty exactly when the string is all white space; otherwise it neither starts nor ends with white space |
| Text.TrimIdentity | components/Registration.tsx:22-23 | a string without white space at either end is its own trim |
| Text.TrimLower | components/PublicCheckIn.tsx:32 | trimming and lower-casing commute |
| Text.Split | components/Registration.tsx:17-20 | `split(sep)` gives at least one piece, and no piece contains the separator |
| Text.JoinSplit | components/Registration.tsx:17-20 | joining the pieces of a split gives the original text back |
| Text.SplitJoin | components/Registration.tsx:17-20 | splitting a join of separator-free pieces gives the pieces back |
| Text.SplitPieces | components/Registration.tsx:19-20 | a split has two or more pieces exactly when the separator occurs; without it, the string is its own single piece |
| Lists.Filter | components/CertificateManager.tsx:15 | `filter` keeps exactly the elements that pass the test, and never lengthens the list |
| Lists.FilterMultiset | components/Registration.tsx:17 | `filter` keeps every passing element as many times as it occurs, and drops every other element entirely |
| Lists.FilterIsSubsequence | components/CertificateManager.tsx:15 | `filter` keeps the relative order of the kept elements |
| Lists.FilterAllOrNone | components/Registration.tsx:17 | a filter every element passes is the identity; one no element passes gives the empty list |
| Lists.FilterLengthMonotone | components/Dashboard.tsx:21 | if, position by position, passing one filter implies passing the other, the second count is at least the first |
| Registry.Merge | App.tsx:49-57 | `addAttendees`: the old list is kept as a prefix; the appended part holds exactly the batch candidates whose lower-cased email is not yet registered; the length grows by at most the batch size; multiplicity and order are fixed by `MergeMultiset` and `MergeKeepsBatchOrder` |
| Registry.MergeMultiset | App.tsx:52-53 | the appended part holds each new candidate exactly as many times as the batch does, and no candidate whose email is already registered |
| Registry.MergeKeepsBatchOrder | App.tsx:52-53 | the appended candidates keep their batch order |
| Registry.MergeCoversBatch | App.tsx:51-53 | after an import, every batch email is registered under its lower-cased key |
| Registry.MergeIdempotent | components/App.tsx:44-46 | importing the same batch twice adds nothing the second time |
| Registry.MergePreservesUniqueKeys | App.tsx:51-53 | a registry without duplicate keys keeps that property after importing a batch without duplicate keys |
| Registry.BatchDuplicatesBothAppended | App.tsx:51-52 | two new candidates with the same lower-cased email are both appended, because the filter consults only the old list; the result has a duplicate key |
| Registry.Attended | App.tsx:63 | the attended record: scanned, location flag as given, certificate sent; identity fields unchanged |
| Registry.MarkAttendance | App.tsx:59-69 | `markAttendance` keeps length and order; every case-insensitively matching record gets the three flags; every other record is unchanged |
| Registry.MarkAttendanceNoMatch | App.tsx:61-65 | an email matching no record leaves the list equal to the old one |
| Registry.MarkAttendanceIdempotent | App.tsx:61-65 | marking twice with the same arguments is marking once |
| Registry.MarkAttendanceChecked | components/App.tsx:50-58 | the admin `markAttendance` returns the old list when nothing matches, and otherwise performs the attendance transition |
| Registry.MarkAttendanceVariantsAgree | components/App.tsx:52-56 | the admin variant's existence check never changes the resulting list: both variants agree on every input |
| Registry.MarkCertificateSent | components/App.tsx:60-64 | records whose email equals the argument exactly get `certificateSent` and keep their scan and location flags; all other records are unchanged |
| Registry.CertificateMatchIsCaseSensitive | components/App.tsx:62 | a record whose email differs from the argument only in case is left alone by `markCertificateSent` but changed by `markAttendance` |
| Registry.CertificateSentMonotone | components/App.tsx:44-63 | no operation (merge, either `markAttendance`, `markCertificateSent`) turns `certificateSent` from true to false |
| Registry.Emails | components/CertificateManager.tsx:69 | the emails handed to `onSent`, one per record and in order |
| Registration.ContentLineTrim | components/Registration.tsx:17 | a line survives the blank-line filter exactly when its trim is non-empty |
| Registration.Lines | components/Registration.tsx:17 | the surviving lines are exactly the newline-pieces whose trim is non-empty, each kept as many times as it occurs in the text (a row pasted twice gives two lines); none contains a newline |
| Registration.Records | components/Registration.tsx:18-35 | one record per line, in order; record `i` is the parse of line `i` with id `idOf(i)` and timestamp `stampOf(i)` |
| Registration.LinesKeepOrder | components/Registration.tsx:17 | the surviving lines keep their order in the text |
| Registration.Fields | components/Registration.tsx:19-20 | a line with a comma is split on commas (two or more fields); one without is split on tabs |
| Registration.ParseLine | components/Registration.tsx:22-34 | each record carries the given id and timestamp; it is registered and not scanned, located or sent; its name and email are never empty |
| Registration.ParseRoster | components/Registration.tsx:14-40 | one record per surviving line, in order, each the parse of that line; every record is registered and unverified; the whole list is one batch |
| Registration.CommaLine | components/Registration.tsx:19-23 | `name,email[,more…]` yields the trimmed name and email, or their defaults when blank; the fields after the second are ignored |
| Registration.FieldsDecide | components/Registration.tsx:22-23 | the name and email of a record are decided by the first two fields alone |
| Registration.TabLine | components/Registration.tsx:20-23 | a comma-free `name<TAB>email` line is read on the tab |
| Registration.NameOnlyLine | components/Registration.tsx:20-23 | a line with neither separator is a name alone, with the default email |
| Registration.BlankTextImportsNothing | components/Registration.tsx:17 | text that is all white space imports no record |
| Registration.TwoLines | components/Registration.tsx:17 | two content lines joined by a newline are read as exactly those two lines |
| Registration.PlainCommaLine | components/Registration.tsx:22-23 | a line `name,email` of already-trimmed, non-empty fields yields exactly that name and email |
| Registration.TwoLineRoster | components/Registration.tsx:14-37 | a two-line roster of plain fields gives two registered, unverified records with those names and emails, in that order |
| CertificateManager.Eligible | components/CertificateManager.tsx:15 | an attendee is eligible exactly when it is registered and is scanned, located and not yet sent; with `EligibleKeepsOrder` and `EligibleMultiset` the list is the order-preserving selection of those records, copies included |
| CertificateManager.EligibleMultiset | components/CertificateManager.tsx:15 | the eligible list keeps each eligible record as many times as the registry holds it, and drops every other record |
| CertificateManager.EligibleKeepsOrder | components/CertificateManager.tsx:15 | the eligible list keeps the registry order |
| CertificateManager.SentCount | components/CertificateManager.tsx:106 | the sent count is at most the list length, and is zero exactly when no record has its certificate sent |
| CertificateManager.SentCountSnoc | components/CertificateManager.tsx:106 | the sent count is 0 for the empty list, and appending a record adds one exactly when that record's certificate was sent |
| CertificateManager.Manager.constructor | components/CertificateManager.tsx:13-14 | no template, not processing, nothing sent yet |
| CertificateManager.Manager.BulkSendEnabled | components/CertificateManager.tsx:113 | the bulk button is enabled when there is a (non-empty) template, the eligible list is non-empty and no send is running |
| CertificateManager.Manager.BulkSendEnabledWhenSomeoneEligible | components/CertificateManager.tsx:113 | the bulk button is enabled exactly when there is a (non-empty) template, no send is running and some registry record is eligible |
| CertificateManager.Manager.HasTemplate | components/CertificateManager.tsx:30 | `templateFile` is truthy: present and not the empty string |
| CertificateManager.Manager.CanRender | components/CertificateManager.tsx:30-34 | the guard of `generateAndSend`: a non-empty template, a canvas and a 2D context |
| CertificateManager.Manager.SetTemplate | components/CertificateManager.tsx:18-26 | uploading or removing the template sets it |
| CertificateManager.Manager.GenerateAndSend | components/CertificateManager.tsx:29-75 | without a template, canvas or context nothing is sent; otherwise `onSent(attendee.email)` is called exactly once, whether the text service answers or fails |
| CertificateManager.Manager.HandleBulkSend | components/CertificateManager.tsx:77-89 | no-op for an empty eligible list; otherwise one send per eligible attendee, in order, with `isProcessing` lowered at the end |
| CertificateManager.Manager.SendEach | components/CertificateManager.tsx:81-85 | the loop appends the emails of the snapshot, in order, when a certificate can be drawn, and nothing otherwise |
| CertificateManager.EmailsSnoc | components/CertificateManager.tsx:81-85 | extending the processed prefix by one attendee extends its email list by that attendee's email |
| Dashboard.Counts | components/Dashboard.tsx:19-21 | registered is the list length; verified and sent are at most that; the sent figure equals the certificate screen's sent count |
| Dashboard.CountsSnoc | components/Dashboard.tsx:19-21 | all three figures are 0 for the empty list; appending a record adds one to registered, one to verified exactly when it is located, and one to sent exactly when its certificate was sent |
| Dashboard.SentCountMonotone | components/Dashboard.tsx:21 | flags that never go from sent to unsent give a sent figure that never decreases |
| Dashboard.FiguresNeverDecrease | components/Dashboard.tsx:19-21 | no registry operation lowers the registered figure (import) or the sent figure (import, both marks) |
| PublicCheckIn.FallbackNote | components/PublicCheckIn.tsx:88 | the canned thank-you note names the event |
| PublicCheckIn.ThankYouNote | components/PublicCheckIn.tsx:88-98 | the note is never empty: it is the service's reply when that reply has text, and the canned note on failure or an empty reply |
| PublicCheckIn.FindKey | components/PublicCheckIn.tsx:33 | the first index from the start position whose lower-cased email is the key; none exactly when no such index exists |
| PublicCheckIn.Lookup | components/PublicCheckIn.tsx:32-33 | the first record whose lower-cased email equals the trimmed, lower-cased input; none exactly when no record matches |
| PublicCheckIn.LookupIgnoresCase | components/PublicCheckIn.tsx:32 | the case of the typed email does not change which record is found |
| PublicCheckIn.Session.constructor | components/PublicCheckIn.tsx:18-21 | empty email, `idle`, no message, no certificate, no `onVerify` calls |
| PublicCheckIn.Session.TypeEmail | components/PublicCheckIn.tsx:142-151 | the email field changes only in `idle`, where it is shown |
| PublicCheckIn.Session.CanSubmit | components/PublicCheckIn.tsx:142-156 | the submit button is shown only in `idle` and enabled only when the email contains '@' |
| PublicCheckIn.Session.Submit | components/PublicCheckIn.tsx:31-41 | nothing happens outside `idle` or without '@' in the email; otherwise the attempt takes the `config` and `attendees` props of the render it was submitted on, and the lookup runs against those `attendees`: an unknown email gives `error` / not-found without `onVerify`; a known one gives `verifying` for the first match |
| PublicCheckIn.Session.Resolve | components/PublicCheckIn.tsx:32-41 | the attempt keeps the given props; a missing record gives `error` with the not-found notice; a found one gives `verifying` for that record |
| PublicCheckIn.Session.LocationSettled | components/PublicCheckIn.tsx:44-54 | both geolocation outcomes move `verifying` to `processing`; no other state changes |
| PublicCheckIn.Session.RendersCertificate | components/PublicCheckIn.tsx:62 | a certificate is drawn only with a non-empty template and a mounted canvas |
| PublicCheckIn.Session.FinishAutomation | components/PublicCheckIn.tsx:57-129 | composition happens only under `RendersCertificate` (a non-empty template and a canvas); a failed composition there gives `error` without `onVerify`; otherwise, including any render outcome when no certificate is drawn (the default configuration has no template), the note is prepared with its fallback, a mail failure is ignored, `onVerify(email, true)` is called once for the found attendee, and the session succeeds |
| PublicCheckIn.Session.Compose | components/PublicCheckIn.tsx:62-98 | the certificate image is kept when one is drawn; the note is the service's reply or the canned fallback |
| PublicCheckIn.Session.Confirm | components/PublicCheckIn.tsx:119-122 | exactly one `onVerify(email, true)` is appended, then `success` with the check-in message for that email |
| PublicCheckIn.Session.Reset | components/PublicCheckIn.tsx:196-214 | "Back" and "Try Again" return `success` and `error` to `idle`; other states are kept |
| RootApp.AfterSends | App.tsx:92 | the fold of `markAttendance(email, true)` over a run of sends keeps the list length and every record's identity fields |
| RootApp.AfterSendsPointwise | App.tsx:92 | after a sequence of root-variant sends, a record is attended exactly when some sent email matched it case-insensitively; otherwise it is unchanged |
| RootApp.BulkSendDrainsEligible | App.tsx:92 | a bulk send routed through `markAttendance(email, true)` leaves no one eligible |
| RootApp.OrganizerAndCheckInConverge | App.tsx:72-92 | the organizer's send and the public check-in's `onVerify(email, true)` produce the same registry |
| RootApp.CheckInMarksFoundRecord | App.tsx:72 | the check-in attends the record it found, and every record sharing its key; none of them stays eligible |
| RootApp.App.constructor | App.tsx:16-22 | empty registry, default configuration ("My Tech Event", radius 50) |
| RootApp.App.AddAttendees | App.tsx:49-57 | the state becomes the merge of the old list with the batch |
| RootApp.App.ImportRoster | components/Registration.tsx:37 | the parsed roster reaches `addAttendees` as a single batch |
| RootApp.App.MarkAttendance | App.tsx:59-69 | the state becomes the attendance transition of the old list |
| RootApp.App.OnSent | App.tsx:92 | the organizer's `onSent` is `markAttendance(email, true)` |
| RootApp.App.HandleSync | App.tsx:34-42 | a storage event for the attendee key with a value replaces the whole list; any other event changes nothing |
| RootApp.App.SendAllCertificates | App.tsx:92 | the state is the fold of the sends over the eligible emails; the manager's send log grows by exactly those emails, in order; `isProcessing` is lowered after a non-empty send and untouched otherwise; afterwards no one is eligible, whenever a certificate can be drawn |
| AdminApp.AfterSends | components/App.tsx:84 | the fold of `markCertificateSent` over a run of sends keeps the list length and every record's identity fields |
| AdminApp.AfterSendsPointwise | components/App.tsx:84 | after a sequence of admin-variant sends, a record has its certificate flagged exactly when its exact email was sent; otherwise it is unchanged |
| AdminApp.BulkSendDrainsEligible | components/App.tsx:84 | a bulk send routed through `markCertificateSent` leaves no one eligible |
| AdminApp.BulkSendTouchesOnlyEligibleEmails | components/App.tsx:60-64 | a bulk send keeps every record's identity, scan and location flags, and leaves unchanged each record whose email is no eligible record's email |
| AdminApp.PathsAgreeOnEligible | components/App.tsx:67-84 | on an eligible record, the organizer's send and the check-in's `onVerify` give the same record |
| AdminApp.App.constructor | components/App.tsx:16-22 | empty registry, default configuration ("Summer Tech Workshop 2024", radius 20) |
| AdminApp.App.AddAttendees | components/App.tsx:42-48 | the state becomes the merge of the old list with the batch |
| AdminApp.App.ImportRoster | components/Registration.tsx:37 | the parsed roster reaches `addAttendees` as a single batch |
| AdminApp.App.MarkAttendance | components/App.tsx:50-58 | the state becomes the checked attendance transition, and stays the old list when nothing matches |
| AdminApp.App.MarkCertificateSent | components/App.tsx:60-64 | the state becomes the case-sensitive certificate flagging of the old list |
| AdminApp.App.SendAllCertificates | components/App.tsx:84 | the state is the fold of the sends over the eligible emails; the manager's send log grows by exactly those emails, in order; `isProcessing` is lowered after a non-empty send and untouched otherwise; afterwards no one is eligible, whenever a certificate can be drawn |

## Left out

- JSX rendering, styling and navigation: `Navigation.tsx`, and the markup of every component. `QRScanner.tsx` and `Settings.tsx`, which hold no registry rules.
- Canvas drawing and image decoding. Composition is an abstract outcome (`RenderOutcome`); an image error or a missing 2D context in the check-in is `RenderFailed`. The certificate screen's drawing promise has an `onload` handler only, so an image that never loads leaves that send pending forever. This is not modelled.
- The text-generation and mail services are abstract outcomes. The reply is used only by the check-in's note.
- Mail dispatch: the mail key constant equals its placeholder, so dispatch is always simulated. Its outcome is an ignored input (`MailOutcome`).
- Geolocation is an abstract outcome. The source never compares a position with the configured radius, and neither does the model; coordinates and radius are stored and never read.
- `localStorage`, `JSON.parse`/`stringify` and the persistence effects: the initial load, each write after a change, the admin variant's write effects, and the configuration storage.
- `HandleSync`: the sync handler gets the already-parsed new value as an `Option`; a value that fails to parse is not modelled.
- The dashboard's visit counter (`parseInt` of a stored string).
- `Math.random` ids and `Date` timestamps are parameters. The bulk send's one-second `setTimeout` and its closing `alert` are omitted.
- The registration screen's `isImporting` flag and the clearing of the text box.
- The intermediate UI flags of the check-in screen.
- React scheduling is not modelled: the cross-tab storage channel (last write wins), and re-renders while an attempt is in flight. Each check-in attempt uses the `config` and `attendees` props of the render on which it was submitted (`Session.Submit` takes them), as the source's closures do; `hasCanvas` is fixed for the session.
- The certificate download file name.
- `Text.Lower`: ASCII letters only, not full Unicode `toLowerCase`.
- `Text.Trim` removes the ECMAScript white-space set listed in `text.dfy`.
- `PublicCheckIn.NoticeText`: the three message texts carry no contract; the session's state speaks of the `Notice` value instead.
- `CertificateManager.Manager.IndividualSendEnabled` is a plain predicate for the "Send Individually" guard (components/CertificateManager.tsx:184). It has no lemma.
