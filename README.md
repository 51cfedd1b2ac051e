# Clinic back-office: a verified model

This project models the core of a clinic's web back-office: the screens staff use to log in,
register patients through a three-step wizard (basic data, clinical evaluation, procedures),
browse and search patients, open a patient's records and edit their evaluation and status,
manage the referring professionals ("remitentes"), maintain the control images of the public
gallery, and read the income statistics; plus the guards every logged-in screen sits behind
(a session guard and a role guard), the session provider they read, the public gallery with its
decorative circles placed by a seeded generator, and the PDF export of a patient's clinical record.

Each source file of the core is one Dafny module. Screens whose state changes step by step
(the login form, the wizard, the record detail, the remitentes admin, the control images
page, the guards and the session provider) are classes whose methods update the component's
state and record what goes out (requests, navigations, alerts) in a ghost trace. Pure parts
(validation gates, request bodies, URL building, status tables, chart bars, the statistics
summary, the BMI computation, JavaScript's `trim`, `parseFloat`, `parseInt`, `String(n)` and
`toLocaleString("es-CO")`) are functions, with lemmas stating what the screens rely on.

Outside the model, and therefore parameters: the network (each request is replaced by how it
ends), the cookie jar, the router, the clock ("today" for the age), the environment variable
with the API base URL, `encodeURIComponent`/`decodeURIComponent`, the procedures catalogue,
the summary cards' currency formatter and the canvas/PDF libraries.

## Model

| member | source | states |
|---|---|---|
| ClinicalImagesService.ApiBaseUrl | src/features/control-images/services/ClinicalImagesService.ts:1-4 | an unset variable stays unset; otherwise the result is the longest prefix of the variable that does not end in "/", with only slashes removed |
| ClinicalImagesService.ApiBaseUrlIdempotent | src/features/control-images/services/ClinicalImagesService.ts:1-4 | stripping the stripped base changes nothing |
| ClinicalImagesService.TrailingSlashesIgnored | src/features/control-images/services/ClinicalImagesService.ts:1-4 | a base followed by any number of slashes yields the same base |
| ClinicalImagesService.Interpolate | src/features/control-images/services/ClinicalImagesService.ts:7 | a template literal of an unset base writes "undefined" |
| ClinicalImagesService.EndpointsAgree | src/features/control-images/services/ClinicalImagesService.ts:6-11 | create posts to the list URL; update and delete use one URL, the list URL then "/" and the id in decimal |
| ClinicalImagesService.UpdateInjective | src/features/control-images/services/ClinicalImagesService.ts:9-10 | two different ids never share an update or delete URL |
| AuthContext.AfterCheck | src/features/auth/AuthContext.tsx:40-62 | after a session check the user is the body of an OK reply and null otherwise; loading has ended and the check is recorded on every path |
| AuthContext.UseAuth | src/features/auth/AuthContext.tsx:108-112 | outside a provider the hook throws "useAuth must be used inside AuthProvider"; inside one it returns the context |
| AuthContext.AuthProvider.constructor | src/features/auth/AuthContext.tsx:33-36 | no user, loading, not checked, not logging out |
| AuthContext.AuthProvider.CheckSession | src/features/auth/AuthContext.tsx:40-62 | the new state is AfterCheck of the old one; the request to /api/v1/me and one render are recorded |
| AuthContext.AuthProvider.Mount | src/features/auth/AuthContext.tsx:87-89 | the first mount checks the session; a later one changes nothing |
| AuthContext.AuthProvider.SetUser | src/features/auth/AuthContext.tsx:33 | only the user changes |
| AuthContext.AuthProvider.DoLogout | src/features/auth/AuthContext.tsx:64-85 | the logout request goes out in the tick that raises the flag, and the raised flag renders after it; the user is cleared whether or not the request throws; the flag stays raised |
| AuthContext.CountMeAppend | src/features/auth/AuthContext.tsx:87-89 | the number of session checks in a trace adds up over concatenation |
| AuthContext.MountTwice | src/features/auth/AuthContext.tsx:87-89 | mounting twice checks the session once and keeps the first check's outcome |
| AuthGuard.Render | src/components/AuthGuard.tsx:33-69 | nothing before the check; the restricted screen exactly when the session is checked, nobody is logged in and no logout is under way; the page otherwise |
| AuthGuard.ShowAlertOnce | src/components/AuthGuard.tsx:17-22 | the alert goes out only while the latch is down, and the latch is up afterwards |
| AuthGuard.RedirectIff | src/components/AuthGuard.tsx:24-31 | the effect returns home exactly when the session is checked, no logout is under way and nobody is logged in, which is exactly when the restricted screen renders; the redirect is the effect's last action |
| AuthGuard.AlertCountAppend | src/components/AuthGuard.tsx:17-22 | alerts in a trace add up over concatenation |
| AuthGuard.EffectLatched | src/components/AuthGuard.tsx:24-31 | one run alerts at most once, never with the latch up, and leaves the latch up exactly when it was up or it alerted |
| AuthGuard.AlertAtMostOnce | src/components/AuthGuard.tsx:15-22 | any latched effect rerun on any sequence of states alerts at most once in total |
| AuthGuard.GuardAlertsOnce | src/components/AuthGuard.tsx:24-31 | however often the guard's effect reruns, it alerts at most once |
| AuthGuard.LogoutShowsChildren | src/components/AuthGuard.tsx:25-35 | during a logout a checked session shows the page, with or without a user, and the effect does nothing |
| AuthGuard.Guard.constructor | src/components/AuthGuard.tsx:15 | the latch starts down with no effects |
| AuthGuard.Guard.OnStateChange | src/components/AuthGuard.tsx:24-31 | the latch and the appended effects are those of one run, and the latch still records whether the one alert went out |
| RoleGuard.Render | src/components/RoleGuard.tsx:43-47 | the page renders exactly for a checked session whose user's role is allowed, and nothing renders otherwise |
| RoleGuard.EffectCases | src/components/RoleGuard.tsx:27-41 | idle before the check and while logging out; home with no alert for a visitor; the first-time alert then the dashboard for a wrong role; nothing for an allowed role |
| RoleGuard.NavigatesOnlyWhenHidden | src/components/RoleGuard.tsx:27-47 | the effect navigates only while the page is hidden, and a checked session that is not logging out and hides the page always navigates |
| RoleGuard.RoleEffectLatched | src/components/RoleGuard.tsx:20-40 | one run respects the alert latch |
| RoleGuard.GuardAlertsOnce | src/components/RoleGuard.tsx:18-41 | however often the effect reruns, the role guard alerts at most once |
| RoleGuard.Guard.constructor | src/components/RoleGuard.tsx:18 | the latch starts down with no effects and the given allowed roles |
| RoleGuard.Guard.OnStateChange | src/components/RoleGuard.tsx:27-41 | the latch and effects are those of one run, and the latch still counts the alert |
| RegisterHeaderBar.ActiveTab | src/features/post-login/components/RegisterHeaderBar.tsx:18 | an absent `active` prop means the registration tab |
| RegisterHeaderBar.ButtonsShown | src/features/post-login/components/RegisterHeaderBar.tsx:28-71 | a tab has a button exactly when its handler is passed, and for statistics only when the user is also an administrator |
| RegisterHeaderBar.ButtonsTabs | src/features/post-login/components/RegisterHeaderBar.tsx:27-84 | the rendered tabs are Registro, Pacientes, Estadísticas and Imágenes, in that order, each present when shown |
| RegisterHeaderBar.ButtonsOrdered | src/features/post-login/components/RegisterHeaderBar.tsx:27-84 | the buttons keep the bar's order, so no tab has two buttons |
| RegisterHeaderBar.ButtonsHighlight | src/features/post-login/components/RegisterHeaderBar.tsx:33-76 | a button is highlighted exactly when `active` names its tab, so at most one is |
| RegisterHeaderBar.StatsForAdminsOnly | src/features/post-login/components/RegisterHeaderBar.tsx:56-57 | with no user, or a user who is not an administrator, there is no statistics button |
| ItemLists.SetField | src/features/patients/components/NewRecordModal.tsx:50 | `{ ...item, [field]: val }` changes the named field only |
| ItemLists.UpdateField | src/features/patients/components/NewRecordModal.tsx:48-51 | the list keeps its length; only row `i`, and only its named field, changes; an index outside the list changes nothing |
| ItemLists.UpdateSameValue | src/features/patients/components/NewRecordModal.tsx:48-51 | writing back the value a field holds leaves the list as it was |
| ItemLists.UpdateTwice | src/features/patients/components/NewRecordModal.tsx:48-51 | the last write to a field wins |
| ItemLists.RemoveAt | src/features/patients/components/NewRecordModal.tsx:46-47 | removing index `i` drops exactly that element and keeps the others in order; an index outside the list drops nothing |
| ItemLists.ReplaceAt | src/features/patients/components/NewRecordModal.tsx:50 | the `map` that rewrites index `i` keeps the length and every other element |
| ItemLists.AppendThenRemove | src/features/patients/components/NewRecordModal.tsx:45-47 | adding a row and then removing it gives the list back |
| ItemLists.RemoveAtSplit | src/features/patients/components/NewRecordModal.tsx:46-47 | the list is the result with the removed element put back at `i` |
| ItemLists.ReplaceSame | src/features/patients/components/NewRecordModal.tsx:50 | replacing an element with itself changes nothing |
| Responses.FailureText | src/features/patients/components/NewRecordModal.tsx:84-121 | a rejected reply shows its `message`, or the fallback when it has none; a thrown Error shows its own message |
| NewRecordModal.NumberTextParses | src/features/patients/components/NewRecordModal.tsx:170-176 | every non-empty value a number input can hold parses as a number |
| NewRecordModal.StepGatePositive | src/features/patients/components/NewRecordModal.tsx:311-323 | two positive numbers and a non-blank background pass the "Siguiente" test |
| NewRecordModal.StepGateIff | src/features/patients/components/NewRecordModal.tsx:311-323 | for number-input values the test passes exactly when both numbers are above zero and the background is not blank |
| NewRecordModal.BmiValue | src/features/patients/components/NewRecordModal.tsx:40-43 | the index is shown exactly when both numbers are positive |
| NewRecordModal.NormalisePrice | src/features/patients/components/NewRecordModal.tsx:107 | normalising never lengthens the price |
| NewRecordModal.NormalisedPoint | src/features/patients/components/NewRecordModal.tsx:107 | the normalised price has at most one '.', and none when the price had no ',' |
| NewRecordModal.RemoveDotsOfGrouped | src/features/patients/components/NewRecordModal.tsx:107 | deleting the points of a grouped number leaves its digits |
| NewRecordModal.NumberTextShape | src/features/patients/components/NewRecordModal.tsx:276 | a value the `type="number"` price box holds has at most one point and no comma |
| NewRecordModal.GroupedPriceReadsBack | src/features/patients/components/NewRecordModal.tsx:107 | below a million the es-CO grouped text of a price is a value the number box holds, and it is sent as that number of pesos |
| NewRecordModal.GroupedMillionNotNumber | src/features/patients/components/NewRecordModal.tsx:276 | from a million upwards the grouped text has two points, which the number box never holds |
| NewRecordModal.PointlessPriceKept | src/features/patients/components/NewRecordModal.tsx:107 | a number-box value without a point is sent unchanged |
| NewRecordModal.NormaliseDropsPoint | src/features/patients/components/NewRecordModal.tsx:107 | as written: digits, a point and digits normalise to the digits run together |
| NewRecordModal.DecimalPriceLosesPoint | src/features/patients/components/NewRecordModal.tsx:107 | as written: a decimal value the number box holds is sent as the integer of its digits run together |
| NewRecordModal.DecimalPriceExample | src/features/patients/components/NewRecordModal.tsx:107 | as written: "1500.5" is a number-box value and is sent as 15005 |
| NewRecordModal.KeptPointPrice | src/features/patients/components/NewRecordModal.tsx:107 | corrected: a text with a comma is normalised as before, and every value the number box holds is kept as it is |
| NewRecordModal.KeptPointPriceValue | src/features/patients/components/NewRecordModal.tsx:107 | corrected: digits, a point and digits are sent as the whole part plus the decimal fraction |
| NewRecordModal.ParseFloatPoint | src/features/patients/components/NewRecordModal.tsx:107 | parseFloat reads digits, a point and digits as the whole part plus the fraction |
| NewRecordModal.SubmittedItems | src/features/patients/components/NewRecordModal.tsx:105-108 | each row is sent with its name trimmed and its price as parseFloat reads the normalised text, in order |
| NewRecordModal.EvaluationJson | src/features/patients/components/NewRecordModal.tsx:76-81 | the evaluation body carries the patient id, the two numbers as parseFloat reads them and the background as typed |
| NewRecordModal.ProcedureItemsJson | src/features/patients/components/NewRecordModal.tsx:101-108 | the procedure body's items are the submitted rows |
| NewRecordModal.SubmitGateSendsNothing | src/features/patients/components/NewRecordModal.tsx:54-61 | a blank note, an empty date or an incomplete row sends nothing and shows the gate's toast |
| NewRecordModal.ProcedureFollowsEvaluation | src/features/patients/components/NewRecordModal.tsx:66-115 | the evaluation request goes first; the procedure request follows exactly when the form is complete and the evaluation was created, and it carries the new evaluation's id and the rows |
| NewRecordModal.SubmitCallbacks | src/features/patients/components/NewRecordModal.tsx:112-121 | the parent is told of success and then closed exactly when both requests succeed; otherwise no callback runs and an error toast shows |
| NewRecordModal.Modal.constructor | src/features/patients/components/NewRecordModal.tsx:22-37 | step 1, not submitting, empty fields, today's date and one empty row |
| NewRecordModal.Modal.AddItem | src/features/patients/components/NewRecordModal.tsx:45-256 | one empty row is appended and nothing else changes |
| NewRecordModal.Modal.RemoveItem | src/features/patients/components/NewRecordModal.tsx:46-286 | row `i` is removed, offered only while there are two rows or more, so at least one remains |
| NewRecordModal.Modal.UpdateItem | src/features/patients/components/NewRecordModal.tsx:48-278 | only the named field of row `i` changes |
| NewRecordModal.Modal.Next | src/features/patients/components/NewRecordModal.tsx:311-323 | step 2 exactly when the evaluation passes the test, otherwise the toast and step 1 |
| NewRecordModal.Modal.Back | src/features/patients/components/NewRecordModal.tsx:332 | back to step 1, nothing else touched |
| NewRecordModal.Modal.HandleSubmit | src/features/patients/components/NewRecordModal.tsx:53-125 | the outcome is Submit of the form and the two replies; the form is unchanged and the pending flag is down again |
| Bmi.Hundredths | src/features/post-login/RegisterPatientPage.tsx:147 | the index rounded to hundredths is never negative |
| Bmi.Band | src/features/post-login/RegisterPatientPage.tsx:150-165 | the status chain always picks one of the eight labels |
| Bmi.BandLabel | src/features/post-login/RegisterPatientPage.tsx:150-165 | the status is the label of the band and is never empty |
| Bmi.BandIsReached | src/features/post-login/RegisterPatientPage.tsx:150-165 | the chain picks band k exactly when k of the seven cut-offs 16.0, 17.0, 18.5, 25, 30, 35 and 40 have been reached |
| Bmi.BandInterval | src/features/post-login/RegisterPatientPage.tsx:150-165 | each band is the half-open range between two consecutive cut-offs |
| Bmi.BandMonotone | src/features/post-login/RegisterPatientPage.tsx:150-165 | a larger index never falls in a lower band |
| Bmi.LabelsDistinct | src/features/post-login/RegisterPatientPage.tsx:152-165 | the eight labels differ pairwise |
| Bmi.HundredthsText | src/features/post-login/RegisterPatientPage.tsx:147-148 | `String(+x.toFixed(2))` is never empty |
| Bmi.HundredthsTextValue | src/features/post-login/RegisterPatientPage.tsx:147-148 | the value preview reads back through parseFloat as the rounded index |
| Bmi.FixedText | src/features/patients/components/NewRecordModal.tsx:42 | `toFixed(2)` always writes exactly two decimals |
| Bmi.FixedTextValue | src/features/patients/components/NewRecordModal.tsx:42 | the `toFixed(2)` text reads back through parseFloat as the rounded index |
| Bmi.NormalWeightExample | src/features/post-login/RegisterPatientPage.tsx:147-158 | 50 kg at 1.60 m is 19.53, "Peso normal" |
| RegisterPatientPage.Step1CompleteIff | src/features/post-login/RegisterPatientPage.tsx:96-101 | step 1 is complete exactly when first name, last name, age, cellphone and sex each have a non-whitespace character |
| RegisterPatientPage.Step3CompleteIff | src/features/post-login/RegisterPatientPage.tsx:109 | step 3 is complete exactly when an item is selected and the notes have a non-whitespace character |
| RegisterPatientPage.ValidationError | src/features/post-login/RegisterPatientPage.tsx:125-140 | the warning shows exactly on the last step while step 3 is incomplete, with the fixed text |
| RegisterPatientPage.PreviewEmpty | src/features/post-login/RegisterPatientPage.tsx:168-171 | both previews are empty unless weight and height parse above zero |
| RegisterPatientPage.PreviewShown | src/features/post-login/RegisterPatientPage.tsx:146-167 | with both above zero, the value is the text of the rounded index and the status is its band's label, never empty |
| RegisterPatientPage.Step2ShowsPreview | src/features/post-login/RegisterPatientPage.tsx:104-146 | a completed step 2 always has a status preview |
| RegisterPatientPage.FormatPrice | src/features/post-login/RegisterPatientPage.tsx:70-85 | the stored price is empty exactly when the typed text has no digit |
| RegisterPatientPage.PriceRoundTrip | src/features/post-login/RegisterPatientPage.tsx:70-275 | stripping the separators of the stored price gives the decimal of the typed number, so its amount is the number typed (in exact arithmetic; `Number()` of the digits is exact only below 2^53) |
| RegisterPatientPage.FormatPriceIdempotent | src/features/post-login/RegisterPatientPage.tsx:70-85 | reformatting a stored price leaves it unchanged |
| RegisterPatientPage.PriceChange | src/features/post-login/RegisterPatientPage.tsx:65-92 | every item keeps its name; the items of the named procedure get the formatted price and the others keep theirs |
| RegisterPatientPage.ToggleOnKeepsTotal | src/features/post-login/RegisterPatientPage.tsx:300-305 | selecting a new procedure, whose price is empty, leaves the total as it was |
| RegisterPatientPage.SubmittedItems | src/features/post-login/RegisterPatientPage.tsx:273-276 | each submitted item keeps its name, in order |
| RegisterPatientPage.SubmittedMatchesTotal | src/features/post-login/RegisterPatientPage.tsx:273-305 | the submitted amounts add up to the sticky total |
| RegisterPatientPage.StickyTotalText | src/features/post-login/RegisterPatientPage.tsx:300-305 | the sticky total's text, with its separators removed, is the decimal text of the sum of the price amounts; it reads back as that sum, which is also the sum of the amounts submitted (exact arithmetic: `Number()` is exact below 2^53) |
| RegisterPatientPage.SubmittedPriceIsTyped | src/features/post-login/RegisterPatientPage.tsx:65-275 | a typed price is submitted as the number typed (in exact arithmetic; `Number()` of the digits is exact only below 2^53) |
| RegisterPatientPage.SubmittedItemsAt | src/features/post-login/RegisterPatientPage.tsx:275 | each submitted amount is the amount of its price text, 0 when empty |
| RegisterPatientPage.BodyNumbers | src/features/post-login/RegisterPatientPage.tsx:212-243 | the patient body carries `parseInt(age)`, the evaluation body the two numbers as parseFloat reads them |
| RegisterPatientPage.EvaluationBodyPositive | src/features/post-login/RegisterPatientPage.tsx:104-243 | an evaluation built from a completed step 2 carries two positive numbers |
| RegisterPatientPage.SubmitChain | src/features/post-login/RegisterPatientPage.tsx:197-285 | patient, evaluation, procedures in that order, stopping at the first failure; each later request carries the id the previous one returned, and the procedures body adds up to the total |
| RegisterPatientPage.PrevStep | src/features/post-login/RegisterPatientPage.tsx:447 | one step back, never below the first step |
| RegisterPatientPage.NextStep | src/features/post-login/RegisterPatientPage.tsx:459 | one step on, never past the last step |
| RegisterPatientPage.EnabledNavigation | src/features/post-login/RegisterPatientPage.tsx:444-469 | an enabled "Anterior" lowers the step by one and an enabled "Siguiente" raises it by one, so the clamps never act on a click; outside a submission "Anterior" is disabled only on the first step and "Siguiente" absent only on the last; while submitting both are disabled |
| RegisterPatientPage.NavigationInRange | src/features/post-login/RegisterPatientPage.tsx:447-459 | the buttons never leave the three steps, and "Anterior" after "Siguiente" returns to the step unless it was the last |
| RegisterPatientPage.Wizard.constructor | src/features/post-login/RegisterPatientPage.tsx:31-178 | step 0, empty form, no selection, no messages |
| RegisterPatientPage.Wizard.Prev | src/features/post-login/RegisterPatientPage.tsx:446-450 | a click on the enabled "Anterior" moves one step back, by PrevStep; nothing else changes |
| RegisterPatientPage.Wizard.Next | src/features/post-login/RegisterPatientPage.tsx:455-462 | a click on "Siguiente", rendered and enabled only before the last step, moves one step on, by NextStep; nothing else changes |
| RegisterPatientPage.Wizard.JumpTo | src/features/post-login/RegisterPatientPage.tsx:330 | a sidebar click changes only the step |
| RegisterPatientPage.Wizard.HandlePriceChange | src/features/post-login/RegisterPatientPage.tsx:65-92 | only the items change, by PriceChange |
| RegisterPatientPage.Wizard.ToggleItem | src/features/post-login/RegisterPatientPage.tsx:414-419 | the selection is toggled and the submit error cleared |
| RegisterPatientPage.Wizard.HandleFajaChange | src/features/post-login/RegisterPatientPage.tsx:414-428 | only the notes change, by the faja rule |
| RegisterPatientPage.Wizard.HandlePiernaChange | src/features/post-login/RegisterPatientPage.tsx:414-428 | only the notes change, by the pierna rule |
| RegisterPatientPage.Wizard.SendChain | src/features/post-login/RegisterPatientPage.tsx:197-285 | the requests sent are SubmitRequests, and it succeeds exactly when all three are created |
| RegisterPatientPage.Wizard.RunSubmit | src/features/post-login/RegisterPatientPage.tsx:195-295 | success clears the error and sets the success text; any failure sets the error text; the flag is down at the end |
| RegisterPatientPage.Wizard.HandleSubmit | src/features/post-login/RegisterPatientPage.tsx:181-296 | nothing off the last step; an incomplete step 3 sends nothing and shows the warning; otherwise the chain runs and its outcome is shown |
| ProceduresSelector.GetPrice | src/features/post-login/components/ProceduresSelector.tsx:31-32 | the price of the first item with the label, or "" when none has it |
| ProceduresSelector.RemoveLabel | src/features/post-login/components/ProceduresSelector.tsx:38-40 | no item with the label remains, and every remaining item was in the list |
| ProceduresSelector.RemoveLabelAppend | src/features/post-login/components/ProceduresSelector.tsx:38-40 | the filter keeps every other item in order: it distributes over concatenation |
| ProceduresSelector.RemoveLabelAbsent | src/features/post-login/components/ProceduresSelector.tsx:38-40 | filtering a label that is not there changes nothing |
| ProceduresSelector.LineLength | src/features/post-login/components/ProceduresSelector.tsx:44-73 | what `.*` consumes: the characters up to the first line terminator |
| ProceduresSelector.RemoveLine | src/features/post-login/components/ProceduresSelector.tsx:44-73 | notes without the marker are kept; with it, the result is shorter |
| ProceduresSelector.LineLengthSingle | src/features/post-login/components/ProceduresSelector.tsx:44-56 | `.*` consumes all of a single-line value and stops at the terminator after it |
| ProceduresSelector.RemoveLeadingLine | src/features/post-login/components/ProceduresSelector.tsx:44-73 | a note line at the head of the notes is removed with its "\n\n", leaving the rest |
| ProceduresSelector.Toggle | src/features/post-login/components/ProceduresSelector.tsx:34-52 | a selected label is filtered out, an unselected one appended with an empty price and the notes kept; the label is selected afterwards exactly when it was not before |
| ProceduresSelector.ToggleOtherKeepsNotes | src/features/post-login/components/ProceduresSelector.tsx:43-48 | deselecting a label without "Faja" or "Pierna" leaves the notes alone |
| ProceduresSelector.ToggleTwice | src/features/post-login/components/ProceduresSelector.tsx:37-51 | toggling an unselected label twice restores the item list |
| ProceduresSelector.FajaChange | src/features/post-login/components/ProceduresSelector.tsx:54-64 | the notes start with "Faja talla: " and the size |
| ProceduresSelector.FajaChangeIdempotent | src/features/post-login/components/ProceduresSelector.tsx:54-64 | typing the same single-line size twice gives the notes of typing it once |
| ProceduresSelector.PiernaNote | src/features/post-login/components/ProceduresSelector.tsx:66-70 | the leg note is empty exactly when neither side is ticked |
| ProceduresSelector.PiernaChange | src/features/post-login/components/ProceduresSelector.tsx:66-83 | with no side ticked only the old leg line is removed; otherwise the notes start with the new leg note |
| ProceduresSelector.PiernaNoteShape | src/features/post-login/components/ProceduresSelector.tsx:68-70 | each non-empty leg note is "Pierna:" followed by a single line |
| ProceduresSelector.PiernaChangeIdempotent | src/features/post-login/components/ProceduresSelector.tsx:66-83 | applying the same ticked state twice gives the notes of applying it once |
| ProceduresSelector.FajaChangeEnablesPrice | src/features/post-login/components/ProceduresSelector.tsx:149-161 | after a size is typed, the faja price input is enabled |
| ProceduresSelector.PiernaChangeEnablesPrice | src/features/post-login/components/ProceduresSelector.tsx:150-161 | after a side is ticked, the leg price input is enabled |
| ProceduresSelector.OtherPriceEnabled | src/features/post-login/components/ProceduresSelector.tsx:145-161 | no other catalogue item's price is ever disabled |
| ProceduresSelector.FindProcedure | src/features/post-login/components/ProceduresSelector.tsx:87-139 | the found entry is in the catalogue with that id; None means no entry has it |
| ProceduresSelector.Contribution | src/features/post-login/components/ProceduresSelector.tsx:86-93 | one id adds at most 1 to the badge |
| ProceduresSelector.GroupCountBound | src/features/post-login/components/ProceduresSelector.tsx:85-94 | the badge never exceeds the number of ids in the group |
| ProceduresSelector.GroupCountMissing | src/features/post-login/components/ProceduresSelector.tsx:87-88 | an id missing from the catalogue adds nothing, wherever it stands |
| ProceduresSelector.GroupCountAll | src/features/post-login/components/ProceduresSelector.tsx:85-94 | when every id names a selected entry, the badge counts all of them |
| ProceduresSelector.PiernaNoteDetection | src/features/post-login/components/ProceduresSelector.tsx:150-155 | each of the three detection tests reads the leg note as the ticked state says |
| ProceduresSelector.PiernaChangeReplacesLine | src/features/post-login/components/ProceduresSelector.tsx:66-83 | on notes holding only a leg line, a change replaces it with the new state's note |
| ProceduresSelector.InternaClickDropsExterna | src/features/post-login/components/ProceduresSelector.tsx:202-207 | as written: with both sides ticked, unticking "Interna" removes the leg note, so both boxes show unticked and the leg price input is disabled again |
| ProceduresSelector.EmptyNotesUnticked | src/features/post-login/components/ProceduresSelector.tsx:148-161 | empty notes show neither leg box ticked and leave the leg price disabled |
| ProceduresSelector.InternaClickKeepsExterna | src/features/post-login/components/ProceduresSelector.tsx:202-207 | corrected: clicking "Interna" sets that side and keeps the displayed other side |
| ProceduresSelector.ExternaClickKeepsInterna | src/features/post-login/components/ProceduresSelector.tsx:217-222 | clicking "Externa" sets that side and keeps the other |
| PatientBasicsFields.AgeIsFullYears | src/features/post-login/components/PatientBasicsFields.tsx:40-50 | a shown age is the number of full years: the last birthday is not after today and the next one is |
| PatientBasicsFields.FullYearsIsAge | src/features/post-login/components/PatientBasicsFields.tsx:43-49 | every count of full years is the age shown |
| PatientBasicsFields.AgeEmptyIffUnborn | src/features/post-login/components/PatientBasicsFields.tsx:49 | no age is shown exactly when the birth date is after today |
| PatientBasicsFields.FormatCellphone | src/features/post-login/components/PatientBasicsFields.tsx:169-178 | the output is digits and spaces, at most 12 characters, and its digits are the first ten digits typed |
| PatientBasicsFields.GroupDigits | src/features/post-login/components/PatientBasicsFields.tsx:173-176 | the grouping only inserts spaces |
| PatientBasicsFields.SpacedDigits | src/features/post-login/components/PatientBasicsFields.tsx:175 | a space between two digit groups is the only thing stripped |
| PatientBasicsFields.DigitsOfSpace | src/features/post-login/components/PatientBasicsFields.tsx:175 | stripping non-digits ignores the inserted space |
| PatientBasicsFields.FormatIdempotent | src/features/post-login/components/PatientBasicsFields.tsx:169-178 | formatting a formatted number changes nothing |
| PatientBasicsFields.FormatShape | src/features/post-login/components/PatientBasicsFields.tsx:173-176 | fewer than six digits are left as typed; six give "ddd ddd"; seven to ten give "ddd ddd" then a space and the rest |
| PatientBasicsFields.NoDateNoAge | src/features/post-login/components/PatientBasicsFields.tsx:41-131 | an empty or unreadable birth date shows no age and no range warning |
| PatientRecordDetail.EffectiveStatus | src/features/patients/components/PatientRecordDetail.tsx:232 | a missing status reads as "EN_ESPERA"; a present one is kept as it is |
| PatientRecordDetail.StatusConfig | src/features/patients/components/PatientRecordDetail.tsx:44-233 | any status other than the confirmed and cancelled ones gets the pending badge |
| PatientRecordDetail.StatusStylesDistinct | src/features/patients/components/PatientRecordDetail.tsx:44-48 | the three known statuses have three different badge texts |
| PatientRecordDetail.ActionsFor | src/features/patients/components/PatientRecordDetail.tsx:234-374 | "Confirmar" and the evaluation's edit button are offered exactly when the status is not confirmed; "Cancelar" exactly when it is not cancelled |
| PatientRecordDetail.SomeActionShown | src/features/patients/components/PatientRecordDetail.tsx:232-287 | at least one status action is always offered, and both are for a pending, missing or unknown status |
| PatientRecordDetail.EvaluationJson | src/features/patients/components/PatientRecordDetail.tsx:124-128 | the evaluation update carries weight and height as parseFloat reads them, and the background as typed |
| PatientRecordDetail.PriceOrZero | src/features/patients/components/PatientRecordDetail.tsx:191-236 | a price parseFloat cannot read counts as 0; otherwise its parsed value |
| PatientRecordDetail.SavedItems | src/features/patients/components/PatientRecordDetail.tsx:189-192 | the saved items are the rows in order, each with its name and its price as a number, and without its id |
| PatientRecordDetail.Prices | src/features/patients/components/PatientRecordDetail.tsx:236 | one number per row, the row's price or zero |
| PatientRecordDetail.SumConcat | src/features/patients/components/PatientRecordDetail.tsx:236 | the running sum of a concatenation is the sum of the sums |
| PatientRecordDetail.SumRemove | src/features/patients/components/PatientRecordDetail.tsx:161-236 | dropping one element takes exactly that element out of the sum |
| PatientRecordDetail.LiveTotalIsSaved | src/features/patients/components/PatientRecordDetail.tsx:189-236 | the total shown while editing equals the total of the prices that are sent |
| PatientRecordDetail.LiveTotalAppend | src/features/patients/components/PatientRecordDetail.tsx:158-236 | an appended row raises the total by exactly its price |
| PatientRecordDetail.LiveTotalAppendEmpty | src/features/patients/components/PatientRecordDetail.tsx:158-236 | "Agregar item" leaves the total unchanged |
| PatientRecordDetail.LiveTotalRemove | src/features/patients/components/PatientRecordDetail.tsx:161-236 | removing a row lowers the total by exactly its price |
| PatientRecordDetail.ToFormItems | src/features/patients/components/PatientRecordDetail.tsx:149 | the dialog's rows are the stored items in order, with their ids, names and price texts |
| PatientRecordDetail.EvalGateDoesNotTrim | src/features/patients/components/PatientRecordDetail.tsx:109 | the evaluation gate tests for empty strings only, so a background of spaces passes |
| PatientRecordDetail.SaveEvalSends | src/features/patients/components/PatientRecordDetail.tsx:108-142 | a save with an empty field sends nothing; otherwise exactly one PUT of the dialog's values; the record is reloaded, with a success toast, exactly when the PUT is accepted |
| PatientRecordDetail.Detail.constructor | src/features/patients/components/PatientRecordDetail.tsx:55-66 | the page starts with both dialogs closed and empty and nothing pending |
| PatientRecordDetail.Detail.HandleStatusChange | src/features/patients/components/PatientRecordDetail.tsx:73-96 | one PATCH for the chosen action; success toasts the action and reloads; failure toasts the server's message or the fallback; no form changes and nothing stays pending |
| PatientRecordDetail.Detail.OpenEditEval | src/features/patients/components/PatientRecordDetail.tsx:98-106 | the dialog opens on the stored weight, height and background, "" for each missing one, and the procedure form is untouched |
| PatientRecordDetail.Detail.HandleSaveEval | src/features/patients/components/PatientRecordDetail.tsx:108-142 | the outcome is that of SaveEval on the dialog's values; the dialog closes exactly when the save is accepted; the values stay |
| PatientRecordDetail.Detail.OpenEditProc | src/features/patients/components/PatientRecordDetail.tsx:144-151 | the dialog opens on the procedure's id, its date cut to ten characters, its notes ("" for null) and its items |
| PatientRecordDetail.Detail.CloseEditProc | src/features/patients/components/PatientRecordDetail.tsx:153-156 | closing empties the procedure form and touches nothing else |
| PatientRecordDetail.Detail.AddProcItem | src/features/patients/components/PatientRecordDetail.tsx:158-159 | appends one empty row and leaves the total unchanged |
| PatientRecordDetail.Detail.RemoveProcItem | src/features/patients/components/PatientRecordDetail.tsx:161-162 | the rows are the old rows without row idx (all of them if idx is out of range) |
| PatientRecordDetail.Detail.UpdateProcItem | src/features/patients/components/PatientRecordDetail.tsx:164-168 | only the named field of row idx changes |
| PatientRecordDetail.Detail.HandleSaveProc | src/features/patients/components/PatientRecordDetail.tsx:170-207 | with no date or no rows nothing is sent and the form stays; otherwise one PUT of the date, notes and saved items; success closes and empties the dialog and reloads; failure keeps it |
| PatientRecordDetail.ExportFileNames | src/features/patients/components/PatientRecordDetail.tsx:288-291 | the record's PDF is never saved under the button's default name, and different patients' records get different file names |
| RemitentesPage.StatusConfig | src/features/admin/RemitentesPage.tsx:47-303 | "active" shows "Activo", "fired" shows "Despedido", and every other status falls back to the "Inactivo" badge |
| RemitentesPage.ActionsFor | src/features/admin/RemitentesPage.tsx:343-380 | "Activar" exactly when the status is not active, "Inactivar" exactly when it is, "Despedir" exactly when it is not fired |
| RemitentesPage.ActionsExclusive | src/features/admin/RemitentesPage.tsx:343-380 | exactly one of "Activar" and "Inactivar" is offered; a fired referrer can only be reactivated |
| RemitentesPage.CountStatus | src/features/admin/RemitentesPage.tsx:252-260 | a status count never exceeds the number of referrers |
| RemitentesPage.CountsSum | src/features/admin/RemitentesPage.tsx:32-260 | when every status is one of the three, the three counts add up to the length of the list |
| RemitentesPage.UnknownNotCounted | src/features/admin/RemitentesPage.tsx:252-260 | a referrer with any other status is counted by none of the three |
| RemitentesPage.SetField | src/features/admin/RemitentesPage.tsx:426-503 | typing into an input changes that field of the form and no other |
| RemitentesPage.SaveGate | src/features/admin/RemitentesPage.tsx:117-125 | the required-fields message exactly when one of the five required fields is empty; otherwise the password message exactly when the id is falsy and the password empty |
| RemitentesPage.PasswordOnlyForCreate | src/features/admin/RemitentesPage.tsx:122 | an edit may keep the password empty; a create may not, and an id of 0 counts as a create |
| RemitentesPage.RequestBody | src/features/admin/RemitentesPage.tsx:130-147 | the body is the form, with the password left out exactly when it is empty |
| RemitentesPage.LabelLower | src/features/admin/RemitentesPage.tsx:175-373 | the lower-cased button label is the action's path segment |
| RemitentesPage.SaveRequest | src/features/admin/RemitentesPage.tsx:134-148 | PUT to the referrer's own URL for a truthy id, POST to the collection otherwise, with the body above |
| RemitentesPage.StatusRequestUnderItem | src/features/admin/RemitentesPage.tsx:134-190 | a status change goes to the referrer's own URL followed by the action |
| RemitentesPage.Nullish | src/features/admin/RemitentesPage.tsx:153-159 | `a ?? b` keeps a present left side and otherwise gives the right one |
| RemitentesPage.RefusalFallbackUnreachable | src/features/admin/RemitentesPage.tsx:150-160 | the message wins; without one the text is the flattened errors joined by spaces, empty when there are none, so "Error al guardar" is never shown |
| RemitentesPage.SaveFailureText | src/features/admin/RemitentesPage.tsx:150-167 | a thrown error shows its own message; a refusal with a message shows that message |
| RemitentesPage.SaveSends | src/features/admin/RemitentesPage.tsx:117-171 | a failed check sends nothing; otherwise exactly one request; the list is reloaded, with a success toast, exactly when the request is accepted |
| RemitentesPage.ChangeStatusConfirmed | src/features/admin/RemitentesPage.tsx:173-211 | a declined confirmation sends nothing and shows nothing; a confirmed one sends one PATCH without body and reloads exactly when it is accepted |
| RemitentesPage.Page.constructor | src/features/admin/RemitentesPage.tsx:87-90 | the dialog starts closed, not editing, with the empty form |
| RemitentesPage.Page.OpenCreate | src/features/admin/RemitentesPage.tsx:92-96 | the dialog opens empty, not editing |
| RemitentesPage.Page.OpenEdit | src/features/admin/RemitentesPage.tsx:98-109 | the dialog opens on the referrer's id and fields, with an empty password |
| RemitentesPage.Page.CloseModal | src/features/admin/RemitentesPage.tsx:111-115 | the dialog closes and is emptied |
| RemitentesPage.Page.SetFormField | src/features/admin/RemitentesPage.tsx:426-503 | one field of the form changes; the dialog's state does not |
| RemitentesPage.Page.HandleSave | src/features/admin/RemitentesPage.tsx:117-171 | the outcome is that of Save; an accepted save closes and empties the dialog; any other outcome leaves it as it was |
| RemitentesPage.Page.HandleChangeStatus | src/features/admin/RemitentesPage.tsx:173-211 | the outcome is that of ChangeStatus |
| ControlImagesPage.FormPartsContents | src/features/control-images/ControlImagesPage.tsx:55-59 | the upload form starts with the title; it carries the description only when non-empty and each image only when selected, and no other key |
| ControlImagesPage.LookupConcat | src/features/control-images/ControlImagesPage.tsx:55-59 | looking a key up in two concatenated lists of form entries finds the first list's entry, else the second's |
| ControlImagesPage.SubmitGateCases | src/features/control-images/ControlImagesPage.tsx:46 | an empty title always blocks; an edit needs only the title; a create, and an id of 0 counts as one, also needs both images |
| ControlImagesPage.SubmitRequest | src/features/control-images/ControlImagesPage.tsx:61-65 | for a truthy id, a PUT to the image's own URL; otherwise a POST to the list URL; both carry the form |
| ControlImagesPage.ImageUrl | src/features/control-images/ControlImagesPage.tsx:120-123 | a path starting with "http" is used as it is; any other is placed under the base's /storage/ |
| ControlImagesPage.ImageUrlFixed | src/features/control-images/ControlImagesPage.tsx:120-123 | with an http base, resolving twice is resolving once, and the URL always ends with the stored path |
| ControlImagesPage.PageBaseNotStripped | src/features/control-images/ControlImagesPage.tsx:122 | this page reads the variable without stripping a trailing slash, so a base ending in '/' resolves differently here than through the service's stripped base |
| ControlImagesPage.Page.constructor | src/features/control-images/ControlImagesPage.tsx:24-32 | no upload in flight, form hidden and empty, not editing |
| ControlImagesPage.Page.ToggleForm | src/features/control-images/ControlImagesPage.tsx:150 | the header button flips the form's visibility and keeps what was typed |
| ControlImagesPage.Page.ResetForm | src/features/control-images/ControlImagesPage.tsx:34-41 | every field is emptied, editing ends and the form is hidden |
| ControlImagesPage.Page.HandleEdit | src/features/control-images/ControlImagesPage.tsx:89-94 | the form opens on the image's id, title and description ("" when missing); files chosen earlier stay |
| ControlImagesPage.Page.HandleSubmit | src/features/control-images/ControlImagesPage.tsx:43-87 | a failed check sends nothing; otherwise one request; success toasts create or update, reloads and resets; any failure shows the one generic toast and keeps the form |
| ControlImagesPage.Page.HandleDelete | src/features/control-images/ControlImagesPage.tsx:96-118 | a declined confirmation does nothing; otherwise one DELETE, and a reload exactly when it is accepted |
| Cookies.Split | src/features/patients/components/PatientRecordsList.tsx:37-38 | the first piece is the text before the first separator (all of it when there is none), and it holds no separator |
| Cookies.JoinSplit | src/features/patients/components/PatientRecordsList.tsx:37-38 | joining the pieces with the separator gives the cookie string back |
| Cookies.SplitFirst | src/features/patients/components/PatientRecordsList.tsx:37-38 | a piece free of the separator's first character, followed by the separator, is the first piece whatever follows |
| Cookies.SplitWhole | src/features/patients/components/PatientRecordsList.tsx:37-38 | a string free of the separator's first character is a single piece |
| Cookies.FindIndex | src/features/patients/components/PatientRecordsList.tsx:39 | the index found is the first cookie that starts with the prefix; none means no cookie does |
| Cookies.TokenOfRow | src/features/patients/components/PatientRecordsList.tsx:40 | the token is the text after "XSRF-TOKEN=" up to the next '=' or the end of the cookie |
| Cookies.Header | src/features/patients/components/PatientRecordsList.tsx:49 | no token, or an empty one, sends ""; otherwise the decoded token (the same code stands in PatientInfo.tsx line 38) |
| Cookies.TokenCookieFirst | src/features/patients/components/PatientInfo.tsx:28-31 | a token cookie without ';' or '=' yields exactly its value, alone or followed by other cookies |
| Cookies.OtherCookieSkipped | src/features/patients/components/PatientInfo.tsx:28-31 | a cookie before the token cookie that does not start with the prefix does not change the token |
| Json.Get | src/features/auth/LoginPage.tsx:89-94 | a property is present exactly when the value is an object with that key, and is then that key's value |
| PatientInfo.Key | src/features/patients/components/PatientInfo.tsx:50-53 | no request for a patient id of 0; otherwise the patient's URL under the base |
| PatientInfo.KeyInjective | src/features/patients/components/PatientInfo.tsx:51 | different patients are fetched under different URLs |
| PatientInfo.Fetcher | src/features/patients/components/PatientInfo.tsx:27-47 | the anti-forgery header of the cookie; it resolves exactly for an OK reply with a JSON body, to that body; any other status rejects with "Error al cargar paciente" |
| PatientInfo.OrDash | src/features/patients/components/PatientInfo.tsx:87-132 | an empty value shows a dash, any other value itself |
| PatientInfo.Render | src/features/patients/components/PatientInfo.tsx:55-58 | loading first; then the error text exactly when an error is stored or there is no data; otherwise the card of that patient, never with an empty cedula or cellphone |
| PatientInfo.CardContacts | src/features/patients/components/PatientInfo.tsx:84-133 | the card shows the cedula and cellphone as they are, and a dash for each empty one |
| PatientInfo.LoadingFirst | src/features/patients/components/PatientInfo.tsx:55 | while loading the card shows only the loading text, whatever the cache holds |
| PatientsPage.IsApiListResponse | src/features/patients/PatientsPage.tsx:28-33 | the wrapped shape is exactly an object with a `data` key holding an array |
| PatientsPage.SafeString | src/features/patients/PatientsPage.tsx:35-37 | a string value as it is; "" for anything else and for a missing property |
| PatientsPage.NormalisePayload | src/features/patients/PatientsPage.tsx:70-76 | an array is the list itself; a wrapped list is its `data`; anything else is the empty list |
| PatientsPage.WrappedListAgrees | src/features/patients/PatientsPage.tsx:70-76 | a bare array and an object wrapping it in `data` give the same list |
| PatientsPage.OnlyTwoShapes | src/features/patients/PatientsPage.tsx:70-76 | only the two shapes give a non-empty list; null and the scalars give none |
| PatientsPage.QueryString | src/features/patients/PatientsPage.tsx:49-52 | empty exactly for a blank search; otherwise "?search=" and the encoded trimmed text |
| PatientsPage.QueryStringTrimmed | src/features/patients/PatientsPage.tsx:49-52 | whitespace around the search does not change the query |
| PatientsPage.PatientsUrl | src/features/patients/PatientsPage.tsx:60 | the list URL under the base, followed by the query string |
| PatientsPage.LoadError | src/features/patients/PatientsPage.tsx:65-80 | no error exactly for an OK reply or a cancelled request; the listing message exactly for a status that is not OK; the network message exactly for a failed request |
| PatientsPage.LoadedPatients | src/features/patients/PatientsPage.tsx:65-76 | the list is replaced only on an OK reply, by the normalised body, the empty list when the body is not JSON |
| PatientsPage.NameText | src/features/patients/PatientsPage.tsx:156-161 | the name text of an element that is not `null` is the trimmed full name, or "(sin nombre)" when that is empty; it is never empty and never starts or ends with whitespace |
| PatientsPage.NameCell | src/features/patients/PatientsPage.tsx:155-161 | the render throws exactly for a `null` element, where `p.first_name` is read from null; any other element shows its name text |
| PatientsPage.NamelessRow | src/features/patients/PatientsPage.tsx:156-161 | a row without string names shows the placeholder, unless it is `null`, where the render throws |
| PatientsPage.OrDash | src/features/patients/PatientsPage.tsx:163-165 | a truthy value is shown as it is, anything else as a dash |
| PatientsPage.DateCell | src/features/patients/PatientsPage.tsx:168 | a falsy date shows a dash; a string date its first ten characters; an array, which also has `slice`, its first ten elements; any other truthy value makes the render throw |
| PatientsPage.CountText | src/features/patients/PatientsPage.tsx:135-138 | "Cargando..." while loading, otherwise the number of rows and " resultado(s)" |
| PatientsPage.Page.constructor | src/features/patients/PatientsPage.tsx:41-45 | not loading, no error, no rows, empty search |
| PatientsPage.Page.SetSearch | src/features/patients/PatientsPage.tsx:129 | only the search text changes |
| PatientsPage.EmptyNotice | src/features/patients/PatientsPage.tsx:184 | the "No hay pacientes" row shows only once loading is over with an empty list, and the counter then reads "0 resultado(s)" |
| PatientsPage.Page.Load | src/features/patients/PatientsPage.tsx:54-87 | fetches PatientsUrl of the current search; ends not loading, with LoadError's error and LoadedPatients' list, and the empty-table notice shows afterwards exactly when that list is empty |
| PatientRecordsList.RecordsUrl | src/features/patients/components/PatientRecordsList.tsx:30-43 | with a base that is set and not empty once its trailing slashes are stripped, the URL is that base followed by the patient's evaluations path |
| PatientRecordsList.OkRecords | src/features/patients/components/PatientRecordsList.tsx:64-66 | a null body breaks the read and leaves the records alone; an array under `data` is taken; a missing or null `data` gives no records |
| PatientRecordsList.AfterFetch | src/features/patients/components/PatientRecordsList.tsx:54-71 | a 404 empties the list; an OK body that reads gives its records; any other status, a body that is not JSON and a failed request keep the old records |
| PatientRecordsList.StatusLabel | src/features/patients/components/PatientRecordsList.tsx:155 | the label is as long as the status, and a status without "_" is shown as it is |
| PatientRecordsList.StatusLabels | src/features/patients/components/PatientRecordsList.tsx:155 | "EN_ESPERA" reads "EN ESPERA"; the confirmed and cancelled statuses are shown as they are |
| PatientRecordsList.TwoWords | src/features/patients/components/PatientRecordsList.tsx:155 | two words joined by "_" are labelled with a space between them, even when the second holds more "_" |
| PatientRecordsList.StatusLabelAt | src/features/patients/components/PatientRecordsList.tsx:155 | only the first "_" differs, and it becomes a space |
| PatientRecordsList.Render | src/features/patients/components/PatientRecordsList.tsx:77-134 | the loading text exactly while loading; the no-records notice exactly when loading is over and the list is empty; a thrown render exactly when some record's status is not one of the three `statusConfig` keys; otherwise the cards of exactly the records |
| PatientRecordsList.RecordsList.constructor | src/features/patients/components/PatientRecordsList.tsx:27-28 | no records, loading |
| PatientRecordsList.RecordsList.FetchRecords | src/features/patients/components/PatientRecordsList.tsx:32-75 | without a usable base nothing is sent and nothing changes; otherwise one GET of RecordsUrl with the cookie's header, ending not loading with AfterFetch's records |
| SummaryStats.FormatCop | src/features/stats/components/SummaryStats.tsx:15-23 | a value that is not a finite number shows ""; a finite one goes through the peso formatter |
| SummaryStats.RenderVariation | src/features/stats/components/SummaryStats.tsx:25-48 | no line on the balance card; the no-data notice exactly when another card has no variation; otherwise the variation, upward and green exactly when it is positive |
| SummaryStats.Stats | src/features/stats/components/SummaryStats.tsx:58-84 | five cards: this period's income and the balance in pesos, the balance last and without variation, and five different labels, so the list keys are unique |
| SummaryStats.VariationLines | src/features/stats/components/SummaryStats.tsx:26-84 | only the balance card lacks a variation line; a card without a variation shows the notice |
| SummaryStats.Render | src/features/stats/components/SummaryStats.tsx:53-58 | the loading text exactly while loading; the error text exactly when an error is stored or there is no data; otherwise the five cards of the data |
| Bars.MaxOf | src/features/stats/components/IncomeByProcedureType.tsx:15 | the maximum is at least 1 and at least every income, and is 1 or one of the incomes (the same code stands in MonthlyIncomeChart.tsx line 18 and WeeklyIncomeChart.tsx line 19) |
| Bars.PercentBounds | src/features/stats/components/IncomeByProcedureType.tsx:26 | with no negative income every percentage lies between 0 and 100 (the same code stands in MonthlyIncomeChart.tsx line 29 and WeeklyIncomeChart.tsx line 30) |
| Bars.FractionBounds | src/features/stats/components/IncomeByProcedureType.tsx:26 | an income between 0 and the maximum is between 0% and 100% of it |
| Bars.PercentOfMax | src/features/stats/components/IncomeByProcedureType.tsx:15-26 | the largest income, when it is at least 1, is exactly 100% (the same code stands in MonthlyIncomeChart.tsx lines 18-29 and WeeklyIncomeChart.tsx lines 19-30) |
| Bars.FractionWhole | src/features/stats/components/IncomeByProcedureType.tsx:26 | the maximum is 100% of itself |
| Bars.Height | src/features/stats/components/MonthlyIncomeChart.tsx:35 | a bar is at least 2% tall and at least its percentage, and is one of the two (the same code stands in WeeklyIncomeChart.tsx line 35) |
| Bars.HeightBounds | src/features/stats/components/MonthlyIncomeChart.tsx:29-35 | with no negative income every bar is between 2% and 100% tall (the same code stands in WeeklyIncomeChart.tsx lines 30-35) |
| IncomeByProcedureType.TopRows | src/features/stats/components/IncomeByProcedureType.tsx:14 | the first ten rows in order, or all of them when there are fewer |
| IncomeByProcedureType.Incomes | src/features/stats/components/IncomeByProcedureType.tsx:15 | the rows' incomes, in order |
| IncomeByProcedureType.BarsOf | src/features/stats/components/IncomeByProcedureType.tsx:25-36 | one bar per row, with its name and its income as a percentage of the largest |
| IncomeByProcedureType.Render | src/features/stats/components/IncomeByProcedureType.tsx:11-25 | the loading text exactly while loading; the error text exactly for a stored error or data that is not an array; "Sin datos" exactly for an empty array; otherwise the bars of the first ten rows |
| IncomeByProcedureType.ChartRows | src/features/stats/components/IncomeByProcedureType.tsx:14-30 | a non-empty array shows up to ten bars, named after the first rows in order |
| IncomeByProcedureType.ChartWidths | src/features/stats/components/IncomeByProcedureType.tsx:15-36 | with no negative income every bar is between 0% and 100% wide, and the largest row of at least 1 fills its bar |
| MonthlyIncomeChart.LastRows | src/features/stats/components/MonthlyIncomeChart.tsx:17 | the last twelve rows in order, or all of them when there are fewer |
| MonthlyIncomeChart.JsRem | src/features/stats/components/MonthlyIncomeChart.tsx:30 | JavaScript's remainder: it has the sign of the dividend and is smaller than the divisor in size |
| MonthlyIncomeChart.MonthLabel | src/features/stats/components/MonthlyIncomeChart.tsx:8-30 | no label exactly when the index `(month - 1) % 12` is negative; otherwise that month's name |
| MonthlyIncomeChart.MonthLabels | src/features/stats/components/MonthlyIncomeChart.tsx:8-30 | months 1 to 12 are named in order, a month and the same month a year later agree, 13 reads "Ene", and month 0 has no label |
| MonthlyIncomeChart.Incomes | src/features/stats/components/MonthlyIncomeChart.tsx:18 | the rows' incomes, in order |
| MonthlyIncomeChart.BarsOf | src/features/stats/components/MonthlyIncomeChart.tsx:28-38 | one bar per row, labelled with its month and as tall as its percentage, at least 2% |
| MonthlyIncomeChart.Render | src/features/stats/components/MonthlyIncomeChart.tsx:13-28 | the loading text exactly while loading; the error text exactly for a stored error or data that is not an array; "Sin datos" exactly for an empty array; otherwise the bars of the last twelve rows |
| MonthlyIncomeChart.BarHeights | src/features/stats/components/MonthlyIncomeChart.tsx:29-35 | every bar is at least 2% tall, and with no negative income at most 100% |
| MonthlyIncomeChart.ChartKeepsLatest | src/features/stats/components/MonthlyIncomeChart.tsx:16-38 | the bars are the most recent rows, in order |
| WeeklyIncomeChart.Incomes | src/features/stats/components/WeeklyIncomeChart.tsx:19 | the rows' incomes, in order |
| WeeklyIncomeChart.BarsOf | src/features/stats/components/WeeklyIncomeChart.tsx:29-38 | one bar per day, with its date and as tall as its percentage, at least 2% |
| WeeklyIncomeChart.Render | src/features/stats/components/WeeklyIncomeChart.tsx:16-29 | the loading text exactly while loading; the error text exactly for a stored error or data that is not an array; the no-data notice exactly for an empty array; otherwise one bar per row |
| WeeklyIncomeChart.BarHeights | src/features/stats/components/WeeklyIncomeChart.tsx:19-35 | with no negative income every bar is between 2% and 100% tall, and the best day of at least 1 reaches the top |
| ExportButton.Ceil | src/components/ExportButton.tsx:60-65 | the least integer at or above the value |
| ExportButton.PageCount | src/components/ExportButton.tsx:55-65 | at least one page; after that many pages nothing of the image is left, and after any fewer (from one on) something still is |
| ExportButton.CeilPages | src/components/ExportButton.tsx:55-65 | the image's height in page heights, rounded up, leaves nothing over and leaves something after every smaller count |
| ExportButton.Paginate | src/components/ExportButton.tsx:52-65 | the loop adds exactly PageCount pages, page k placed k page heights up |
| ExportButton.LeftAfterDecreases | src/components/ExportButton.tsx:57-64 | what is left of the image never grows from one page to the next |
| ExportButton.ImgHeight | src/components/ExportButton.tsx:49-50 | the image keeps the canvas's aspect ratio at the page's width |
| ExportButton.PageCountSteps | src/components/ExportButton.tsx:55-65 | an image no taller than a page takes one page; a taller one takes one more page than what is left after the first |
| ExportButton.JsImgHeight | src/components/ExportButton.tsx:49-50 | with JavaScript division: the exact proportional height for a canvas with width, infinity for a canvas with height but no width, NaN for an empty canvas |
| ExportButton.JsLeftAfterFinite | src/components/ExportButton.tsx:51-65 | on a finite height the JavaScript subtraction is the exact `heightLeft` the pagination loop uses |
| ExportButton.InfinityStays | src/components/ExportButton.tsx:56-64 | subtracting page heights from an infinite height leaves it infinite |
| ExportButton.ZeroWidthNeverEnds | src/components/ExportButton.tsx:49-65 | as written: for a canvas with height and no width, `heightLeft > 0` holds after every number of pages, so the loop never ends |
| ExportButton.EmptyCanvasOnePage | src/components/ExportButton.tsx:49-65 | as written: an empty canvas gives a NaN height, the loop test fails at once, and one page is added |
| ExportButton.Caption | src/components/ExportButton.tsx:84 | "Exportando..." exactly while an export runs and "Exportar a PDF" exactly while none does, so the two captions tell the states apart |
| ExportButton.Exporter.constructor | src/components/ExportButton.tsx:15 | not exporting, no alert |
| ExportButton.FileName | src/components/ExportButton.tsx:11-14 | the caller's `filename`, or "historia-clinica.pdf" when it passes none |
| ExportButton.Exporter.HandleExport | src/components/ExportButton.tsx:17-74 | without an element, one alert and no export; a failed capture, or (corrected) a canvas without width, the error alert, no pages and nothing saved; otherwise the pages of Paginate, saved under FileName, with no alert; the busy flag is down again on every path |
| Mulberry32.Pow32 | src/features/auth/LoginPage.tsx:25 | 2 to the 32nd is the divisor of the last line |
| Mulberry32.Xor | src/features/auth/LoginPage.tsx:23-25 | the exclusive or of the low n bits stays below 2^n |
| Mulberry32.Or | src/features/auth/LoginPage.tsx:23-24 | the inclusive or of the low n bits stays below 2^n |
| Mulberry32.Imul | src/features/auth/LoginPage.tsx:23-24 | `Math.imul` read as an unsigned word stays below 2^32 |
| Mulberry32.Rounds | src/features/auth/LoginPage.tsx:22-25 | each of the three mixing statements keeps a 32-bit word |
| Mulberry32.Unit | src/features/auth/LoginPage.tsx:25 | every call returns a value in [0, 1) |
| Mulberry32.Outputs | src/features/auth/LoginPage.tsx:20-26 | call k of a generator returns Unit of the seed advanced k + 1 times by 0x6d2b79f5 |
| Mulberry32.OutputsSnoc | src/features/auth/LoginPage.tsx:20-26 | one more call appends exactly the next value |
| Mulberry32.OutputsInUnit | src/features/auth/LoginPage.tsx:25 | every value a generator returns is in [0, 1) |
| Mulberry32.Rng.constructor | src/features/auth/LoginPage.tsx:20-21 | a fresh generator holds its seed and has returned nothing |
| Mulberry32.Rng.Next | src/features/auth/LoginPage.tsx:21-26 | the seed advances by 0x6d2b79f5 and the value returned is the next of Outputs |
| Mulberry32.LatestDraw | src/features/auth/LoginPage.tsx:22-25 | the latest value is Unit of the seed the call left |
| Mulberry32.Layout | src/features/auth/LoginPage.tsx:42-52 | circle i is built from calls 3i, 3i + 1 and 3i + 2, in the order size, left, top |
| Mulberry32.LayoutSnoc | src/features/auth/LoginPage.tsx:42-52 | one more circle appends exactly the style of the next three calls |
| Mulberry32.FloatStyles | src/features/auth/LoginPage.tsx:40-53 | the memo's loop yields exactly Styles of its seed (the same code stands in Gallery.tsx lines 57-70) |
| Mulberry32.DrawBounds | src/features/auth/LoginPage.tsx:43 | a call scaled by span and shifted by least lies in [least, least + span) (the same code stands in Gallery.tsx line 60) |
| Mulberry32.LayoutBounds | src/features/auth/LoginPage.tsx:43-45 | with draws in [0, 1), every size is in [least, least + span) and every offset in [0, 100) |
| Mulberry32.StyleBounds | src/features/auth/LoginPage.tsx:43-45 | every circle of a generator is in those bounds (the same code stands in Gallery.tsx lines 60-62) |
| Mulberry32.StylesPrefix | src/features/auth/LoginPage.tsx:42 | the first m of n circles are the m circles of the same seed (the same code stands in Gallery.tsx line 59) |
| Gallery.ListUrl | src/features/home/components/Gallery.tsx:11-41 | the key is the stripped base followed by the image list path |
| Gallery.ListUrlIsEndpoint | src/features/home/components/Gallery.tsx:38-41 | the gallery reads the very list the administration page manages |
| Gallery.CardImageUrl | src/features/home/components/Gallery.tsx:43-46 | a path starting with "http" is used as it is; any other goes under the stripped base's /storage/ |
| Gallery.CardImageUrlSlashes | src/features/home/components/Gallery.tsx:11-46 | trailing slashes on the variable do not change any image URL |
| Gallery.Gradient | src/features/home/components/Gallery.tsx:31-158 | every card takes one of the three gradients |
| Gallery.GradientCycles | src/features/home/components/Gallery.tsx:158 | the gradient repeats every three cards and neighbouring cards never share one |
| Gallery.Hidden | src/features/home/components/Gallery.tsx:52 | one flag per image, all down |
| Gallery.Reveal | src/features/home/components/Gallery.tsx:78 | the intersecting card's flag goes up and every other stays as it was |
| Gallery.RevealOrder | src/features/home/components/Gallery.tsx:78 | revealing a card twice is revealing it once, and reveals of two cards commute |
| Gallery.RevealMonotone | src/features/home/components/Gallery.tsx:78 | a revealed card stays revealed, and an index outside the list changes nothing |
| Gallery.Visibility.constructor | src/features/home/components/Gallery.tsx:48 | no flags |
| Gallery.Visibility.OnImages | src/features/home/components/Gallery.tsx:50-54 | a loaded list, even an empty one, resets the flags to all down, one per image; no list keeps them |
| Gallery.Visibility.OnIntersect | src/features/home/components/Gallery.tsx:75-80 | an intersecting entry reveals its card; any other changes nothing |
| Gallery.NoticesOf | src/features/home/components/Gallery.tsx:134-155 | the loading and error blocks follow the cache; the empty notice exactly for a loaded empty list, the grid exactly for a loaded non-empty one, never both |
| Gallery.ShownDescription | src/features/home/components/Gallery.tsx:188-190 | a description is shown exactly when it is neither null nor "" |
| Gallery.Cards | src/features/home/components/Gallery.tsx:157-175 | one card per image, in order |
| Gallery.CardsFaithful | src/features/home/components/Gallery.tsx:157-230 | card i shows image i's pictures, takes gradient i mod 3, waits 150 ms per earlier card, and is faded in exactly when its flag is up; a fresh list shows every card faded out |
| Gallery.FloatCirclesBounds | src/features/home/components/Gallery.tsx:57-70 | eight circles, each 20 to 100 pixels across and placed inside the section |
| LoginPage.LoginStylesBounds | src/features/auth/LoginPage.tsx:40-53 | twelve circles, each 50 to 150 pixels across and placed inside the screen |
| LoginPage.InputChange | src/features/auth/LoginPage.tsx:106-112 | the named key takes the box's checked state for a checkbox and the typed text otherwise; every other key is kept, and no key is lost |
| LoginPage.InputChangeKeepsFields | src/features/auth/LoginPage.tsx:31-112 | the email, password and remember-me keys survive every change |
| LoginPage.InputChangeOrder | src/features/auth/LoginPage.tsx:106-112 | the same change twice is the change once, and changes to different keys commute |
| LoginPage.Field | src/features/auth/LoginPage.tsx:81-82 | a key's value when the record has it, undefined otherwise |
| LoginPage.LoginRequest | src/features/auth/LoginPage.tsx:69-84 | a POST to the login URL with the token cookie, or "" when there is none, and the record's email and password |
| LoginPage.NextPath | src/features/auth/LoginPage.tsx:96-97 | a present, non-empty `next` is followed; otherwise patient registration |
| LoginPage.RefusalMessage | src/features/auth/LoginPage.tsx:89 | the reply's truthy `message` when it has one, otherwise "No se pudo iniciar sesión."; never falsy |
| LoginPage.ErrorIffStays | src/features/auth/LoginPage.tsx:58-104 | a message is shown exactly when the screen does not navigate, the user is stored exactly when it does, and then the store comes right before the navigation, after the two requests |
| LoginPage.RequestsSent | src/features/auth/LoginPage.tsx:65-84 | the CSRF request always goes first; the login request follows exactly when the CSRF request did not throw |
| LoginPage.RefusedShowsMessage | src/features/auth/LoginPage.tsx:88-91 | a reply that is not OK shows RefusalMessage of its body and neither stores a user nor navigates |
| LoginPage.AcceptedNavigates | src/features/auth/LoginPage.tsx:94-98 | an OK reply with a body stores its `user` and goes to NextPath, with no message |
| LoginPage.ThrownShowsConnectionError | src/features/auth/LoginPage.tsx:94-100 | a thrown CSRF request, a failed login request, and an OK reply whose body is null or not JSON all show the connection error |
| LoginPage.CredentialsSent | src/features/auth/LoginPage.tsx:80-83 | the body carries the email and password the record holds |
| LoginPage.Page.constructor | src/features/auth/LoginPage.tsx:30-37 | empty credentials, not remembered, password hidden, not loading, no message |
| LoginPage.Page.HandleInputChange | src/features/auth/LoginPage.tsx:106-112 | the record becomes InputChange of the old one; nothing else changes |
| LoginPage.Page.OnReply | src/features/auth/LoginPage.tsx:86-98 | the message and effects are Reaction's; the record and flags stay |
| LoginPage.Page.HandleSubmit | src/features/auth/LoginPage.tsx:58-104 | the message and effects are Submit's on the record as it was; loading is down at the end; the record is untouched |
| Strings.TrimStart | src/features/patients/PatientsPage.tsx:50 | the result is a suffix of the input, everything removed is whitespace, and it does not start with whitespace |
| Strings.TrimEnd | src/features/patients/PatientsPage.tsx:50 | the result is a prefix of the input, everything removed is whitespace, and it does not end with whitespace |
| Strings.TrimIdempotent | src/features/post-login/RegisterPatientPage.tsx:97-101 | a trimmed string neither starts nor ends with whitespace, and trimming it again changes nothing |
| Strings.BlankIff | src/features/post-login/RegisterPatientPage.tsx:97-101 | `trim() !== ""` fails exactly when every character is whitespace |
| Strings.DigitsOf | src/features/post-login/components/PatientBasicsFields.tsx:170 | the result has only ASCII digits and is no longer than the input |
| Strings.DigitsOfAppend | src/features/post-login/components/PatientBasicsFields.tsx:170 | stripping non-digits distributes over concatenation |
| Strings.DigitsOfDigits | src/features/post-login/components/PatientBasicsFields.tsx:170 | a string of digits is left unchanged |
| Strings.DigitsOfIdempotent | src/features/post-login/components/PatientBasicsFields.tsx:170 | stripping twice strips nothing more |
| Strings.IndexOf | src/features/patients/components/PatientRecordsList.tsx:37-40 | a found position is the first at which the pattern occurs; no position has it when none is found |
| Strings.ReplaceFirstCharAt | src/features/patients/components/PatientRecordsList.tsx:155 | `replace("_", " ")` changes the first underscore, and only it |
| Strings.ReplaceFirstChar | src/features/patients/components/PatientRecordsList.tsx:155 | the length is kept and a string without the character is unchanged |
| Strings.StripTrailing | src/features/patients/components/PatientRecordsList.tsx:30 | the result is a prefix of the input that does not end in the character, and everything removed is that character |
| Strings.StripTrailingIdempotent | src/features/patients/components/PatientRecordsList.tsx:30 | stripping twice strips nothing more |
| Strings.Take | src/features/post-login/components/PatientBasicsFields.tsx:171 | `slice(0, n)` is the prefix of length n, or the whole string when it is shorter |
| Strings.Join | src/features/admin/RemitentesPage.tsx:154-158 | no parts join to the empty string and one part to itself (JoinAppend gives the general case) |
| Strings.Flatten | src/features/admin/RemitentesPage.tsx:154-158 | one list flattens to itself (FlattenAppend and FlattenContents give the general case) |
| Strings.JoinAppend | src/features/admin/RemitentesPage.tsx:154-158 | two non-empty runs of parts join to their joins with one separator between them |
| Strings.FlattenAppend | src/features/admin/RemitentesPage.tsx:154-158 | flattening distributes over concatenation, so the lists keep their order |
| Strings.FlattenContents | src/features/admin/RemitentesPage.tsx:154-158 | a string is in the flattened lists exactly when it is in one of the lists |
| Decimal.NatToDecimal | src/features/patients/components/PatientInfo.tsx:51 | `String(n)` is a non-empty digit string with no leading zero except for zero |
| Decimal.DecimalRoundTrip | src/features/patients/components/PatientInfo.tsx:51 | the text of a natural number reads back as that number |
| Decimal.CanonicalRoundTrip | src/features/patients/components/PatientInfo.tsx:51 | every digit string without superfluous leading zeros is the text of its own value |
| Decimal.IntToDecimalInjective | src/features/control-images/services/ClinicalImagesService.ts:9-10 | different ids give different texts, so different image URLs |
| Decimal.IntToDecimalSign | src/features/control-images/services/ClinicalImagesService.ts:9-10 | the text starts with '-' exactly for a negative integer, followed by the text of its magnitude |
| Decimal.GroupThousands | src/features/post-login/RegisterPatientPage.tsx:85 | `toLocaleString("es-CO")` of a whole number starts and ends with a digit and holds only digits and '.' |
| Decimal.GroupThousandsDigits | src/features/post-login/RegisterPatientPage.tsx:85 | removing the separators of the grouped text gives the plain decimal text back |
| Decimal.GroupThousandsValue | src/features/post-login/RegisterPatientPage.tsx:81-85 | reading the grouped text back as digits gives the number |
| Decimal.SplitThousands | src/features/post-login/RegisterPatientPage.tsx:85 | the text of a number of four or more digits is the text of its thousands followed by its last three digits |
| Decimal.DigitPrefix | src/features/post-login/RegisterPatientPage.tsx:212 | the longest digit prefix: a prefix of digits followed by the end or a non-digit |
| Decimal.ParseUnsigned | src/features/patients/components/NewRecordModal.tsx:41-42 | a parsed unsigned number is never negative |
| Decimal.Negate | src/features/patients/components/NewRecordModal.tsx:41-42 | the sign flips the parsed value exactly when a '-' was read, and NaN stays NaN |
| Decimal.ParseFloatDigits | src/features/patients/components/NewRecordModal.tsx:41-42 | parseFloat reads a digit string as its decimal value |
| Decimal.ParseFloatNat | src/features/post-login/RegisterPatientPage.tsx:104-105 | parseFloat reads the text of a natural number back as that number |
| Decimal.ParseFloatNaN | src/features/patients/components/NewRecordModal.tsx:41-42 | a string whose first non-blank character is neither a sign, a digit nor '.' is NaN |
| Decimal.NegativeNotPositive | src/features/post-login/RegisterPatientPage.tsx:104-105 | a string whose first non-blank character is '-' fails the `parseFloat(x) > 0` test, whether it reads as a negative number, as zero or as NaN |
| Decimal.ParseFloatUnsigned | src/features/patients/components/PatientRecordDetail.tsx:125-126 | parseFloat of a string starting with a digit is its unsigned parse |
| Decimal.ParseUnsignedFraction | src/features/patients/components/PatientRecordDetail.tsx:125-126 | digits, a point and more digits parse to the whole part plus the value of the fraction |
| Decimal.ParseInt | src/features/post-login/RegisterPatientPage.tsx:212 | radix-less `parseInt` is NaN exactly when, after blanks and an optional sign, a "0x"/"0X" mark is not followed by a hexadecimal digit, or an unmarked text does not start with a decimal digit |
| Decimal.ParseIntDigits | src/features/post-login/RegisterPatientPage.tsx:212 | parseInt reads a digit string as its decimal value |
| Decimal.HexDigitPrefix | src/features/post-login/RegisterPatientPage.tsx:212 | the longest prefix of hexadecimal digits: followed by the end or by a character that is not one |
| Decimal.ParseIntUnsigned | src/features/post-login/RegisterPatientPage.tsx:212 | the unsigned part is NaN exactly when a "0x"/"0X" mark is not followed by a hexadecimal digit, or an unmarked text does not start with a decimal digit |
| Decimal.ParseIntHex | src/features/post-login/RegisterPatientPage.tsx:212 | "0x" and a hexadecimal digit string read as its base-16 value |
| Decimal.ParseIntMinus | src/features/post-login/RegisterPatientPage.tsx:212 | a '-' negates whatever the unsigned part after it reads as (decimal or "0x" form), and NaN stays NaN |
| Decimal.ParseIntHexEmpty | src/features/post-login/RegisterPatientPage.tsx:212 | "0x" or "0X" followed by no hexadecimal digit is NaN, not zero |
| Decimal.ParseIntHexExamples | src/features/post-login/RegisterPatientPage.tsx:212 | "0x1A" reads as 26 and "-0x10" as -16 |
| Decimal.ParseIntNat | src/features/post-login/RegisterPatientPage.tsx:212 | parseInt reads the text of a natural number back as that number |

## Left out

- Network I/O, toasts, console messages and SWR caching and revalidation: each request is an outcome parameter, and a fetch is modelled from the moment its result is known.
- Races between overlapping requests (AbortController, unmounted components): each update runs to completion before the next.
- `parseFloat` exponents and the literal "Infinity" are not parsed; NaN is `None` and numbers are exact reals, so floating-point rounding is not modelled.
- `Number()` of a chart's income field is not modelled: incomes arrive as reals.
- The charts' amount labels and bar titles (`$` and `toLocaleString("es-CO")` of the income, IncomeByProcedureType.tsx:32, MonthlyIncomeChart.tsx:36, WeeklyIncomeChart.tsx:36) are not modelled: a bar holds only its name and its percentage.
- `toLocaleString("es-CO")` is modelled as a '.' between every group of three digits, without the locale's minimum-grouping rule. The summary cards' currency formatter is a function parameter.
- RegisterPatientPage.PriceRoundTrip, RegisterPatientPage.SubmittedPriceIsTyped, RegisterPatientPage.StickyTotalText: `Number()` of a price's digits (RegisterPatientPage.tsx:81, 275, 302) is a double, exact only below 2^53; the model reads the digits as an unbounded natural, so a price of 17 or more digits is rounded in the source and not in the model.
- `toLocaleDateString` and time zones: dates are shown raw, and the age is computed from calendar days given as parameters.
- The gallery's and the login page's JavaScript seed is a double. The model uses 32-bit integer arithmetic on it, which is exact for seeds below 2^53.
- Contact.tsx's own copy of mulberry32 is not part of this model.
- CSS class strings and layout are left out, except where a class names a state (the active tab, a highlighted button).
- The gallery's reveal observer is left out apart from the flags it sets: `observer.unobserve`, `disconnect`, and which cards are observed at all. `Visibility.OnIntersect` accepts any card index. As written, the effect has `[]` dependencies and observes only the cards whose refs exist at mount; on a cold load the grid is not rendered yet, so no card would ever be revealed (a consequence read from the code, not executed).
- NewRecordModal: when an OK evaluation reply's body has `data` but no `data.id`, the procedure body is sent without `medical_evaluation_id`; the model always sends the id it is given. A body that does not parse, or has no `data`, is a `Thrown` outcome.
- PatientRecordsList.Render, PatientRecordDetail.StatusConfig, RemitentesPage.StatusConfig: a status that names a property every JavaScript object inherits (such as "toString" or "constructor") finds a function in the status table. PatientRecordsList then does not throw, where the model treats the status as unknown. In PatientRecordDetail.tsx:233 and RemitentesPage.tsx:303 the `??` fallback is then not taken and the badge label is undefined, where the model shows the fallback badge.
- PatientRecordsList: a `data` field that is not an array is not modelled, nor is a `null` element inside the list.
- Gallery.Visibility.OnImages: the gallery's fetcher does not check `res.ok` (Gallery.tsx:8-9), so an error reply's JSON object becomes `images`, and the effect's `images.map` (Gallery.tsx:52) throws, so neither the empty notice nor the grid renders. The model's `data` is a list of images or nothing, and cannot hold such a body.
- ExportButton.HandleExport requires a canvas with no negative size, which a canvas cannot have, and a page of positive height, which jsPDF's A4 page always has. It also requires that no export is running, since the button is disabled while one is. A canvas without width does not make the source divide by zero with an error: JavaScript gives an infinite image height, and the loop never ends (see Findings).
- Strings are sequences of Unicode scalar values, while JavaScript's `length`, `slice`, `indexOf` and the `.` of a regular expression count UTF-16 code units. The two agree on text inside the Basic Multilingual Plane; a character outside it (an emoji, say) counts once here and twice in the source, so the ten-digit cut of the cellphone, the `slice(0, 10)` of dates and the note patterns can differ on such text.
- The procedures catalogue (PROCEDURES) is a parameter, not its literal contents.
- RegisterPatientPage passes `age`, `setAge` and similar props, while PatientBasicsFields declares `dateOfBirth` and `cedula`. Each side is modelled as it is written, and the mismatch is not reconciled.
- A submission runs as one method: `isSubmitting` is raised and lowered inside it, so a render while the request is pending is not a separate state.
- LoginPage: the show-password toggle and exceptions thrown by `router.push` are left out.
- LoginPage: `errorMessage` holds the raw `data.message` value as JSON. The user is recorded as `UserSet(Option<Json>)` and is not decoded into AuthContext.User.
- LoginPage: the XSRF token comes from `js-cookie`'s `Cookies.get` and is a parameter.
- The html2canvas and jsPDF libraries are left out: the canvas size and the page size are parameters of the export.

## Findings

| source | as written | input that shows it | evidently intended | confidence | as-written member | corrected member |
|---|---|---|---|---|---|---|
| src/features/post-login/components/ProceduresSelector.tsx:202-207 | the Interna checkbox calls `handlePiernaChange(e.target.checked, piernaExterna)`, passing only the Externa flag as the other side | both sides of Pierna ticked (Ambas), then Interna unticked: both side boxes clear and the leg price input is disabled, while Pierna stays selected | pass whether Externa is shown as ticked (`piernaExterna` or `piernaAmbas`), so unticking one side keeps the other | not executed | ProceduresSelector.InternaClickDropsExterna | ProceduresSelector.InternaClickKeepsExterna |
| src/components/ExportButton.tsx:49-65 | `imgHeight` is `canvas.height * pageWidth / canvas.width` with no check of the width, and the loop runs while `heightLeft > 0` | a captured canvas with height but width 0: `imgHeight` is Infinity, `heightLeft` stays Infinity, and pages are added forever, provided jsPDF's `addImage` (a library left out of the model) accepts the "data:," image of an empty canvas at infinite height; if it throws, the `catch` shows the error alert and no loop happens | a canvas without width is refused, for instance through the existing error path (the alert, nothing saved) | not executed | ExportButton.ZeroWidthNeverEnds | ExportButton.Exporter.HandleExport |
| src/features/patients/components/NewRecordModal.tsx:107 | every '.' of the price is deleted and the first ',' becomes the decimal point, although the price box is `type="number"` (line 276), whose value uses '.' as its decimal point and never holds a ',' | "1500.5" typed in the price box is sent as 15005 | keep the '.' of a value the number box holds, so the price sent is the number shown | not executed | NewRecordModal.DecimalPriceLosesPoint | NewRecordModal.KeptPointPriceValue |
