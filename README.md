# 434Me: report and ticket assembly, offense table, form state

This project models the core of the 434 incident-report generator. It proves properties of that model.

- The `/generate-report` endpoint of `server.js` checks a submitted incident record. It answers 400 when a required member is missing. Otherwise it assembles a prompt from a fixed opening, one numbered line per individual in custody, up to three conditional sentences and a closing sentence. It hands that prompt to a text-completion service and returns the first choice of the reply.
- The `/generate-ticket` endpoint checks the record the same way and assembles the same opening and individual lines. It then splits the completion text into non-blank lines. It adds an "Offense Codes" block only when there is at least one such line, then the ticket's conditional sentences and the closing sentence, and returns the assembled ticket.
- The `offenseCodes` table maps 30 offense titles to "code - title" texts.
- The report page (`src/components/ReportForm.jsx`) keeps the form state. Its handlers set a field, edit one member of one individual's row, add a row, remove a row, and reset the form. No element of the rendered page calls the reset handler.

Modules:

- `Wrappers` (wrappers.dfy): the `Option` type.
- `Text` (text.dfy): the JavaScript string built-ins the server uses, written out. These are `trim` over the ECMAScript whitespace set, `split` on one character, `join`, and the decimal text of a number inside a template literal.
- `OffenseCatalog` (catalog.dfy): the offense table and its shape invariant.
- `Server` (server.js):
  - A request body is a `Submission` whose members are `Absent` or `Str(s)`.
  - The date text and the completion service's reply are parameters.
  - The endpoints are methods that assemble the text with `+=` steps and `forEach` loops. They are proved equal to reference functions (`ReportPrompt`, `TicketText`). The lemmas are stated about those functions.
- `ReportForm` (ReportForm.jsx):
  - The handlers are functions from state to state.
  - `handleInmateChange` is a method that copies the rows into a fresh array and writes one member.
  - An event model of what the rendered page offers (edits, the "yes"/"no" selects, the add and remove buttons) gives the invariant the page keeps: at least one row, and flags that are "yes" or "no". It also connects the form to the server's validation.

What the code does that a reader might not expect:

- `/generate-report` returns the reply's text as the JSON object `{report}` (server.js:96). `server.js` does no checklist parsing and fills no PDF.
- The page's `handleSubmit` reads that response as a blob (ReportForm.jsx:66), although the server sends JSON.

## Model

| member | source | states |
|---|---|---|
| Server.Rejects | server.js:34-37 | The validation test: a submission is rejected when one of the five required members is absent or empty, or the individuals are absent or an empty list. What it decides is stated by `GenerateReport` and `GenerateTicket` |
| Server.Opening | server.js:41-46 | The opening block of the report and the ticket: the date, the officer, the area, the time, what was observed and the incident summary |
| Server.Conditions | server.js:54-56 | The conditional sentences, one per flag that is exactly "yes", in the order healthcare, mental health, restrictive housing; `ConditionsRoundTrip` reads them back |
| Server.Closing | server.js:58 | The closing sentence naming every individual's entry, joined by ", " |
| Server.ReportPrompt | server.js:41-58 | The report prompt: opening, individual lines, conditional sentences, closing sentence; `AssembleReportPrompt` is proved to build it |
| Server.RejectsIgnoresFlagsAndEntries | server.js:147-150 | Validation does not look at the three flags or at any individual's name and id, only at how many individuals there are |
| Server.Entries | server.js:48-52 | One "name (ID: id)" entry per individual, in input order |
| Server.InmateLinesAppend | server.js:49-52 | The individual lines of two lists in a row are the first list's lines, then the second's numbered on from where the first stopped |
| Server.InmateLineAt | server.js:50 | Individual i gets the line "\nInmate (i+1): name (ID: id)", after the lines of the individuals before it and before those after it |
| Server.InmateLinesSnoc | server.js:49-50 | One more individual adds exactly one more line, numbered after the others |
| Server.EntriesSnoc | server.js:51 | One more individual adds exactly one more entry at the end |
| Server.AppendInmates | server.js:48-52 | The `forEach` loop appends exactly the numbered individual lines to the prompt and collects exactly the entries, in input order |
| Server.AppendConditions | server.js:54-56 | The three conditional appends add exactly the conditional sentences of the flags that are "yes", in the fixed order |
| Server.ReadSentencesBack | server.js:54-56 | Any in-order selection of three sentences that part ways at fixed positions reads back as exactly that selection |
| Server.ConditionsRoundTrip | server.js:54-56 | For the report and the ticket sentences, reading back the conditional sentences gives, for each flag, whether it is exactly "yes", in the order healthcare, mental health, restrictive housing |
| Server.SentencesDiffer | server.js:54-56 | The four conditional sentences differ at two fixed positions, after "The individual was " and after "taken to " |
| Server.ReportPromptFrame | server.js:41-58 | The report prompt starts with the opening block and ends with the closing sentence naming every individual, joined by ", " |
| Server.AssembleReportPrompt | server.js:41-58 | The `+=` steps build exactly the report prompt: opening, individual lines, conditional sentences, closing sentence |
| Server.GenerateReport | server.js:27-103 | A rejected submission gets 400 and no completion call; otherwise the prompt built for the call (`sent`) is exactly `ReportPrompt`, and the answer is `{report: first choice}`, or 500 when the reply failed or had no choice |
| Server.KeepNonBlank | server.js:198 | The filter keeps no blank line and never more lines than it was given |
| Server.KeepNonBlankInOrder | server.js:198 | The kept lines are a subsequence of the input, in input order |
| Server.KeepNonBlankSound | server.js:198 | Every kept line is a line of the input |
| Server.KeepNonBlankComplete | server.js:198 | Every non-blank line of the input is kept |
| Server.KeepNonBlankCount | server.js:198 | Every non-blank line is kept exactly as many times as it occurs in the input |
| Server.KeepNonBlankAppend | server.js:198 | Filtering two lists in a row is filtering each of them |
| Server.KeepNonBlankKeepsAll | server.js:198 | Lines that are all non-blank pass the filter unchanged |
| Server.NothingKeptIff | server.js:198 | The filter keeps nothing exactly when every line is blank |
| Server.ExtractOffenses | server.js:198 | `split("\n")` followed by the non-blank filter; the lemmas below state what it keeps |
| Server.ExtractedLinesClean | server.js:198 | No extracted offense line holds a line break or is blank |
| Server.ExtractOffensesLines | server.js:198 | The extracted lines are the non-blank lines of the completion text, every one of them as often as it occurs, in their order |
| Server.AllLinesBlankIff | server.js:198 | Every line of the text is blank exactly when the whole text is whitespace |
| Server.NoOffensesIff | server.js:198 | No offense line is extracted exactly when the completion text is whitespace only |
| Server.BlankLineIgnored | server.js:198 | Putting a blank line between two lines of the completion text changes nothing that is extracted |
| Server.BlankEntryDropped | server.js:198 | A blank entry anywhere in a list of lines is dropped by the filter |
| Server.ExtractIdempotent | server.js:198 | Joining the extracted lines with line breaks and extracting again gives the same lines |
| Server.RefilterJoined | server.js:198 | Clean non-blank lines joined with line breaks filter back to themselves |
| Server.OffenseBlock | server.js:205-207 | The "Offense Codes" block: the header and the lines joined by "\n" when there is at least one line, and nothing otherwise |
| Server.OffenseBlockReadBack | server.js:205-207 | When lines were extracted, the block is "\n\nOffense Codes:\n" and the lines joined by "\n", and splitting that join at line breaks gives exactly the extracted lines |
| Server.TicketText | server.js:154-213 | The ticket: opening, individual lines, the "offenses were identified" line, the "Offense Codes" block, the ticket's conditional sentences and the closing sentence; `StartTicket` and `FinishTicket` are proved to build it |
| Server.TicketFrame | server.js:154-213 | The ticket starts with the opening block and ends with the closing sentence naming every individual |
| Server.StartTicket | server.js:154-170 | Before the completion call the ticket holds exactly the opening, the individual lines and the "offenses were identified" line, and the entries are collected |
| Server.FinishTicket | server.js:198-213 | After the call the ticket gains exactly the "Offense Codes" block of the extracted lines (when there are any), the conditional sentences and the closing sentence |
| Server.TicketOffenseBlock | server.js:170-213 | The ticket holds the "Offense Codes" block exactly when the completion text is not whitespace only. The block sits after the "offenses were identified" line and before the conditional and closing sentences |
| Server.TicketRecordsOffenseLines | server.js:198-213 | The ticket records the extracted lines exactly: two completion texts that give the same ticket have the same non-blank lines |
| Server.CollectOffenses | server.js:200-202 | The `forEach` push loop copies exactly the extracted lines, in order |
| Server.GenerateTicket | server.js:140-222 | A rejected submission gets 400 and no completion call. Otherwise the service is called, and the answer is `{ticket: TicketText(extracted lines)}`, or 500 when the reply failed or had no choice |
| OffenseCatalog.Values | server.js:106-137 | `Object.values` yields one "code - title" text per entry, in table order |
| OffenseCatalog.ParseValue | server.js:106-137 | A text read as code and title has a three-digit code and is exactly that code, " - " and that title |
| OffenseCatalog.ParseValueRoundTrip | server.js:106-137 | A "code - title" text reads back as that code and title |
| OffenseCatalog.CodesLeadBack | server.js:106-137 | Every entry's code is three digits, and its number leads back to the entry's own position |
| OffenseCatalog.CodesDistinct | server.js:106-137 | The 30 codes are pairwise distinct |
| OffenseCatalog.TitlesDistinct | server.js:106-137 | The 30 titles (the object keys) are pairwise distinct |
| OffenseCatalog.CatalogWellFormed | server.js:106-137 | The table has 30 entries, and every value is a three-digit code, " - " and the entry's own key. No two entries share a code or a key |
| Text.Trim | server.js:198 | `trim` gives the line minus whitespace at its start and its end: a contiguous part with only whitespace before and after it and none at either of its own ends, and "" exactly when the line is all whitespace |
| Text.BlankIffTrimEmpty | server.js:198 | A line is blank (whitespace only) exactly when `trim` leaves nothing of it |
| Text.TrimStart | server.js:198 | Drops exactly the leading whitespace |
| Text.TrimEnd | server.js:198 | Drops exactly the trailing whitespace |
| Text.Split | server.js:198 | `split("\n")` gives at least one part, and no part holds the separator |
| Text.JoinSplit | server.js:198 | Joining the parts of a split with the separator gives the text back |
| Text.SplitJoin | server.js:206 | Splitting a join of separator-free parts gives the parts back |
| Text.SplitAtSep | server.js:198 | Splitting at a first separator gives the part before it, then the split of the rest |
| Text.Decimal | server.js:50 | `${index + 1}` is a non-empty run of digits with no leading zero |
| Text.DecimalRoundTrip | server.js:50 | The decimal digits read back as the number |
| Text.DecimalInjective | server.js:50 | Different numbers get different line numbers |
| ReportForm.InitialForm | src/components/ReportForm.jsx:8-18 | The start state: five empty texts, the three flags "no" and one blank row |
| ReportForm.HandleChange | src/components/ReportForm.jsx:24-26 | The named field takes the value, and every other field and the rows are unchanged |
| ReportForm.HandleChangeLaws | src/components/ReportForm.jsx:24-26 | Writing a field's own value changes nothing, and a second write wins |
| ReportForm.AddInmate | src/components/ReportForm.jsx:34-36 | Exactly one blank row is appended; earlier rows and all other fields are unchanged |
| ReportForm.WithoutIndex | src/components/ReportForm.jsx:39 | The index filter drops exactly the row at that position; a position outside the list drops nothing |
| ReportForm.RemoveInmate | src/components/ReportForm.jsx:38-41 | With the index in range, exactly that row is dropped and the rest keep their order (length − 1). Any other index leaves the list unchanged. All other fields are unchanged |
| ReportForm.RemoveUndoesAdd | src/components/ReportForm.jsx:34-41 | Removing the row just added gives the state back |
| ReportForm.SetIndividual | src/components/ReportForm.jsx:30 | Writing one member of a row sets it and keeps the other member |
| ReportForm.SetIndividualField | src/components/ReportForm.jsx:28-32 | Only the named member of row i changes. The number of rows, every other row and the row's other member are unchanged |
| ReportForm.HandleInmateChange | src/components/ReportForm.jsx:28-32 | Copying the rows into a new array and writing one member gives `SetIndividualField` for an index in range. Out of range, it is the failure the script throws |
| ReportForm.HandleReset | src/components/ReportForm.jsx:90-101 | Reset writes five empty texts, the three flags "no" and one blank row |
| ReportForm.ResetRestoresInitial | src/components/ReportForm.jsx:90-101 | Reset from any state gives exactly the state the page starts in |
| ReportForm.Offered | src/components/ReportForm.jsx:133-255 | The actions the rendered page offers: any text edit, the select options "yes" and "no", an edit or remove for a rendered row, remove only while there is more than one row, and add. The page never calls `handleReset`, so reset is not among them |
| ReportForm.Step | src/components/ReportForm.jsx:24-41 | An offered action applies `handleChange`, `handleInmateChange`, `addInmate` or `removeInmate` |
| ReportForm.StepKeepsInvariant | src/components/ReportForm.jsx:186-193 | Every action the page offers keeps at least one row and keeps the flags "yes" or "no" |
| ReportForm.RunKeepsInvariant | src/components/ReportForm.jsx:186-225 | The invariant holds after any sequence of offered actions |
| ReportForm.ReachableKeepsInvariant | src/components/ReportForm.jsx:186-225 | Every state reachable from the start state has at least one row and flags "yes" or "no" |
| ReportForm.ToSubmission | src/components/ReportForm.jsx:58 | The JSON body carries every field as a string and every row as an individual, in order |
| ReportForm.InitialFormRejected | src/components/ReportForm.jsx:8-18 | The server rejects the start state |
| ReportForm.ReachableRejectedIff | src/components/ReportForm.jsx:186-193 | The server rejects a reachable form exactly when one of its five text fields is empty |
| ReportForm.ReachableFlagsDecide | src/components/ReportForm.jsx:208-225 | On a reachable form a flag is "yes" exactly when it is not "no" |

## Left out

- `getFormattedDate` (server.js:17-24) reads the clock and the locale, so the date text is a parameter of the endpoints.
- The completion service, including the system and user messages and the model name (server.js:12-14, 60-90, 172-192), is outside the model. The report's user message is the text "Generate a professional 434 incident report based on these details:" and two line breaks, followed by the built prompt (server.js:88); the model stops at the built prompt. The service's outcome is the `Completion` parameter. `TransportError` stands for a thrown call or a reply without `choices`, and `Reply([])` for an empty list of choices. Because the user message that lists `Object.values(offenseCodes)` is not modelled, the offense table is a constant with its proved shape and is not connected to an endpoint.
- A choice whose `message.content` is `null` is left out. The report would pass it through, and the ticket's `split` would throw and answer 500. Content is modelled as a string.
- Express, CORS, dotenv, the console logging and `app.listen` (server.js:1-10, 224-226) are HTTP plumbing. Outcomes are the `Response` datatype: `BadRequest` is 400, `Ok(member, text)` is the 200 JSON object, and `ServerError` is 500.
- JSON values other than strings for the scalar members, or a non-array `inmates`, are left out. The page only ever sends strings and an array.
- OffenseCatalog.Rows: each entry is stored as its title and its three-digit code, and the value text is computed as code, " - " and title. The table's literal value strings are not restated in the model. Each of them in server.js:107-136 is exactly its code, " - " and its key.
- `handleSubmit`, `handleDownload`, `handlePrint` and the rendering (ReportForm.jsx:43-88, 106-108, 133-255) are fetch, blob, DOM and window I/O. Only the body `JSON.stringify(formData)` is modelled, as `ToSubmission`. The browser's `required` attribute check before submit is not modelled.
- `handleCopy`, `handleEditReport`, `handleSaveReport`, `handleEditTicket` and `handleSaveTicket` (ReportForm.jsx:110-131) refer to state the component never declares, so calling them would throw. They have no stateable behaviour.
- ReportForm.HandleInmateChange: the source's copy is shallow, so writing `updatedInmates[index][field]` also changes the row object the previous state holds. The model keeps rows as values. It does not capture that aliasing, which no later read of the old state can observe.
- src/components/Ticket.jsx and src/App.jsx are not part of this model. The first is a fetch wrapper and the second is pure rendering.
- JavaScript strings are UTF-16 code units, while a Dafny `char` is a Unicode scalar value, so a lone surrogate in the request body cannot be represented. No modelled operation depends on this: every whitespace character `trim` removes, and "\n", lies in the Basic Multilingual Plane.
- An element of `inmates` that is not an object (such as `null`) makes `inmate.name` throw, which answers 500 (server.js:50, 165). Individuals are modelled as records whose members are absent or strings.
- `handleReset` also clears `pdfUrl` and `error` (ReportForm.jsx:102-103). That state belongs to the I/O left out above, so the model resets only the form data.
