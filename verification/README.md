# Lead import, campaign wizard, template editor and campaign-lead bookkeeping

This project models the front-end core of a cold-email outreach application in Dafny.

- **Lead import session** (`LeadUpload`). The user picks a CSV file. The parser's result becomes rows and headers. The user maps columns to the five lead fields (email, first name, last name, title, company) and flags further columns as enrichment data. Every row is validated: its email cell must match `^[^@\s]+@[^@\s]+\.[^@\s]+$`. On "Import Leads" one lead is built per row without an error and handed to the caller.
- **New-campaign wizard** (`CampaignWizard`). Four steps: details, template, leads, review. Steps 1-3 each have a guard that keeps the user on them; step 4 shows Save instead of Next. Saving has its own guard.
- **New-template form** (`TemplateEditor`). A form with a save guard. The preview replaces the `{{key}}` placeholders with six sample values, key by key.
- **Campaign-lead bookkeeping** (`CampaignLeads`). Statuses default to `pending` on insert. The `markAs*` helpers build an update record; the sent, opened and clicked updates also carry their own timestamp, the bounce update none. Campaign statistics count the rows of each status.

Supporting modules:

- `Text` models JavaScript's white-space class (`\s`, `String.prototype.trim`), character by character.
- `EmailFormat` gives the email regular expression twice: as a ghost existential pattern and as an executable check. It proves the two equivalent.
- `Wrappers` holds `Option`.

Components whose state the source updates in place are classes: `LeadUpload.Session`, `CampaignWizard.Wizard` and `TemplateEditor.Form`. Their handlers are methods with `modifies` clauses. The two `setMapping(prev => …)` updaters loop over `Object.keys(prev)`. They are the methods `ReassignedMapping` and `ClearedMapping`, proved against the functions `Reassign` and `ClearColumn`. The loops of `validateRows` (over the rows) and of `handleConfirm` (over the rows, `LEAD_FIELDS` and the flagged columns) are the methods `ComputeRowErrors`, `CollectLeads`, `MappedFields` and `FlaggedCells`, proved against `ExpectedErrors`, `ExpectedLeads`, `LeadFieldsOf` and `EnrichedOf`. These methods change nothing but their results. The properties of the specification functions are proved as lemmas.

A column can be mapped to a field and flagged for enrichment at the same time:

- Checking a column's enrichment box clears the column from the field mapping.
- Choosing that column later in a field's select box does not clear its enrichment flag.
- Unchecking the box leaves the mapping as it is.

So "mapped xor enriched" is not an invariant of `Session`. Only `ColumnsDistinct` is: no column is read by two fields.

## Model

| member | source | states |
|---|---|---|
| Text.TrimStart | web/app/campaigns/new/page.tsx:79 | the result is a suffix of the input; everything dropped is white space; the result is empty or starts with a non-space character |
| Text.TrimEnd | web/app/campaigns/new/page.tsx:79 | the result is a prefix; everything dropped is white space; the result is empty or ends with a non-space character |
| Text.BlankIffAllSpace | web/app/templates/new/page.tsx:51-64 | `s.trim()` is empty exactly when every character of `s` is white space |
| EmailFormat.ValidEmailMatchesPattern | web/components/LeadUpload.tsx:101 | the executable email check implies the regular expression: a non-empty run before one `@`, then a run, a `.`, a run, none holding `@` or white space |
| EmailFormat.PatternIsValidEmail | web/components/LeadUpload.tsx:101 | any split of the string the regular expression accepts makes the executable check succeed |
| EmailFormat.ValidEmailIffPattern | web/components/LeadUpload.tsx:101 | the executable check and the regular expression agree on every string |
| LeadUpload.ReassignedMapping | web/components/LeadUpload.tsx:57-65 | the updater of `handleMappingChange`: `field` gets `value`; every other field that held `value` becomes `""`; all other entries and the key set stay |
| LeadUpload.ClearedMapping | web/components/LeadUpload.tsx:73-79 | the updater run when a column is checked: every field reading the column becomes `""`; all else stays |
| LeadUpload.ReassignKeepsColumnsDistinct | web/components/LeadUpload.tsx:55-66 | a reassignment keeps "no column read by two fields"; afterwards a non-empty column is read by `field` alone |
| LeadUpload.ClearColumnKeepsColumnsDistinct | web/components/LeadUpload.tsx:69-81 | clearing a column keeps columns distinct; no field reads a non-empty cleared column afterwards |
| LeadUpload.RemapMovesColumn | web/components/LeadUpload.tsx:55-66 | mapping a column to field `a` and then to `b` leaves `a` unassigned and `b` reading it |
| LeadUpload.SelectableHeaders | web/components/LeadUpload.tsx:222 | a header is offered to a field exactly when no field reads it or that field itself reads it; no more options than headers |
| LeadUpload.SelectingOfferedHeaderClearsNothing | web/components/LeadUpload.tsx:222 | choosing an offered header (or "Select column") changes only that field's entry |
| LeadUpload.EnabledCheckboxKeepsMapping | web/components/LeadUpload.tsx:69-81 | checking a box that is enabled (no field reads the column) leaves the mapping as it is |
| LeadUpload.CheckboxMatchesSelectOptions | web/components/LeadUpload.tsx:238 | an enrichment checkbox is disabled exactly for headers some field reads; such a header is offered only to a field reading it, and any other header to every field |
| LeadUpload.FieldKeysListed | web/components/LeadUpload.tsx:10-16 | the schema's field keys are exactly email, first_name, last_name, title and company |
| LeadUpload.RequiredMappedIffEmail | web/components/LeadUpload.tsx:10-16 | "every required field is mapped" holds exactly when email is mapped |
| LeadUpload.ComputeRowErrors | web/components/LeadUpload.tsx:97-108 | row `i` has an entry exactly when its email cell is missing, empty or fails the regular expression; each entry is `["Invalid email"]` |
| LeadUpload.EnrichedDataIffFlagged | web/components/LeadUpload.tsx:117-122 | a lead has `enriched_data` exactly when some column is flagged, and then its keys are exactly the flagged columns |
| LeadUpload.MappedFields | web/components/LeadUpload.tsx:114-116 | a lead has field `f` exactly when `f` is mapped; the value is the mapped cell, or `""` when the row lacks it |
| LeadUpload.FlaggedCells | web/components/LeadUpload.tsx:118-121 | the enrichment bag holds exactly the flagged columns, each with the row's cell (absent cells stay absent) |
| LeadUpload.MakeLead | web/components/LeadUpload.tsx:112-124 | the lead built for one row is the specification lead of that row |
| LeadUpload.CollectLeads | web/components/LeadUpload.tsx:112-124 | the `filter(...).map(...)` loop yields the specification leads of the unflagged rows, in row order |
| LeadUpload.KeptIndices | web/components/LeadUpload.tsx:112 | every kept index is below `n` and has no error entry |
| LeadUpload.KeptIndicesComplete | web/components/LeadUpload.tsx:112 | every index below `n` without an error entry is kept, and the kept indices are strictly increasing |
| LeadUpload.UnflaggedFollowsKeptIndices | web/components/LeadUpload.tsx:112 | the filter keeps one element per unflagged index; the `j`-th kept element is the one at the `j`-th unflagged index |
| LeadUpload.LeadsFollowKeptRows | web/components/LeadUpload.tsx:112-124 | the `j`-th lead is built from the `j`-th row without an error |
| LeadUpload.NoErrorsKeepsEveryRow | web/components/LeadUpload.tsx:112 | with an empty error map every row gives a lead |
| LeadUpload.KeptIndicesNoErrors | web/components/LeadUpload.tsx:112 | with an empty error map the kept indices are `0 .. n-1` |
| LeadUpload.LeadCopiesEmail | web/components/LeadUpload.tsx:115 | a row with a well-formed email cell gives a lead whose `email` is that cell |
| LeadUpload.HandedOffLeadsHaveValidEmail | web/components/LeadUpload.tsx:97-124 | after validation, every lead built has an `email` matching the regular expression |
| LeadUpload.ScenarioErrors | web/components/LeadUpload.tsx:97-108 | with emails `a@b.com` and `bad`, only row 1 is flagged, with `["Invalid email"]` |
| LeadUpload.ScenarioMappedKeys | web/components/LeadUpload.tsx:114-116 | with only email and first name mapped, a lead has exactly those two fields |
| LeadUpload.ScenarioFirstLead | web/components/LeadUpload.tsx:112-124 | row `{Email: a@b.com, Name: X}`, mapped to email and first name with no enrichment, gives `{email: "a@b.com", first_name: "X"}` without `enriched_data` |
| LeadUpload.TwoRowScenario | web/components/LeadUpload.tsx:97-130 | in that two-row file, `handleConfirm`'s filter and map would yield exactly the one lead of row 0; the import button is disabled in this state, because an error entry exists (LeadUpload.tsx line 294) |
| LeadUpload.Session.constructor | web/components/LeadUpload.tsx:24-34 | a fresh session is at the upload stage; it has no rows, headers, errors or files; every field is unmapped; nothing is flagged |
| LeadUpload.Session.SelectFile | web/components/LeadUpload.tsx:133-156 | no file: nothing changes; a name not ending in `.csv`: the notice "Please upload a CSV file" and no change; otherwise the file becomes pending |
| LeadUpload.Session.UploadContinue | web/components/LeadUpload.tsx:159-164 | the pending file, if any, becomes the selected file and is handed to the parser |
| LeadUpload.Session.ParseComplete | web/components/LeadUpload.tsx:41-49 | no records: "No data found in CSV" and no change; otherwise the headers are the first record's keys, the rows are the records, and the stage is the map stage |
| LeadUpload.Session.ParseFailed | web/components/LeadUpload.tsx:50 | the notice is "Failed to parse CSV" |
| LeadUpload.Session.MappingChange | web/components/LeadUpload.tsx:55-66 | the new mapping is the reassignment; the session invariant is kept |
| LeadUpload.Session.EnrichedMappingChange | web/components/LeadUpload.tsx:69-81 | the flag of `col` is set to `checked`; when checked, every field reading `col` is cleared; when unchecked, or when the box was enabled (no field read `col`), the mapping is untouched |
| LeadUpload.Session.ValidateRows | web/components/LeadUpload.tsx:97-108 | the error map becomes the validation result for every row |
| LeadUpload.Session.MapConfirm | web/components/LeadUpload.tsx:84-94 | email unmapped: "Please map the required field: Email" and no change; otherwise the preview stage with every row validated |
| LeadUpload.Session.Confirm | web/components/LeadUpload.tsx:111-130 | no hand-off exactly when no lead results, and then the notice "No valid leads to import" (no notice otherwise); otherwise the hand-off is the leads of the unflagged rows, each with a well-formed email; with import enabled, every row gives a lead |
| LeadUpload.Session.PreviewBack | web/components/LeadUpload.tsx:293 | back to the map stage with rows, headers and both mappings kept |
| LeadUpload.Session.MapBack | web/components/LeadUpload.tsx:167-176 | everything returns to the initial state |
| LeadUpload.Session.OptionsFor | web/components/LeadUpload.tsx:222 | the options of a field's select box are the headers no field reads, plus the field's own column |
| CampaignWizard.NextStep | web/app/campaigns/new/page.tsx:78-92 | the step stays within 1..4; it moves forward by one exactly when below step 4 and the current step's guard passes; a blank name keeps step 1 |
| CampaignWizard.PreviousStep | web/app/campaigns/new/page.tsx:94-96 | one step back, never below step 1 |
| CampaignWizard.SaveDecision | web/app/campaigns/new/page.tsx:98-111 | `create` is called with the form data exactly when the trimmed name and the template are non-empty; otherwise the first failing guard's message |
| CampaignWizard.BlankNameNeverCreates | web/app/campaigns/new/page.tsx:99-102 | a name made only of white space never reaches `create` |
| CampaignWizard.Wizard.constructor | web/app/campaigns/new/page.tsx:27-37 | step 1, empty name, description and template, no leads |
| CampaignWizard.Wizard.InputChange | web/app/campaigns/new/page.tsx:71-76 | only `campaignData[field]` changes |
| CampaignWizard.Wizard.LeadsReady | web/app/campaigns/new/page.tsx:282 | the uploaded leads become the importer's hand-off |
| CampaignWizard.Wizard.Next | web/app/campaigns/new/page.tsx:78-92 | the notice is the blocking guard's message, if any; the new step is `NextStep` of the old one |
| CampaignWizard.Wizard.Previous | web/app/campaigns/new/page.tsx:94-96 | the new step is `PreviousStep` of the old one |
| CampaignWizard.Wizard.Save | web/app/campaigns/new/page.tsx:98-107 | the outcome is `SaveDecision` of the current form data |
| TemplateEditor.ReplaceAllWithoutOccurrence | web/app/templates/new/page.tsx:100 | replacing a pattern that does not occur leaves the text unchanged |
| TemplateEditor.ReplaceAllAtFront | web/app/templates/new/page.tsx:100 | an occurrence at the front is replaced and the scan resumes after it |
| TemplateEditor.ReplaceAllAfterPlainPrefix | web/app/templates/new/page.tsx:100 | text before the first occurrence of the pattern is copied unchanged, that occurrence becomes the value, and the scan resumes after it |
| TemplateEditor.Placeholder | web/app/templates/new/page.tsx:100 | the placeholder of `key` is `{{`, then `key`, then `}}` |
| TemplateEditor.SubstituteWithoutPlaceholders | web/app/templates/new/page.tsx:97-103 | text holding none of the entries' placeholders passes through the substitution unchanged |
| TemplateEditor.PreviewWithoutPlaceholders | web/app/templates/new/page.tsx:87-103 | text holding none of the six sample placeholders is its own preview |
| TemplateEditor.PlaceholderOnlyInItself | web/app/templates/new/page.tsx:100 | for distinct brace-free keys, one key's placeholder never occurs inside the other's |
| TemplateEditor.UnknownPlaceholderKept | web/app/templates/new/page.tsx:87-103 | a placeholder whose key is not a sample key, such as `{{first_name}}`, is left as written |
| TemplateEditor.NoPlaceholderInside | web/app/templates/new/page.tsx:100 | no placeholder of another brace-free key starts inside an occurrence of `{{a}}` |
| TemplateEditor.PlaceholdersApart | web/app/templates/new/page.tsx:100 | occurrences of the placeholders of two different brace-free keys never overlap |
| TemplateEditor.ReplaceAllKeepsPlainPrefix | web/app/templates/new/page.tsx:100 | a prefix at none of whose positions the pattern starts is copied to the front of the result |
| TemplateEditor.ReplaceAllKeepsOtherPlaceholder | web/app/templates/new/page.tsx:100 | an occurrence of `{{k}}` survives the replacement of a different brace-free key's placeholder, whatever the value |
| TemplateEditor.ReplaceAllTailOrigin | web/app/templates/new/page.tsx:100 | with a brace-free value that occurs nowhere in `k`, a result starting with a tail of `{{k}}` comes from a text starting with that tail |
| TemplateEditor.ReplaceAllLeavesNoPlaceholder | web/app/templates/new/page.tsx:100 | with a brace-free value that occurs nowhere in `k`, no `{{k}}` remains after replacing `{{k}}`, and none is created when there was none |
| TemplateEditor.SubstituteKeepsPlaceholderAbsent | web/app/templates/new/page.tsx:99-101 | an absent placeholder stays absent through entries whose values are brace-free and occur nowhere in its key |
| TemplateEditor.SubstituteClearsPlaceholders | web/app/templates/new/page.tsx:99-101 | when no value has a brace or occurs in its own or an earlier key, no entry's placeholder is left after the substitution |
| TemplateEditor.SampleDataPlain | web/app/templates/new/page.tsx:87-94 | no sample key or value has a brace, and no sample value occurs in any sample key |
| TemplateEditor.PreviewLeavesNoSamplePlaceholder | web/app/templates/new/page.tsx:87-103 | whatever the text, no `{{key}}` of the six sample keys is left in its preview |
| TemplateEditor.SubstituteKeepsOtherPlaceholder | web/app/templates/new/page.tsx:99-101 | an occurrence of a placeholder whose brace-free key no entry has survives the substitution |
| TemplateEditor.PreviewKeepsUnknownPlaceholder | web/app/templates/new/page.tsx:87-103 | in any text, an occurrence of a placeholder whose brace-free key is not a sample key is still present in the preview |
| TemplateEditor.GreetingNameReplaced | web/app/templates/new/page.tsx:100 | replacing `{{name}}` in "Hi {{name}}," by "John" gives "Hi John," |
| TemplateEditor.GreetingKeepsOtherKeys | web/app/templates/new/page.tsx:99-101 | the remaining five sample keys leave "Hi John," unchanged |
| TemplateEditor.PreviewGreeting | web/app/templates/new/page.tsx:87-103 | the preview of "Hi {{name}}," is "Hi John," |
| TemplateEditor.SaveDecision | web/app/templates/new/page.tsx:50-68 | `create` is called with the form data exactly when the trimmed name, subject and content are all non-empty; otherwise the first failing guard's message |
| TemplateEditor.Form.constructor | web/app/templates/new/page.tsx:25-39 | empty name, description and subject; the default greeting body as content |
| TemplateEditor.Form.InputChange | web/app/templates/new/page.tsx:43-48 | only `templateData[field]` changes |
| TemplateEditor.Form.Save | web/app/templates/new/page.tsx:50-64 | the outcome is `SaveDecision` of the current form data |
| TemplateEditor.Form.PreviewContent | web/app/templates/new/page.tsx:97-103 | no `{{key}}` of the six sample keys is left in the preview of the content; content without sample placeholders previews as itself |
| TemplateEditor.Form.PreviewSubject | web/app/templates/new/page.tsx:105-111 | no `{{key}}` of the six sample keys is left in the preview of the subject; a subject without sample placeholders previews as itself |
| CampaignLeads.WithDefaultStatus | web/lib/campaign-leads.ts:63-74 | the inserted record keeps the campaign and lead ids; its status is the given one, or `pending` when none is given |
| CampaignLeads.WithDefaultStatuses | web/lib/campaign-leads.ts:77-87 | the bulk insert has one record per item, in order, each defaulted like a single insert |
| CampaignLeads.GivenStatusesKept | web/lib/campaign-leads.ts:77-87 | a bulk insert keeps every status that was given and writes `pending` for every missing one |
| CampaignLeads.MarkAs | web/lib/campaign-leads.ts:145-174 | the update sets the status; `sent`, `opened` and `clicked` set exactly their own timestamp to `now`; `bounced` sets none |
| CampaignLeads.CountStatus | web/lib/campaign-leads.ts:133-140 | the count of a status is its multiplicity in the rows, at most the row count |
| CampaignLeads.StatsOf | web/lib/campaign-leads.ts:133-140 | `total` is the row count; each per-status field is that status's count |
| CampaignLeads.StatusTextsAreTheStatuses | web/lib/campaign-leads.ts:3 | the accepted status strings are exactly the texts of the five `EmailStatus` values, one text per value |
| CampaignLeads.StatsCountEachStatus | web/lib/campaign-leads.ts:133-140 | for every `EmailStatus`, its count in the statistics is the number of rows holding its text |
| CampaignLeads.CountsSumToTotal | web/lib/campaign-leads.ts:133-140 | when every row holds one of the five statuses, the five counts add up to `total` |
| CampaignLeads.CampaignStats | web/lib/campaign-leads.ts:125-143 | a query error gives no data and passes the error on; otherwise the statistics of the rows and no error |

## Left out

- CSV parsing itself (the `papaparse` library) is not modelled. Its success callback gets the parsed records, and `Object.keys` of the first record as a sequence of distinct names, because the key order comes from the runtime. The failure callback takes nothing.
- Notices shown with `toast` are returned as values: as `Option<string>` results of the lead-import, wizard-step and file handlers, and as `SaveRequest.Rejected(notice)` from the two `Save` handlers. Rendering, the progress bar, icons and the drag-over handler are not modelled.
- The preview table is not modelled: rendering only the first 10 rows, its cell text and its JSON text. Validation and the import cover all rows, as modelled.
- Supabase calls are not modelled. These are `campaignsService.create`, `templatesService.create`, `templatesService.getAll` (template loading in the wizard), all of `campaign-leads.ts`'s queries, and their error handling after the request. The model stops at the request each handler would send (`SaveRequest.Create`, `WithDefaultStatus`, `MarkAs`). Statistics take the query result as a parameter.
- The `saving`/`loading` flags and navigation with `router.push` are not modelled.
- CampaignLeads.MarkAs: the timestamp `new Date().toISOString()` is the parameter `now`.
- CampaignLeads.CountStatus: row statuses are strings as the database returns them. Nothing forces them into the five known statuses; `CountsSumToTotal` requires that they are.
- LeadUpload.Session.SelectFile: requires the upload stage, and so does UploadContinue. MappingChange, EnrichedMappingChange and MapConfirm require the map stage. Confirm and PreviewBack require the preview stage, and MapBack the map stage. These are the stages in which the source renders the controls that call them.
- LeadUpload.Session: there is no invariant that a column is either mapped or flagged for enrichment, never both. The code does not keep one (see above).
- LeadUpload.Session.Confirm: the hand-off to `onLeadsReady` is returned instead of called. `enriched_data` values that the row lacks are `None`, which stands for JavaScript's `undefined`.
- Leads and `enriched_data` are maps, so the key order of the objects handed to `onLeadsReady` (the order of `LEAD_FIELDS` and of `Object.keys(enrichedMapping)`) is not kept; nothing in the core depends on it.
- Cell values that are not strings (a `null` cell) and a non-array `results.data` cannot occur in the model's types.
