# Business workflow store and onboarding form, in Dafny

This project models two pieces of a business-workflow system built around
AI agents. These are the only parts of the system with logic of their own.
The rest of the system is agent declarations handed to an external agent
runtime, HTTP routing and rendering.

1. **The filesystem store** (`servers/filesystem_server.py`). The agents use it
   to keep business data. The `data/` tree becomes four maps held by the class
   `FilesystemServer.Server`:
   - `business`: `<category>.json` records, each stamped with `updated_at`;
   - `documents`: one directory per document type. A document may have a
     `<stem>_metadata.json` sidecar, stamped with `filename`, `document_type`
     and `created_at`;
   - `calendar`: events (`event_*.json`) and tasks (`task_*.json`) share this
     directory. Each gets a generated id `event_<unix seconds>` /
     `task_<unix seconds>` when it has none;
   - `uiAssets`: UI assets, grouped by asset type.

   The save operations stamp the caller's dict in place, so the dict is a
   `Dict` object the method modifies. The three list operations,
   `get_calendar_events` and `get_tasks` are loops that build their result
   lists. A directory is listed in no particular order, so each loop picks
   its next file with `:|`. The loops that need it return the order they
   used as a ghost value. Text files are read in Python's text mode, so a
   read turns `\r\n` and a lone `\r` into `\n` (`PyStrings.ReadText`). The clock is
   passed in as parameters: `now` is the ISO text and `seconds` is
   `int(timestamp())`. Python's `str <=`, `Path.stem`, glob patterns,
   truthiness, `dict.get` and `str()` of scalars are modelled in `PyStrings`
   and `JsonValues`.

2. **The onboarding form**, a three-step wizard. It has two versions:
   - `src/components/Onboarding/OnboardingForm.tsx` is a function component.
     Its handlers are pure record-spread transitions over the datatype
     `OnboardingForm.FormState`, and `OnboardingComponent.Component` holds
     the one state cell.
   - `ui/components/OnboardingForm.jsx` is a class component. Its handlers
     update fields in place (`OnboardingFormClass.OnboardingFormComponent`),
     and each one is proved to make the same transition as the pure function.

   The render guards are modelled as predicates: which page shows which
   input, `disabled` on inputs and Finalize buttons, and Back / Next /
   Complete Onboarding. The main proof is about any sequence of events raised
   on enabled controls. Such a sequence keeps the step in `1..3`, never
   finalizes an empty field, and never changes a finalized field's value or
   status.

The store keeps no copy of its writes anywhere else, and it has no lookup
of an event or a task by id. A generated id `event_<ts>` is written to the
file `event_event_<ts>.json`, and `task_<ts>` to `task_task_<ts>.json`.

An empty category name is saved as the hidden file `.json`. `Path.stem`
keeps `.json` whole, so `list_business_data` reports that category as `.json`
(`FilesystemServer.ListedCategory`).

## Model

| member | source | states |
|---|---|---|
| PyStrings.LexLeReflexive | servers/filesystem_server.py:240 | Python's string order `<=` holds between a string and itself |
| PyStrings.LexLeTransitive | servers/filesystem_server.py:240 | the string order used by the date filter is transitive |
| PyStrings.LexLeTotal | servers/filesystem_server.py:240 | any two date strings are ordered one way or the other |
| PyStrings.LexLeAntisymmetric | servers/filesystem_server.py:240 | two strings each `<=` the other are equal |
| PyStrings.LastDot | servers/filesystem_server.py:130 | the index `rfind('.')` finds holds a dot, with no dot after it, or is -1 |
| PyStrings.Stem | servers/filesystem_server.py:102 | `Path.stem` is a prefix of the name; when it drops a suffix, that suffix starts at the last dot, which is neither the first nor the last character |
| PyStrings.LexLe | servers/filesystem_server.py:240 | `str <=`: a prefix is `<=` the longer string, and a string is not `<=` its own proper prefix |
| PyStrings.StemOfJsonName | servers/filesystem_server.py:101-102 | the stem of `<c>.json` is `c`, except that the stem of `.json` is `.json` |
| PyStrings.NatToDecimal | servers/filesystem_server.py:209 | `str(n)` of a non-negative int is a non-empty run of digits without a leading zero |
| PyStrings.IntToDecimal | servers/filesystem_server.py:209 | `str(n)` is never empty |
| PyStrings.DecimalRoundTrip | servers/filesystem_server.py:209 | reading back the decimal digits of `n` gives `n` |
| PyStrings.IntToDecimalSign | servers/filesystem_server.py:209 | `str(n)` starts with `-` exactly when `n` is negative |
| PyStrings.NatToDecimalInjective | servers/filesystem_server.py:209 | two non-negative ints with the same decimal text are equal |
| PyStrings.IntToDecimalInjective | servers/filesystem_server.py:209 | two timestamps with the same decimal text are equal |
| PyStrings.ReadText | servers/filesystem_server.py:152-153 | a text-mode read holds no `\r` and is never longer than the stored text |
| PyStrings.ReadTextKeepsPlainText | servers/filesystem_server.py:328-329 | text without `\r` reads back unchanged |
| PyStrings.ReadTextIdempotent | servers/filesystem_server.py:328-329 | reading what was read changes nothing more |
| PyStrings.ReadTextTranslatesLineEnds | servers/filesystem_server.py:307-329 | `a\r\nb` and `a\rb` as written read back as `a\nb` |
| JsonValues.GetOrNull | servers/filesystem_server.py:238 | `dict.get` gives the stored value, or a falsy value when the key is missing |
| JsonValues.Truthy | servers/filesystem_server.py:237-239 | None, False, 0 and "" are falsy, and a string is truthy exactly when it is non-empty |
| JsonValues.Given | servers/filesystem_server.py:177 | `if x:` on an optional string argument: None is false, and a string is true exactly when it is truthy, that is non-empty |
| JsonValues.Display | servers/filesystem_server.py:214 | a string id appears in the f-string as itself |
| FilesystemServer.ListDirectory | servers/filesystem_server.py:186 | `glob("*")` lists every file once, leaving out `_metadata.json` names exactly when asked to |
| FilesystemServer.Stamped | servers/filesystem_server.py:61 | the saved record has the caller's keys plus `updated_at` set to the clock, and every other value unchanged |
| FilesystemServer.BusinessFile | servers/filesystem_server.py:80 | `<c>.json` ends in `.json` and its stem is the category again, except for the empty category, whose file is the dot-file `.json` |
| FilesystemServer.BusinessLookup | servers/filesystem_server.py:77-96 | a category is found exactly when `<c>.json` exists, with its stored record; otherwise the answer is "No data found for <c>" |
| FilesystemServer.SaveThenGetBusinessData | servers/filesystem_server.py:57-96 | getting a category just saved returns the caller's data with `updated_at` added |
| FilesystemServer.SaveKeepsOtherCategories | servers/filesystem_server.py:64-68 | saving one category leaves what every other category returns unchanged |
| FilesystemServer.SecondSaveOverwrites | servers/filesystem_server.py:64-68 | after two saves to one category only the second record is returned |
| FilesystemServer.StemsAreSavedCategories | servers/filesystem_server.py:101-102 | the stems of the `*.json` files are exactly the saved categories: each saved category is listed, and each listed name is a saved category |
| FilesystemServer.ListedCategory | servers/filesystem_server.py:102 | the name reported for a category is the stem of its file, and never empty |
| FilesystemServer.UnsavedCategoryNotFound | servers/filesystem_server.py:82-86 | a category never saved answers the text "No data found for <c>", not an error |
| FilesystemServer.SidecarNameDiffers | servers/filesystem_server.py:130 | a document's sidecar name `<stem>_metadata.json` is never the document's own name |
| FilesystemServer.SidecarName | servers/filesystem_server.py:130 | the sidecar name ends in `_metadata.json` and begins with a prefix of the document's name (its stem) |
| FilesystemServer.SidecarRecord | servers/filesystem_server.py:125-128 | the sidecar holds the caller's metadata plus `filename`, `document_type` and `created_at` |
| FilesystemServer.SavedDocuments | servers/filesystem_server.py:115-132 | the content file is written into the type directory, the stamped sidecar only for non-empty metadata, no other file is created, and every other type and file is unchanged |
| FilesystemServer.ReadContent | servers/filesystem_server.py:152-153 | a text document reads back without `\r`; a file `json.dump` wrote reads back as its record |
| FilesystemServer.LoadMetadata | servers/filesystem_server.py:158-160 | `json.load` of a sidecar gives the dumped record or the parse of a text file, and fails exactly on text that is not JSON |
| FilesystemServer.DocumentLookup | servers/filesystem_server.py:141-172 | not found exactly when the file is missing; otherwise the read content, with metadata None exactly when there is no sidecar and otherwise what `json.load` gives for it; failure exactly when the sidecar is text that is not JSON |
| FilesystemServer.SaveThenGetDocumentWithMetadata | servers/filesystem_server.py:119-165 | a document saved with non-empty metadata reads back as its content, newlines translated (exactly as written when it holds no `\r`), with the stamped sidecar |
| FilesystemServer.SaveThenGetDocumentWithoutMetadata | servers/filesystem_server.py:124-165 | with metadata None or `{}` no sidecar is written: the document reads back with None, or with whatever `json.load` makes of the sidecar already there, or fails when that sidecar's text is not JSON |
| FilesystemServer.MissingDocumentNotFound | servers/filesystem_server.py:144-150 | a missing document answers the text "Document <f> not found in <t>" |
| FilesystemServer.MetadataNamedFilesListing | servers/filesystem_server.py:186-357 | a document named `*_metadata.json` is stored in its type directory with its content but never listed, while a UI asset with such a name is listed |
| FilesystemServer.DocumentListed | servers/filesystem_server.py:177-195 | a listed entry is a stored file whose name does not end in `_metadata.json`; a type that does not exist lists nothing; with no type or an empty one, every such file of every type is listed |
| FilesystemServer.AssetListed | servers/filesystem_server.py:341-357 | a listed entry is a stored asset; a type that does not exist lists nothing; no file name is excluded |
| FilesystemServer.SaveThenGetUiAsset | servers/filesystem_server.py:297-336 | getting a UI asset just saved returns its content with newlines translated, and exactly the content when it holds no `\r` |
| FilesystemServer.AssetLookup | servers/filesystem_server.py:317-336 | found exactly when the file exists, with its content as a text-mode read gives it; otherwise "UI asset <f> not found in <t>" |
| FilesystemServer.SaveKeepsExistingId | servers/filesystem_server.py:207-212 | a record that has an `id` keeps it, and only `updated_at` is added |
| FilesystemServer.SavedEntry | servers/filesystem_server.py:207-212 | the saved record has the caller's keys plus `id` and `updated_at`; an existing id is kept, otherwise `<prefix><seconds>` is generated, and other values are unchanged |
| FilesystemServer.EntryFile | servers/filesystem_server.py:214 | the file name matches the glob `<prefix>*.json`, and a string id appears in it as itself |
| FilesystemServer.GeneratedEventIdDoublePrefixed | servers/filesystem_server.py:207-214 | a generated event id is `event_<seconds>`, stored in `event_event_<seconds>.json` |
| FilesystemServer.GeneratedTaskIdDoublePrefixed | servers/filesystem_server.py:255-262 | a generated task id is `task_<seconds>`, stored in `task_task_<seconds>.json` |
| FilesystemServer.GeneratedIdsCollideOnlyWithinASecond | servers/filesystem_server.py:207-214 | two records without an id go to the same file if and only if they are saved in the same second |
| FilesystemServer.EventAndTaskFilesDisjoint | servers/filesystem_server.py:214-262 | an event file matches `event_*.json` and never `task_*.json`, and a task file the other way round |
| FilesystemServer.IsEventFile | servers/filesystem_server.py:232 | the glob `event_*.json`: a match starts with `event_` and ends in `.json`, and the star may match nothing (no event file is a task file: `EventAndTaskFilesDisjoint`) |
| FilesystemServer.IsTaskFile | servers/filesystem_server.py:279 | the glob `task_*.json`: a match starts with `task_`, ends in `.json`, and the star may match nothing |
| FilesystemServer.TaskSaveInvisibleToEvents | servers/filesystem_server.py:232 | saving a task changes neither the set of event files nor any event |
| FilesystemServer.EventSaveInvisibleToTasks | servers/filesystem_server.py:279 | saving an event changes neither the set of task files nor any task |
| FilesystemServer.SelectEventsStep | servers/filesystem_server.py:232-243 | one more event file either fails the listing on an uncomparable date, appends the event when kept, or changes nothing |
| FilesystemServer.EventDate | servers/filesystem_server.py:238 | the event's `date` when truthy, otherwise its `start_date`, otherwise a falsy value |
| FilesystemServer.DateFiltering | servers/filesystem_server.py:237 | `if start_date and end_date`: both bounds are given and non-empty |
| FilesystemServer.DateUncomparable | servers/filesystem_server.py:240 | the dates on which `start_date <= event_date` raises TypeError: a truthy date that is not a string, such as a non-zero number; a string date never raises |
| FilesystemServer.EventKept | servers/filesystem_server.py:237-243 | without both bounds every event is kept; with them, a kept event has a truthy date that compares with strings |
| FilesystemServer.SelectEvents | servers/filesystem_server.py:230-248 | a successful listing has at most one event per file, each one kept; a failure happens only when filtering, and names an event file of the listing |
| FilesystemServer.SelectEventsFailsIff | servers/filesystem_server.py:237-241 | the event listing fails if and only if both bounds are given and some event's date is truthy but not a string |
| FilesystemServer.SelectEventsMembers | servers/filesystem_server.py:236-243 | a successful listing holds exactly the events whose `date` (else `start_date`) is a string within the bounds, or all events when not filtering |
| FilesystemServer.SelectEventsUnfiltered | servers/filesystem_server.py:237-243 | with either bound missing or empty, every event is returned in listing order |
| FilesystemServer.EmptyRangeSelectsNothing | servers/filesystem_server.py:240 | a range whose end sorts before its start selects no event |
| FilesystemServer.SelectTasksMembers | servers/filesystem_server.py:283-288 | the task listing holds exactly the tasks whose `status` equals the argument, or all tasks when none is given |
| FilesystemServer.TaskKept | servers/filesystem_server.py:285-289 | with a status, a kept task has an equal `status` field; without one, every task is kept |
| FilesystemServer.SelectTasks | servers/filesystem_server.py:277-292 | the task listing has at most one task per file, each kept by the status filter |
| FilesystemServer.SelectTasksUnfiltered | servers/filesystem_server.py:284-288 | without a status every task is returned in listing order |
| FilesystemServer.Dict.constructor | servers/filesystem_server.py:57 | the caller's dict holds the given entries |
| FilesystemServer.Server.constructor | servers/filesystem_server.py:29-55 | the server starts over four empty directories |
| FilesystemServer.Server.SaveBusinessData | servers/filesystem_server.py:57-75 | the caller's dict is stamped in place, stored as `<c>.json` with every other file kept, and the message names `data/business/<c>.json` |
| FilesystemServer.Server.GetBusinessData | servers/filesystem_server.py:77-96 | returns the stored record, or "No data found for <c>" |
| FilesystemServer.Server.ListBusinessData | servers/filesystem_server.py:98-109 | lists the stem of each `*.json` file exactly once: every saved category appears, and nothing else |
| FilesystemServer.Server.SaveDocument | servers/filesystem_server.py:111-139 | writes the content, then a stamped sidecar only when metadata is a non-empty dict, which is stamped in place |
| FilesystemServer.Server.GetDocument | servers/filesystem_server.py:141-172 | returns the content as a text-mode read gives it and the sidecar as `json.load` gives it (None when there is no sidecar), the not-found text, or an error when the sidecar is text that is not JSON |
| FilesystemServer.Server.ListDocuments | servers/filesystem_server.py:174-202 | lists each document of the type, or of every type, once with its type, never a `_metadata.json` name, and `[]` for a type without a directory |
| FilesystemServer.Server.SaveCalendarEvent | servers/filesystem_server.py:204-224 | keeps or generates the id, stamps the dict, writes `event_<id>.json` and reports the id |
| FilesystemServer.Server.GetCalendarEvents | servers/filesystem_server.py:226-250 | the events selected over the event files in listing order: exactly the kept events, or a failure exactly when filtering meets a date that is not a string |
| FilesystemServer.Server.SaveTask | servers/filesystem_server.py:252-272 | keeps or generates the id, stamps the dict, writes `task_<id>.json` and reports the id |
| FilesystemServer.Server.GetTasks | servers/filesystem_server.py:274-295 | the tasks selected over every task file in listing order: exactly the tasks whose status matches, or all tasks when none is given |
| FilesystemServer.Server.SaveUiAsset | servers/filesystem_server.py:297-315 | writes the asset into its type directory, keeps every other file, and reports the path |
| FilesystemServer.Server.GetUiAsset | servers/filesystem_server.py:317-336 | returns the asset's content with newlines translated, or "UI asset <f> not found in <t>" |
| FilesystemServer.Server.ListUiAssets | servers/filesystem_server.py:338-364 | lists each asset of the type, or of every type, once with its type, excluding no name, and `[]` for a missing type |
| OnboardingForm.Initial | src/components/Onboarding/OnboardingForm.tsx:19-42 | the form starts on step 1 of 3 with empty values, no logo and every field in progress |
| OnboardingForm.HandleChange | src/components/Onboarding/OnboardingForm.tsx:44-54 | the edited field takes the value and goes back to in-progress, and every other value, status, colour and the step are unchanged |
| OnboardingForm.HandleFinalizeField | src/components/Onboarding/OnboardingForm.tsx:56-64 | only the named field's status becomes finalized |
| OnboardingForm.HandleColorChange | src/components/Onboarding/OnboardingForm.tsx:66-74 | only the named colour key changes |
| OnboardingForm.HandleFileUpload | src/components/Onboarding/OnboardingForm.tsx:76-79 | only `logoUploaded` changes, to true |
| OnboardingForm.NextStep | src/components/Onboarding/OnboardingForm.tsx:81-85 | advances one step below the last, and otherwise leaves the state unchanged |
| OnboardingForm.PrevStep | src/components/Onboarding/OnboardingForm.tsx:87-91 | goes back one step above the first, and otherwise leaves the state unchanged |
| OnboardingForm.StepOf | src/components/Onboarding/OnboardingForm.tsx:114-338 | every field but the contact phone is on one of the three pages, and page 3 holds only the contact email |
| OnboardingForm.Shown | src/components/Onboarding/OnboardingForm.tsx:358-360 | only pages 1 to 3 are rendered: page 1 shows the company name and industry, page 2 the business plan and website, page 3 the contact email |
| OnboardingForm.InputEnabled | src/components/Onboarding/OnboardingForm.tsx:123-132 | an enabled input belongs to a field that is on a page and in progress |
| OnboardingForm.FinalizeEnabled | src/components/Onboarding/OnboardingForm.tsx:133-136 | a Finalize button is enabled exactly when its input is enabled and the value is non-empty |
| OnboardingForm.BrandInputsShown | src/components/Onboarding/OnboardingForm.tsx:252-301 | the logo and colour inputs are on the last page, where Back is shown and Next is not |
| OnboardingForm.BackShown | src/components/Onboarding/OnboardingForm.tsx:363-373 | Back is shown exactly when prevStep would change the state |
| OnboardingForm.NextShown | src/components/Onboarding/OnboardingForm.tsx:375-383 | Next is shown exactly when nextStep would change the state |
| OnboardingForm.SubmitShown | src/components/Onboarding/OnboardingForm.tsx:375-390 | Complete Onboarding is shown exactly when Next is not |
| OnboardingForm.Enabled | src/components/Onboarding/OnboardingForm.tsx:123-390 | an enabled edit or Finalize targets an enabled input, an enabled Finalize a non-empty value, and an enabled Next or Back changes the state |
| OnboardingForm.InitialSatisfiesInv | src/components/Onboarding/OnboardingForm.tsx:19-42 | the initial state satisfies the form invariant |
| OnboardingForm.StepStaysInRange | src/components/Onboarding/OnboardingForm.tsx:81-91 | nextStep and prevStep keep `1 <= currentStep <= totalSteps` |
| OnboardingForm.NextAndBackAreInverse | src/components/Onboarding/OnboardingForm.tsx:81-91 | Next then Back, and Back then Next, return to the same state away from the ends |
| OnboardingForm.StepsSaturate | src/components/Onboarding/OnboardingForm.tsx:82-88 | Next on the last step and Back on the first change nothing |
| OnboardingForm.SubmitExactlyOnLastStep | src/components/Onboarding/OnboardingForm.tsx:363-390 | exactly one of Next and Complete Onboarding is offered, Complete Onboarding exactly on step 3 |
| OnboardingForm.HandlersIdempotent | src/components/Onboarding/OnboardingForm.tsx:56-79 | finalizing twice equals finalizing once, and uploading twice equals uploading once |
| OnboardingForm.ChangeResetsFinalize | src/components/Onboarding/OnboardingForm.tsx:44-64 | an edit after finalizing sets in-progress again, and two edits leave only the second value |
| OnboardingForm.FinalizedFieldLocked | src/components/Onboarding/OnboardingForm.tsx:129-136 | once finalized, a field's input and its Finalize button are both disabled |
| OnboardingForm.ChangeKeepsInv | src/components/Onboarding/OnboardingForm.tsx:123-129 | an edit through an enabled input keeps the invariant |
| OnboardingForm.FinalizeKeepsInv | src/components/Onboarding/OnboardingForm.tsx:133-136 | finalizing through an enabled button keeps the invariant: a finalized field is never empty |
| OnboardingForm.EnabledEventKeepsInv | src/components/Onboarding/OnboardingForm.tsx:44-136 | any event on a rendered, enabled control keeps the invariant |
| OnboardingForm.RunKeepsInv | src/components/Onboarding/OnboardingForm.tsx:358-390 | every state reached through enabled events satisfies the invariant |
| OnboardingForm.EnabledEventKeepsFinalized | src/components/Onboarding/OnboardingForm.tsx:129-136 | no enabled event changes a finalized field's value or status |
| OnboardingForm.FinalizedValueFrozen | src/components/Onboarding/OnboardingForm.tsx:319-326 | after any run of enabled events a finalized field keeps its value and stays finalized |
| OnboardingComponent.Component.constructor | src/components/Onboarding/OnboardingForm.tsx:19-42 | the state cell starts at the initial form state |
| OnboardingComponent.Component.HandleChange | src/components/Onboarding/OnboardingForm.tsx:44-54 | the state cell takes the handleChange transition |
| OnboardingComponent.Component.HandleFinalizeField | src/components/Onboarding/OnboardingForm.tsx:56-64 | the state cell takes the handleFinalizeField transition |
| OnboardingComponent.Component.HandleColorChange | src/components/Onboarding/OnboardingForm.tsx:66-74 | the state cell takes the handleColorChange transition |
| OnboardingComponent.Component.HandleFileUpload | src/components/Onboarding/OnboardingForm.tsx:76-79 | the state cell takes the handleFileUpload transition |
| OnboardingComponent.Component.NextStep | src/components/Onboarding/OnboardingForm.tsx:81-85 | the state cell advances only below the last step |
| OnboardingComponent.Component.PrevStep | src/components/Onboarding/OnboardingForm.tsx:87-91 | the state cell goes back only above the first step |
| OnboardingFormClass.OnboardingFormComponent.constructor | ui/components/OnboardingForm.jsx:2-28 | the component starts on step 1 of 3 with every field in progress, in the initial form state |
| OnboardingFormClass.OnboardingFormComponent.HandleChange | ui/components/OnboardingForm.jsx:30-39 | the merge sets the field and resets only that field's status, the same transition as the function component |
| OnboardingFormClass.OnboardingFormComponent.HandleFinalizeField | ui/components/OnboardingForm.jsx:41-48 | only the named field's status becomes finalized |
| OnboardingFormClass.OnboardingFormComponent.HandleColorChange | ui/components/OnboardingForm.jsx:50-57 | only the named colour key changes |
| OnboardingFormClass.OnboardingFormComponent.HandleFileUpload | ui/components/OnboardingForm.jsx:59-62 | only `logoUploaded` changes, to true |
| OnboardingFormClass.OnboardingFormComponent.NextStep | ui/components/OnboardingForm.jsx:64-69 | advances only below the last step, keeping the step in range |
| OnboardingFormClass.OnboardingFormComponent.PrevStep | ui/components/OnboardingForm.jsx:71-76 | goes back only above the first step, keeping the step in range |
| OnboardingFormClass.OnboardingFormComponent.InputDisabled | ui/components/OnboardingForm.jsx:112 | on a shown field, the input is disabled exactly when the function component's input is not enabled |
| OnboardingFormClass.OnboardingFormComponent.FinalizeDisabled | ui/components/OnboardingForm.jsx:112-118 | a disabled input implies a disabled Finalize button, and an enabled Finalize button implies a non-empty value |
| OnboardingFormClass.OnboardingFormComponent.Handle | ui/components/OnboardingForm.jsx:280-310 | an action on a rendered, enabled control keeps the invariant and leaves finalized fields untouched |

## Left out

- Disk I/O and failures: `os.makedirs`, `open`, `json.dump` and `MCPError` wrapping of I/O and permission errors are not modelled. Directories are maps, and a write always succeeds.
- Result formatting: the `FunctionResult` wrapper, `result_type` and the JSON text layout (`indent=2`) are not modelled. A result is the value it carries.
- Paths: file, category and type names are flat map keys. A name that contains `/`, or that is `.`, `..` or empty, does not address another directory in the model. pathlib resolves `.` and the empty name to the parent directory, so `save_ui_asset(c, "x.css", ".")` writes `data/ui_assets/x.css`, which `list_ui_assets` then skips because it is not a directory; the model keeps `.` as a type of its own and lists the asset under it.
- Existing data: `FilesystemServer.Server.constructor` starts from empty directories. Files already on disk and files placed there by other programs, such as a non-object event file or a business file that is not valid JSON, are not modelled.
- JSON numbers: they are integers, so floats and their printed form are not modelled.
- FilesystemServer.Server.SaveCalendarEvent: requires an id that is not a list or dict. `str()` of those depends on dict ordering and quoting, which the model does not capture.
- FilesystemServer.Server.SaveTask: requires an id that is not a list or dict, for the same reason.
- FilesystemServer.Server.GetDocument: a content file that `json.dump` wrote (a sidecar read as a document) is returned as its record, not as its dumped text, because the dumped layout is not modelled. Reading a file that is not valid text fails in the source, and the model does not capture that.
- FilesystemServer.Server.SaveDocument: JSON parsing is not modelled. The caller passes what `json.load` would make of the content (`parsed`), and nothing ties it to the text.
- FilesystemServer.Server.SaveUiAsset: a write stores the text unchanged, as text mode does on POSIX systems. The `\n` to `\r\n` translation of a Windows write is not modelled.
- Clock: `datetime.now().isoformat()` and `int(timestamp())` are the parameters `now` and `seconds`. Their format and monotonicity are not modelled.
- Server wiring: `register_function` and `start` belong to the external server library.
- Onboarding submission: `handleSubmit` posts the state with `fetch` and only logs the answer. It changes no state, so the network call is not modelled.
- Rendering: markup, styling and the progress indicator are not modelled. The render is modelled only as the guards saying which control is shown and enabled.
- OnboardingComponent.Component: React batching and stale closures are not modelled. Each handler is applied to the current state, one at a time.
- OnboardingFormClass.OnboardingFormComponent: likewise, each `setState` merge is applied at once.
- Agents, workflows and HTTP routing: `agents/*.py`, `workflows/*.py` and `main.py` are declarations for an external agent runtime and web framework, and they are not part of this model.
