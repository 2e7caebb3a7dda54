# bharat-codecamp rules, modelled in Dafny

ProgramBharat is a browser-based learning platform. It has lessons, notes, cheatsheets, a profile page with achievements, a code editor and a serverless function that runs code in the Judge0 sandbox. Almost all of it is React presentation around a hosted database. This project models the small rule sets the pages and components contain and proves properties about them:

- **File explorer** (`filetree.dfy`, module `FileTree`):
  - the `FileNode` shape;
  - the expanded-folder set and `toggleFolder`;
  - the "new file / new folder" name input (`startCreating`, `handleCreate`, Escape);
  - the extension-to-language table;
  - the rows `renderNode` draws.
- **Form schemas** (`validations.dfy`, module `Validations`): the zod schemas for sign-up, sign-in, notes, file nodes and projects. Each field's check chain reports its messages in the order the checks are chained, and the fields are reported in schema order, so the first issue, the only one the Auth page shows, is the first message of the first failing field. A parser accepts exactly when no field reports a message.
- **Command palette** (`commandpalette.dfy`): the case-insensitive filter, the wrap-around cursor, Enter and click, and the two reset effects.
- **Notes page** (`notes.dfy`): the note search and the dialog's form state, including the reset at the end of `saveNote`.
- **Cheatsheet page** (`cheatsheet.dfy`): the language chips (`"all"` followed by each language once, in order of first appearance) and the combined search and language filter.
- **Profile page** (`profile.dfy`): the copy of the profile's three counters and the five achievements with their unlock thresholds.
- **Learn page** (`learn.dfy`): `isLessonCompleted`, the two integer operands of `completionPercentage`, and the Mark-as-Complete button.
- **Terminal** (`terminal.dfy`): `handleSubmit` over the input line and the history.
- **Editor page** (`editorpage.dfy`): the initial state, the language switch, the code buffer, how `supabase.functions.invoke` turns an answer of `execute-code` into data or an error, and how `runCode` updates `output` and `isRunning`.
- **`execute-code` function** (`executecode.dfy`): the OPTIONS and Authorization guards, the Judge0 language-id table with its default of 71, and how output and error are chosen from the sandbox result.

Shared modules:

- `text.dfy`: JavaScript's `trim`, `toLowerCase` and `includes`.
- `lists.dfy`: `filter`, `find`, and the `[...new Set(xs)]` idiom.
- `jsrecord.dfy`: what `table[key]` reads on an object literal, including the members it inherits from `Object.prototype`.
- `wrappers.dfy`: `Option` and `Result`.

Components whose fields the source updates in place are classes. Their event handlers are methods. The classes are:

- `FileTree.Explorer`
- `CommandPalette.Palette`
- `Notes.NotesPage`
- `Terminal.TerminalView`
- `EditorPage.Editor`

Filters, lookups and schemas are functions.

`src/pages/Editor.tsx` edits a single buffer, and `FileTree.tsx` only emits create and delete callbacks, so there is no tree insert, remove or update and no tab or selection logic to model.

I/O enters as parameters:

- database and auth results arrive as `Result`/`Option` values;
- the sandbox call is a function parameter of `ExecuteCode.Handle`;
- `supabase.functions.invoke` has its outcome passed to `EditorPage.Editor.FinishRun`; `EditorPage.InvokeOutcome` relates that outcome to the handler's answer, with the client library's message for a non-2xx answer as a parameter;
- zod's e-mail regular expression is a predicate parameter `isEmail`.

## Model

| member | source | states |
|---|---|---|
| Text.Trim | src/lib/validations.ts:6 | `trim` returns the slice of the input left after removing its leading and trailing whitespace: what comes before and after the slice is whitespace, the slice is empty exactly for whitespace-only input, and otherwise it starts and ends with a non-whitespace character |
| Text.TrimUnique | src/lib/validations.ts:6 | whenever a string is blank padding, then a run that is empty or has non-whitespace ends, then blank padding, `trim` returns exactly that run |
| Text.TrimUnpadded | src/lib/validations.ts:6 | a string with no whitespace at either end is left unchanged by `trim` |
| Text.TrimIdempotent | src/lib/validations.ts:6 | trimming twice gives the same result as trimming once |
| Text.TrimPadded | src/lib/validations.ts:33-34 | whitespace of any kind and amount added before and after a string, independently on each side, does not change what `trim` returns |
| Text.ToLower | src/components/editor/CommandPalette.tsx:38 | `toLowerCase` keeps the length and lower-cases each character: A-Z become a-z, others are unchanged |
| Text.ToLowerIdempotent | src/components/editor/CommandPalette.tsx:38 | a lower-cased string has no upper-case letter, so lower-casing it again changes nothing |
| Text.IncludesIffOccurs | src/components/editor/CommandPalette.tsx:38 | the `includes` scan succeeds exactly when the query occurs at some position of the string |
| Text.EmptyQueryMatches | src/pages/Notes.tsx:137 | every string includes the empty query, ignoring case |
| Lists.Filter | src/components/editor/CommandPalette.tsx:37-40 | `filter` keeps exactly the elements that pass the test, in their original order, as a subsequence of the input; when every element passes, it returns the input |
| Lists.FilterAppend | src/pages/Learn.tsx:107 | filtering a concatenation filters each part |
| Lists.FilterSamePredicate | src/pages/Notes.tsx:136-139 | two tests that agree on every element keep the same elements |
| Lists.Find | src/pages/Editor.tsx:25 | `find` returns something exactly when some element passes, and then returns the first element that passes |
| Lists.DistinctSnoc | src/pages/Cheatsheet.tsx:45 | a `Set` keeps insertion order: adding a value at the end appends it once when it is new and ignores it otherwise |
| JsRecord.PropertyRead | src/components/FileTree.tsx:64 | `table[key]` reads the table's own entry exactly when the key is one, an inherited `Object.prototype` member exactly when the key names one and is not an own entry, and `undefined` otherwise |
| FileTree.LastSegment | src/components/FileTree.tsx:57 | `split(".").pop()` is the dot-free suffix after the last dot, or the whole name when there is no dot |
| FileTree.LastSegmentNoDot | src/components/FileTree.tsx:57 | a name without a dot is its own extension |
| FileTree.LastSegmentAfterDot | src/components/FileTree.tsx:57 | the extension of `base.ext` is `ext` whatever `base` holds |
| FileTree.ExtensionKeyAfterDot | src/components/FileTree.tsx:57 | the lookup key of `base.ext` is `ext` lower-cased |
| FileTree.ExtensionKeyNoDot | src/components/FileTree.tsx:57 | the lookup key of a dot-free name is the whole name lower-cased |
| FileTree.LanguageFor | src/components/FileTree.tsx:57-64 | a new file's language is the table entry for its lower-cased extension, or "python" when there is no entry (corrected lookup, see Findings) |
| FileTree.LanguageAsWritten | src/components/FileTree.tsx:58-64 | the table read with its "python" fallback, as JavaScript evaluates it, never yields `undefined` |
| FileTree.LanguageAsWrittenAgrees | src/components/FileTree.tsx:58-64 | the as-written lookup gives the corrected language for every extension that does not name an `Object.prototype` member |
| FileTree.ConstructorInherited | src/components/FileTree.tsx:58-63 | `constructor` is not a table entry but is read from `Object.prototype` |
| FileTree.ConstructorKey | src/components/FileTree.tsx:57 | the lookup key of any `<base>.constructor` is `constructor` |
| FileTree.LanguageAsWrittenInheritedMember | src/components/FileTree.tsx:57-64 | a file named `<base>.constructor` gets the inherited `Object` function as its "language" |
| FileTree.LanguageUpperCaseExtension | src/components/FileTree.tsx:57-64 | `X.PY` is Python because the extension is lower-cased before the lookup |
| FileTree.LanguageLastDot | src/components/FileTree.tsx:57-64 | only the last dot counts: `X.test.ts` is TypeScript |
| FileTree.LanguageNoDot | src/components/FileTree.tsx:57-64 | a file named `js` is JavaScript |
| FileTree.LanguageEmptyExtension | src/components/FileTree.tsx:57-64 | a trailing dot gives the empty extension, which falls back to "python" |
| FileTree.LanguageUnknownExtension | src/components/FileTree.tsx:57-64 | an extension outside the table (`.md`) falls back to "python" |
| FileTree.CreateIntentFor | src/components/FileTree.tsx:53-68 | a blank name fires no callback; otherwise exactly one fires, `onCreateFile` exactly when the type is "file", and it receives the untrimmed name, the current parent and (for a file) the language |
| FileTree.Toggled | src/components/FileTree.tsx:37-45 | toggling flips the membership of that id and keeps every other id's membership |
| FileTree.ToggleTwice | src/components/FileTree.tsx:37-45 | toggling the same folder twice restores the expanded set |
| FileTree.Explorer.constructor | src/components/FileTree.tsx:32-35 | no folder is expanded, no input is open and the name is empty |
| FileTree.Explorer.ToggleFolder | src/components/FileTree.tsx:37-45 | the copy-then-add-or-delete update stores exactly the toggled set and changes no other field |
| FileTree.Explorer.StartCreating | src/components/FileTree.tsx:47-51 | it sets the parent and the type and clears the name |
| FileTree.Explorer.EditName | src/components/FileTree.tsx:143 | typing sets the name and nothing else |
| FileTree.Explorer.CancelCreating | src/components/FileTree.tsx:146-149 | Escape clears the parent and the type but keeps the typed name |
| FileTree.Explorer.HandleCreate | src/components/FileTree.tsx:53-73 | it fires the intent `CreateIntentFor` gives; a blank name leaves all three fields untouched, and any other name clears them all |
| FileTree.RenderNode | src/components/FileTree.tsx:75-161 | the node's own row comes first; descendants are drawn deeper than the node, and so is the name input |
| FileTree.ClosedNodeOneRow | src/components/FileTree.tsx:136 | a file, a collapsed folder and a folder without a `children` array show only their own row |
| FileTree.ExpandedFolderShowsChildren | src/components/FileTree.tsx:136-138 | an expanded folder with a `children` array shows every child's row one level deeper |
| FileTree.ForestShowsEach | src/components/FileTree.tsx:138 | every sibling's own row is drawn at the siblings' depth |
| FileTree.ForestAppend | src/components/FileTree.tsx:138 | the rows of two runs of siblings are the first run's rows followed by the second's |
| FileTree.RenderForest | src/components/FileTree.tsx:138 | sibling rows are never shallower than the siblings' depth, and name inputs are always deeper |
| FileTree.TopLevelInputShown | src/components/FileTree.tsx:190-209 | a top-level name input is drawn exactly when creation is under no parent and a type is set |
| FileTree.CollapsedForest | src/components/FileTree.tsx:136-138 | siblings that are all collapsed show one row each and none of their descendants |
| Validations.MinCheck | src/lib/validations.ts:10 | `.min(n)` reports its one message exactly when the string is shorter than `n` |
| Validations.MaxCheck | src/lib/validations.ts:8 | `.max(n)` reports its one message exactly when the string is longer than `n` |
| Validations.PatternCheck | src/lib/validations.ts:12-14 | a `.regex`/`.email` check reports its one message exactly when the pattern does not match |
| Validations.EmailIssues | src/lib/validations.ts:5-8 | the trimmed e-mail is accepted exactly when it matches and has at most 255 characters; each message appears exactly when its rule fails; the messages come in chain order, so a malformed address reports "Invalid email address" first |
| Validations.SignUpPasswordIssues | src/lib/validations.ts:9-14 | the untrimmed password is accepted exactly when it has 8 to 100 characters, an upper-case letter, a lower-case letter and a digit; each of the five messages appears exactly when its rule fails, and they come in chain order: length first, then upper-case, lower-case and digit |
| Validations.SignUpPasswordFirstIssue | src/lib/validations.ts:9-14 | the first message reported is that of the first check in the chain that fails: too short, else too long, else no upper-case letter, else no lower-case letter, else no digit as the only message |
| Validations.AbcPasswordIssues | src/lib/validations.ts:9-14 | the password "abc" reports exactly "at least 8 characters", "uppercase letter" and "number", in that order |
| Validations.SignInPasswordIssues | src/lib/validations.ts:26-28 | the sign-in password is accepted exactly when it has 1 to 100 characters; "required" appears exactly for the empty password; at most one message is reported |
| Validations.TitleIssues | src/lib/validations.ts:15-18 | full name, note title and project title are accepted exactly when 1 to 100 characters remain after trimming; "required" appears exactly for blank input |
| Validations.NoteContentIssues | src/lib/validations.ts:37-40 | note content is accepted when absent or when it has at most 50000 characters after trimming |
| Validations.FileNameIssues | src/lib/validations.ts:45-49 | a file-node name is accepted exactly when, trimmed, it has 1 to 255 characters all from `[a-zA-Z0-9._-]`; each of the three messages appears exactly when its rule fails, in chain order; a blank name reports "Name is required" and then the pattern message |
| Validations.CodeIssues | src/lib/validations.ts:50-52 | file content and project code are not trimmed; they are accepted when absent or when they have at most 100000 characters |
| Validations.ParseSignUp | src/lib/validations.ts:4-19 | sign-up succeeds exactly when all three fields are accepted, and then carries the trimmed e-mail and name; a failure lists, for each field, exactly the messages that field's checks report, field by field in schema order and each field's in chain order; the first issue is the e-mail's first message, else the password's, else the full name's |
| Validations.ParseSignIn | src/lib/validations.ts:21-29 | sign-in succeeds exactly when both fields are accepted, and then carries the trimmed e-mail; a failure lists, for each field, exactly the messages that field's checks report, e-mail before password and each in chain order; the first issue is the e-mail's first message, and with a valid e-mail the password's single message is the only issue |
| Validations.ShortPasswordShownFirst | src/lib/validations.ts:4-19 | sign-up with an accepted e-mail and name and the password "abc" fails, and its first issue, the one shown, is "Password must be at least 8 characters" |
| Validations.Issues2Ordered | src/lib/validations.ts:32-41 | the issues of two fields in schema order, each field's messages in chain order, are listed field by field and in chain order within a field |
| Validations.Issues3Ordered | src/lib/validations.ts:4-19 | the same for the three fields of the sign-up schema |
| Validations.ParseNoteOrdered | src/lib/validations.ts:32-41 | a failed note lists its issues in order; a rejected title's message comes first |
| Validations.ParseFileNodeOrdered | src/lib/validations.ts:44-53 | a failed file node lists its issues in order; a rejected name's first message comes first |
| Validations.ParseProjectOrdered | src/lib/validations.ts:55-62 | a failed project lists its issues in order; a rejected title's message comes first |
| Validations.ParseNote | src/lib/validations.ts:32-41 | a note parses exactly when title and content are accepted, into their trimmed forms |
| Validations.ParseFileNode | src/lib/validations.ts:44-53 | a file node parses exactly when name and content are accepted; the name is trimmed and the content is kept as it was |
| Validations.ParseProject | src/lib/validations.ts:55-62 | a project parses exactly when title and code are accepted; the title is trimmed and the code is kept as it was |
| Validations.SignUpPasswordSignsIn | src/lib/validations.ts:9-14 | every password accepted at sign-up is accepted at sign-in |
| Validations.BlankTitleRejected | src/lib/validations.ts:15-18 | a whitespace-only title, full name or file name is rejected |
| Validations.PaddingNotCounted | src/lib/validations.ts:33-36 | any whitespace before and after an accepted title keeps it accepted: the padding is trimmed before the length is checked |
| Validations.UpperBoundsInclusive | src/lib/validations.ts:45-51 | despite the "less than" messages, exactly 100 (title), 255 (name) and 100000 (code) characters pass |
| Validations.UpperBoundsExceeded | src/lib/validations.ts:45-51 | 101, 256 and 100001 characters are rejected |
| Validations.InteriorSpaceRejected | src/lib/validations.ts:45-49 | a space that survives trimming makes the name fail the character pattern |
| Validations.ParseNoteStable | src/lib/validations.ts:32-41 | a parsed note parses again to itself |
| Validations.ParseSignUpStable | src/lib/validations.ts:4-19 | a parsed sign-up form parses again to itself |
| Validations.ParseFileNodeStable | src/lib/validations.ts:44-53 | a parsed file node parses again to itself |
| CommandPalette.Filtered | src/components/editor/CommandPalette.tsx:37-40 | exactly the commands whose label or category contains the search, ignoring case, in their original order |
| CommandPalette.EmptySearchListsAll | src/components/editor/CommandPalette.tsx:28-40 | an empty search lists every command |
| CommandPalette.NextIndex | src/components/editor/CommandPalette.tsx:59-61 | ArrowDown stays in range, moves up by one, and wraps from the last index to 0 |
| CommandPalette.PrevIndex | src/components/editor/CommandPalette.tsx:62-64 | ArrowUp stays in range, moves down by one, and wraps from 0 to the last index |
| CommandPalette.ArrowKeysInverse | src/components/editor/CommandPalette.tsx:59-64 | ArrowUp undoes ArrowDown and vice versa |
| CommandPalette.Palette.constructor | src/components/editor/CommandPalette.tsx:25-35 | the palette starts with the six commands, an empty search and the first row highlighted |
| CommandPalette.Palette.SetSearch | src/components/editor/CommandPalette.tsx:42-44 | a changed search resets the cursor to 0; the cursor stays on a listed row |
| CommandPalette.Palette.SetOpen | src/components/editor/CommandPalette.tsx:46-51 | closing clears the search and resets the cursor; other changes keep both |
| CommandPalette.Palette.KeyDown | src/components/editor/CommandPalette.tsx:58-71 | the arrows move the cursor by `NextIndex`/`PrevIndex`; Enter runs the highlighted command and closes exactly when that row exists; other keys do nothing; the cursor stays on a listed row |
| CommandPalette.Palette.Click | src/components/editor/CommandPalette.tsx:96-99 | clicking a row runs that row's command and closes |
| CommandPalette.EnterFiresIffMatches | src/components/editor/CommandPalette.tsx:65-69 | with the cursor kept in range, Enter can fire exactly when some command matches the search |
| Notes.FilteredNotes | src/pages/Notes.tsx:136-139 | exactly the notes whose title or content contains the query, ignoring case, in their original order |
| Notes.EmptyQueryKeepsAll | src/pages/Notes.tsx:136-139 | an empty query keeps every note |
| Notes.QueryCaseIgnored | src/pages/Notes.tsx:136-139 | a query finds the same notes as its lower-cased form |
| Notes.SaveRequestFor | src/pages/Notes.tsx:62-95 | `saveNote` updates the selected note exactly when editing with a note selected, and inserts otherwise |
| Notes.NotesPage.constructor | src/pages/Notes.tsx:24-30 | no notes, an empty search, the dialog closed and the form cleared |
| Notes.NotesPage.NotesLoaded | src/pages/Notes.tsx:47-55 | an error keeps the list; `null` data gives the empty list; any other data replaces the list |
| Notes.NotesPage.SetSearchQuery | src/pages/Notes.tsx:193 | typing in the search box changes only the query |
| Notes.NotesPage.EditForm | src/pages/Notes.tsx:165-174 | typing in the dialog changes only the title and content |
| Notes.NotesPage.OpenEditDialog | src/pages/Notes.tsx:120-126 | the note is loaded into the form in edit mode, selected, and the dialog opens |
| Notes.NotesPage.OpenNewNoteDialog | src/pages/Notes.tsx:128-134 | the form is cleared in create mode and the dialog opens |
| Notes.NotesPage.SetDialogOpen | src/pages/Notes.tsx:148 | the dialog's open flag changes and nothing else |
| Notes.NotesPage.SelectNote | src/pages/Notes.tsx:237 | clicking a note's content selects it |
| Notes.NotesPage.ClearSelection | src/pages/Notes.tsx:255 | closing the viewer clears the selection and hides the viewer |
| Notes.NotesPage.SaveNote | src/pages/Notes.tsx:58-102 | without a user nothing changes; with one, the request follows `SaveRequestFor` and the dialog always closes with the form cleared, whatever the backend answers |
| Cheatsheets.Languages | src/pages/Cheatsheet.tsx:45 | `"all"` first, then each cheatsheet's language exactly once and nothing else |
| Cheatsheets.LanguagesSnoc | src/pages/Cheatsheet.tsx:45 | chips follow first appearance: a cheatsheet added at the end adds a chip at the end exactly when its language is new |
| Cheatsheets.FilteredCheatsheets | src/pages/Cheatsheet.tsx:47-52 | exactly the cheatsheets meeting both the search and the language condition, in their original order |
| Cheatsheets.NoFilterKeepsAll | src/pages/Cheatsheet.tsx:47-52 | an empty search with the "all" chip keeps every cheatsheet |
| Cheatsheets.EveryChipSelectsSomething | src/pages/Cheatsheet.tsx:45-52 | every language chip selects at least one cheatsheet when the search is empty |
| Cheatsheets.NullDescriptionByTitle | src/pages/Cheatsheet.tsx:48-49 | a cheatsheet with no description is matched by its title alone |
| Cheatsheets.ChipsDistinct | src/pages/Cheatsheet.tsx:45 | no chip appears twice exactly when no cheatsheet's language is itself "all" |
| Profiles.GenerateAchievements | src/pages/Profile.tsx:89-124 | five achievements in fixed order, each unlocked exactly at its threshold (lessons >= 1, streak >= 7, lessons >= 10, notes >= 5, streak >= 30) |
| Profiles.UnlockMonotone | src/pages/Profile.tsx:95-119 | raising counters never locks an achievement again |
| Profiles.HarderImpliesEasier | src/pages/Profile.tsx:95-119 | Dedicated Learner implies Week Warrior, and Knowledge Seeker implies First Steps |
| Profiles.StatsOf | src/pages/Profile.tsx:49-53 | the three counters are copied unchanged |
| Profiles.OnProfile | src/pages/Profile.tsx:47-60 | a loaded profile sets the stats and the achievements from its counters; without one both keep their values |
| Profiles.FreshProfileAllLocked | src/pages/Profile.tsx:47-60 | a profile with all counters at zero has every achievement locked |
| Learn.IsLessonCompleted | src/pages/Learn.tsx:102-104 | a lesson counts as completed exactly when some progress entry for it is completed |
| Learn.IrrelevantEntry | src/pages/Learn.tsx:103 | an entry for another lesson, or one not completed, never changes the answer |
| Learn.MarkedLessonCompleted | src/pages/Learn.tsx:75-95 | once the upserted completed entry is in the progress, the lesson counts as completed |
| Learn.CompletedCount | src/pages/Learn.tsx:107 | the numerator counts the completed entries and is at most the number of entries |
| Learn.CompletedCountAppend | src/pages/Learn.tsx:107 | the completed counts of two lists add up |
| Learn.CompletionFraction | src/pages/Learn.tsx:106-108 | 0 over 1 without lessons, otherwise the completed count over the number of lessons |
| Learn.NumeratorCanExceedLessons | src/pages/Learn.tsx:107 | two completed entries for one lesson give 2 over 1: the numerator counts entries, not lessons |
| Learn.MarkButtonFor | src/pages/Learn.tsx:218-227 | the button is disabled, and reads "Completed", exactly when the lesson is completed |
| Terminal.PromptLine | src/components/editor/Terminal.tsx:27 | a history line is the prompt followed by the command, and the command can be read back |
| Terminal.PromptLineIsHistoryLine | src/components/editor/Terminal.tsx:24-27 | the line recorded for a non-blank input holds its trimmed command |
| Terminal.HistoryAppend | src/components/editor/Terminal.tsx:27 | appending a history line keeps every line well-formed |
| Terminal.TerminalView.constructor | src/components/editor/Terminal.tsx:11-12 | an empty input and an empty history |
| Terminal.TerminalView.SetInput | src/components/editor/Terminal.tsx:72 | typing changes the input and keeps the history |
| Terminal.TerminalView.Submit | src/components/editor/Terminal.tsx:22-30 | a blank input, or a submit during a run, changes nothing and issues nothing; otherwise the history grows by exactly the prompt line of the trimmed input, the input is cleared and the trimmed command is issued |
| EditorPage.FindOption | src/pages/Editor.tsx:25 | the first option with that value, found exactly when one exists |
| EditorPage.RunOutput | src/pages/Editor.tsx:44-46 | the first non-empty of `data.output` and `data.error`, else "No output"; a failed call shows `Error: <message>` |
| EditorPage.DataOf | src/pages/Editor.tsx:44 | the data of a 200 answer carries its `output` and its `error` |
| EditorPage.InvokeOutcome | src/pages/Editor.tsx:37-42 | a 2xx answer with a result yields its data; any other status yields the client's own error, not the server's `{ error }` body |
| EditorPage.ShowsServerOutput | src/pages/Editor.tsx:44 | a successful answer of `execute-code` is shown verbatim, since its output is never empty |
| EditorPage.HandlerErrorShowsClientMessage | src/pages/Editor.tsx:42-46 | every non-200 answer to a run request is a 401 or a 500 and is shown as `Error: ` and the client's message |
| EditorPage.OkShowsSandboxOutput | src/pages/Editor.tsx:37-44 | a 200 answer to a run request means the sandbox ran the submission, and the editor shows that run's output |
| EditorPage.OutputPane | src/pages/Editor.tsx:142 | the output, or the hint while it is empty |
| EditorPage.PaneShowsRunOutput | src/pages/Editor.tsx:42-54 | after a run, successful or not, the pane shows exactly the run's output and never falls back to the hint's branch |
| EditorPage.Editor.constructor | src/pages/Editor.tsx:18-21 | Python with its sample program, no output, not running |
| EditorPage.Editor.HandleLanguageChange | src/pages/Editor.tsx:24-31 | a listed language loads its sample and clears the output; any other value changes nothing |
| EditorPage.Editor.SetCode | src/pages/Editor.tsx:127 | the buffer becomes the new value, or "" when there is none |
| EditorPage.Editor.StartRun | src/pages/Editor.tsx:34-40 | the run starts with "Running code..." and sends the current code and language |
| EditorPage.Editor.FinishRun | src/pages/Editor.tsx:42-54 | the output is `RunOutput` of the outcome and `isRunning` is false on both paths |
| EditorPage.LanguageOptionsDistinct | src/pages/Editor.tsx:10-15 | the four options have different values |
| EditorPage.SwitchLoadsSample | src/pages/Editor.tsx:24-31 | with distinct values, choosing an option switches to that very option |
| ExecuteCode.LanguageId | supabase/functions/execute-code/index.ts:26-50 | the table's id for a listed language, 71 for any other (corrected lookup, see Findings) |
| ExecuteCode.LanguageIdAsWritten | supabase/functions/execute-code/index.ts:50 | the table read with its fallback to 71, as JavaScript evaluates it, never yields `undefined` |
| ExecuteCode.LanguageIdAsWrittenAgrees | supabase/functions/execute-code/index.ts:50 | the as-written lookup agrees with `LanguageId` on every language that does not name an `Object.prototype` member |
| ExecuteCode.LanguageIdProtoRunsAsPython | supabase/functions/execute-code/index.ts:50 | the language `__proto__` reads `undefined` under Deno and so falls back to 71 |
| ExecuteCode.LanguageIdAsWrittenInherited | supabase/functions/execute-code/index.ts:50 | the language "toString" reads `Object.prototype.toString` instead of an id |
| ExecuteCode.UnlistedLanguagesRunAsPython | supabase/functions/execute-code/index.ts:26-50 | typescript, html, css and json, which the explorer can assign, run with id 71 |
| ExecuteCode.OutputOf | supabase/functions/execute-code/index.ts:58 | the first non-empty of stdout, stderr and compile output, else "No output"; never empty |
| ExecuteCode.ErrorOf | supabase/functions/execute-code/index.ts:59 | stderr exactly when the status is not "Accepted" (a missing status included), otherwise null |
| ExecuteCode.Begin | supabase/functions/execute-code/index.ts:9-23 | OPTIONS is answered first with a null body; then a missing or empty Authorization header gives 401 "Authentication required"; then an unreadable body gives 500 with its message; otherwise the code is submitted with `LanguageId` |
| ExecuteCode.Finish | supabase/functions/execute-code/index.ts:54-67 | a sandbox result gives 200 with its output and error; a thrown error gives 500 with its message |
| ExecuteCode.Handle | supabase/functions/execute-code/index.ts:8-69 | the handler answers from `Begin`, and calls the sandbox only when `Begin` submits |
| ExecuteCode.SandboxOnlyWhenAuthenticated | supabase/functions/execute-code/index.ts:9-23 | without authentication, for a preflight or an unreadable body, the answer does not depend on the sandbox |
| ExecuteCode.SuccessHasOutput | supabase/functions/execute-code/index.ts:56-62 | every 200 answer to a non-preflight request carries a result with a non-empty output |
| ExecuteCode.AcceptedHasNoError | supabase/functions/execute-code/index.ts:59 | an accepted run reports no error even when it wrote to stderr |

## Left out

- Database, auth and storage calls (Supabase), the `fetch` to Judge0, `serve`, and `req.json()`. They are I/O, so their results are parameters.
- `saveCode`, `deleteNote`'s request, and `markAsComplete`'s upsert and streak call. These are database writes. The model keeps only the state each one's result changes: `ClearSelection` on a successful delete, and `MarkedLessonCompleted` for the refreshed progress.
- Toasts, dates, `toLocaleDateString`, icons, styling, animation, scrolling and focus handling. These are presentation.
- Text.Trim, Text.ToLower, Validations.MaxCheck: the model uses ASCII lower-casing and sequence length. JavaScript's `toLowerCase` is Unicode-aware, and string lengths are UTF-16 code units. `trim` uses the ECMAScript whitespace and line-terminator set, written out.
- Validations.EmailIssues: zod's e-mail regular expression is a predicate parameter, not a model.
- Validations.ParseSignUp: zod reports issues with a path array and a code; the model keeps the field and the message.
- Validations.ParseNote and the other parsers: input that is not a string (a number, `undefined` for a required field) is left out, because the forms only produce strings.
- EditorPage.InvokeOutcome: supabase-js is not part of this model. Its message for a non-2xx answer is a parameter. A 2xx answer without a result body is treated as an error; only the preflight's answer has one, and the browser handles the preflight itself.
- Learn.CompletionFraction: the percentage is a floating-point division, times 100 and rounded. The model keeps its two integer operands.
- CommandPalette.Palette.KeyDown: requires a non-empty filtered list for the arrow keys. On an empty list JavaScript computes `% 0` and stores NaN.
- Learn.MarkButtonFor: the click handler (src/pages/Learn.tsx:213-216) also closes the lesson dialog with `setSelectedLesson(null)`; the dialog's open state is UI state and is not modelled.
- Learn.IsLessonCompleted: the data model types `completed` as nullable; `null` is modelled as `false`, which is how `&& p.completed` treats it.
- Profiles.StatsOf: the three counters are `number | null` in the database; the model uses integers. The unlock comparisons behave alike for `null` and 0, because JavaScript compares `null` as 0; the model does not distinguish the two.
- The terminal's rendered body (the history lines, the output and the "Executing..." line) is presentation and is not modelled.
- Notes.Note: `content` is nullable in the database. The page assumes a string, and the model does too.
- JSON serialisation: `JSON.stringify` drops a field whose value is a function. The model records that such a value was read (`JsRecord.Inherited`) rather than the text that is posted.
- The Auth page, the AI assistant, the inline chat, and the presentational editor components (tabs, status bar, breadcrumbs, panels). None of these is part of this model.
- File-tree insert, remove and update, open tabs and selection repair. They do not exist in the code.

## Findings

| source | as written | input that shows it | evidently intended | confidence | as-written member | corrected member |
|---|---|---|---|---|---|---|
| src/components/FileTree.tsx:64 | the `langMap` read, with its logical-or fallback to "python", also reads inherited members of the object literal | a new file named `x.constructor` gets the `Object` function as its language | only the table's own entries are consulted, and everything else falls back to "python" | not executed; medium | FileTree.LanguageAsWrittenInheritedMember | FileTree.LanguageFor |
| supabase/functions/execute-code/index.ts:50 | the `languageIds` read, with its logical-or fallback to 71, also reads inherited members of the object literal | a request with language `toString` posts `Object.prototype.toString`, which `JSON.stringify` drops, so Judge0 gets no `language_id` | only the table's own entries are consulted, and everything else runs as Python (71) | not executed; medium | ExecuteCode.LanguageIdAsWrittenInherited | ExecuteCode.LanguageId |

For each finding, the two lookups are related by a lemma: `FileTree.LanguageAsWrittenAgrees` and `ExecuteCode.LanguageIdAsWrittenAgrees`. Each proves that the as-written lookup and the corrected one agree on every key that does not name an `Object.prototype` member. `FileTree.CreateIntentFor` and `ExecuteCode.Begin` use the corrected lookups.
