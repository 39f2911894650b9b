# Form filling and e-mail templating, modelled in Dafny

This project models the core of a small document-automation system in Dafny.
The system has two halves:

- **PDF form filler.** It fills PDF forms from data rows. There are two copies:
  `backend/pdf_form_filler.py` (the backend) and `pdf_form_filler.py` (the root copy).
  - A JSON configuration places every field: by a row of single-character boxes, by
    a key prefix, by one exact key, or through date identifiers.
  - Fields whose value is longer than their boxes get synthetic boxes (`auto_<field>_<i>`).
  - The backend also searches the form's own words for labels of fields the
    configuration does not place.
  - The overlay is drawn in four passes (characters, dates, checkboxes, exact
    keys with the bold ID cover) and merged onto the empty form.
- **E-mail templater.** `.eml` templates are rewritten by text replacement.
  - `replace_in_eml` exists in `backend/email_replacer.py` and `email/email.py`.
  - It decodes with the first encoding that works, applies the pairs in order, and
    writes the changed text in the same encoding or copies the template.
  - The backend batch takes its pairs from `_old`/`_new` CSV columns.
  - The script applies fixed pairs to every `.eml` file of a folder.
  - `email_processor.py` builds pairs and form data from spreadsheet rows. It finds
    the names of a template's attachments in the part headers, and pairs each new
    attachment with one of them.

Module layout, one module per file:

| file | module | models |
|---|---|---|
| `base.dfy` | `Base` | `Option` |
| `text.dfy` | `Text` | the `str` methods the code uses (`lower`, `split`, `strip`, `count`, `replace`, `startswith`, …) |
| `dicts.dfy` | `Dicts` | insertion-ordered dictionaries (`OMap`) |
| `geometry.dfy` | `Geometry` | boxes and `convert_coords` |
| `paths.dfy` | `Paths` | POSIX `os.path.basename`, `join`, `splitext` |
| `positions.dfy` | `Positions` | the mutable coordinate table (`PositionTable`) and the stable sort by `x0` |
| `field_keys.dfy` | `FieldKeys` | `get_field_keys` in both copies |
| `spacing.dfy` | `Spacing` | `process_multi_char_field` in both copies |
| `labels.dfy` | `Labels` | `find_field_positions` and the injection of found fields |
| `drawing.dfy` | `Drawing` | the canvas, the four drawing passes, the merge |
| `fill.dfy` | `Fill` | `fill_pdf_form` in both copies |
| `replacer.dfy` | `Replacer` | `replace_in_eml`, `batch_process_emails`, the script's `main` |
| `attachments.dfy` | `Attachments` | the string logic of `email_processor.py` |

Modelling choices:

- **Both copies of the PDF filler.** They are modelled once, with a
  `Variant` (`Backend` or `Root`) wherever they differ:
  - how a row's character class is chosen;
  - the anchor of a field without boxes;
  - where a date's text comes from;
  - whether the label search runs;
  - whether the exact-key pass has the ID branch. Only the backend copy
    covers the printed ID and draws the ID in bold
    (backend/pdf_form_filler.py:402-430). The root copy's exact-key loop
    (pdf_form_filler.py:294-300) has no such branch.
- **Coordinate table.** The table is a `PositionTable` object whose methods update
  it in place, as the code mutates `mapping`.
- **Drawing.** Drawing appends commands to a `Canvas` object.
- **Outside world.** Files, fonts, the words of the PDF, decoding and encoding are
  parameters:
  - `Environment` holds the fonts, the empty form's pages and its words;
  - `Source` holds each encoding's decoding of a template;
  - `canEncode` says whether a text can be encoded in an encoding;
  - `load` gives a path's bytes;
  - `convert` gives the outcome of a PDF-to-image conversion.

## Model

| member | source | states |
|---|---|---|
| Text.Lower | email_processor.py:209 | lowering keeps the length |
| Text.LowerAt | email_processor.py:209 | each character is lowered on its own (ASCII letters) |
| Text.LowerKeeps | backend/email_replacer.py:35 | a text without capitals is its own lower case |
| Text.IndexFrom | email_processor.py:186 | finds the first occurrence of a pattern from a position, and none is earlier |
| Text.BeforeFirst | email_processor.py:211 | `split(pat)[0]` is a prefix of the text that ends where `pat` first occurs, and is the whole text when `pat` never occurs |
| Text.AfterFirst | email_processor.py:191 | `split('=', 1)[1]` exists exactly when the separator occurs, and is the text after its first occurrence |
| Text.ContainsOccurs | email_processor.py:185 | `pat in s` holds exactly when `pat` occurs at some index |
| Text.ContainsPrefix | email_processor.py:224-226 | a text holding `image/jpeg` also holds `image/`, so the JPEG test comes first |
| Text.SecondPiece | email_processor.py:227 | `split(pat)[1]` exists exactly when `pat in s` |
| Text.TrimLeft | email_processor.py:189 | strips exactly the leading run of the given characters |
| Text.TrimRight | email_processor.py:189 | strips exactly the trailing run of the given characters |
| Text.Split | email_processor.py:188 | `split(c)` gives at least one piece and no piece contains `c` |
| Text.SplitJoin | email_processor.py:188 | joining the pieces of a split with the separator gives the text back |
| Text.CountZeroIffAbsent | backend/email_replacer.py:108-109 | `Count`, like `count`, is zero exactly when the pattern does not occur |
| Text.ReplaceAbsent | backend/email_replacer.py:109-110 | `ReplaceAll`, like `replace`, changes nothing when the pattern is absent |
| Text.ReplaceLength | backend/email_replacer.py:110 | `ReplaceAll`'s result length grows by `Count` times the length difference |
| Text.ReplacePresentChanges | backend/email_replacer.py:110 | `ReplaceAll` of an occurring pattern by a different text changes the text |
| Text.ReplaceSelf | backend/email_replacer.py:110 | `ReplaceAll` of a pattern by itself changes nothing |
| Text.NatToString | backend/email_replacer.py:63 | a row number is written with digits only |
| Text.NatToStringInjective | backend/email_replacer.py:63 | different numbers are written differently |
| Dicts.OMap.Put | backend/pdf_form_filler.py:217 | assignment updates the value, keeps key order, appends only new keys |
| Dicts.Empty | backend/pdf_form_filler.py:237 | the empty dictionary is well formed |
| Geometry.ConvertCoords | backend/pdf_form_filler.py:85-89 | flipping keeps the box height and mirrors both edges in the page height |
| Geometry.ConvertTwice | backend/pdf_form_filler.py:85-89 | converting twice gives the original coordinates back |
| Geometry.ConvertKeepsOrder | backend/pdf_form_filler.py:85-89 | a box with `y0 <= y1` stays ordered after conversion |
| Geometry.Shift | backend/pdf_form_filler.py:213-222 | moving a box keeps its size and page |
| Paths.LastIndex | email_processor.py:269 | `rfind`: the index holds the character and no later index does |
| Paths.ComponentStart | email/email.py:87 | the last component starts right after the last separator (or at the start when there is none) |
| Paths.Basename | email/email.py:87 | `basename` is the longest separator-free suffix of the path |
| Paths.Join | backend/email_replacer.py:64 | `join` ends with its second part |
| Paths.JoinInjective | backend/email_replacer.py:64 | two output names joined onto one folder collide only when equal |
| Paths.BasenameOfJoin | email/email.py:87 | the basename of a joined plain name is the name |
| Paths.SplitExt | email_processor.py:269 | `splitext` splits the name into stem and extension; the extension is empty or one dot-led piece of the last component, and it is non-empty exactly when that component has a dot after some other character |
| Paths.SplitExtAtLastDot | email_processor.py:313 | a component with a non-dot character before its last dot splits at that dot |
| Positions.PositionTable.constructor | backend/pdf_form_filler.py:235 | the table starts as the configuration's `field_coordinates` |
| Positions.PositionTable.Put | backend/pdf_form_filler.py:217 | `mapping[key] = rect` updates the table like a dictionary assignment and keeps it well formed |
| Positions.InsertByX0 | backend/pdf_form_filler.py:229 | inserting a key keeps the keys in the table and adds exactly that key |
| Positions.InsertMembers | backend/pdf_form_filler.py:229 | the inserted sequence holds only the new key and the old keys |
| Positions.InsertSorted | backend/pdf_form_filler.py:229 | insertion into a sorted sequence stays sorted by `x0` |
| Positions.SortByX0 | backend/pdf_form_filler.py:229 | the sort is a permutation of the keys, sorted by `x0` |
| Positions.InsertKeepsTies | backend/pdf_form_filler.py:229 | insertion puts the new key before the equal-`x0` keys |
| Positions.SortIsStable | backend/pdf_form_filler.py:262 | keys with equal `x0` keep their original order, as `sorted` promises |
| FieldKeys.BackendClass | backend/pdf_form_filler.py:243-253 | a row is a digit row exactly when `field_type` says `digit`, or is absent and the name mentions zip, plz, postleitzahl or code |
| FieldKeys.RootClass | pdf_form_filler.py:139-150 | in the root copy, a row is a digit row exactly for `postleitzahl` |
| FieldKeys.RowCandidates | backend/pdf_form_filler.py:254-259 | the comprehension keeps exactly the single-character keys of the class within the row's tolerance |
| FieldKeys.PrefixCandidates | backend/pdf_form_filler.py:268 | the comprehension keeps exactly the keys with the prefix |
| FieldKeys.RowKeysExact | backend/pdf_form_filler.py:254-262 | a row's keys are exactly the matching table keys, sorted by `x0` |
| FieldKeys.PrefixKeysExact | backend/pdf_form_filler.py:266-269 | a prefix field's keys are exactly the table keys with the prefix, sorted by `x0` |
| FieldKeys.FirstMatchFrom | backend/pdf_form_filler.py:281-292 | the date key is the first table key meeting every condition; no earlier key does |
| FieldKeys.ConfigKeysLookup | backend/pdf_form_filler.py:240-272 | a configured field gets keys exactly when its rule gives some, and gets those keys |
| FieldKeys.DatumKeysLookup | backend/pdf_form_filler.py:275-292 | a date identifier that finds a key sets that key; otherwise the field keeps what it had |
| FieldKeys.FieldKeysLookup | backend/pdf_form_filler.py:233-294 | a field is resolved exactly when its date identifiers or its own rule give keys; date identifiers win |
| FieldKeys.RulePrecedence | backend/pdf_form_filler.py:241-272 | `y_coord` wins over `prefix`, which wins over `exact_key`; without any the field gets nothing |
| FieldKeys.GetFieldKeys | backend/pdf_form_filler.py:233-294 | the two loops compute the field keys of the configuration |
| FieldKeys.ApplyRule | backend/pdf_form_filler.py:240-272 | one configured field is processed as its rule says |
| FieldKeys.ApplyDatumIdentifiers | backend/pdf_form_filler.py:275-292 | the identifier loop applies every date identifier in order |
| FieldKeys.FirstMatchingKey | backend/pdf_form_filler.py:281-292 | the search loop with `break` finds the first matching key |
| Spacing.AutoKeyInjective | backend/pdf_form_filler.py:216 | synthetic keys of one field with different numbers differ |
| Spacing.AutoKeys | backend/pdf_form_filler.py:211-224 | the synthetic keys are numbered consecutively from the first missing position |
| Spacing.Seeded | backend/pdf_form_filler.py:162-192 | a field without keys gets one default box; the key list is never empty afterwards |
| Spacing.SumGapsTelescopes | backend/pdf_form_filler.py:198-200 | the sum of the gaps between neighbours is the distance from first to last |
| Spacing.SpacingClosedForm | backend/pdf_form_filler.py:196-208 | the average spacing is the first-to-last distance over the gaps, or the default for one key |
| Spacing.GrowShape | backend/pdf_form_filler.py:211-224 | the extension appends exactly the numbered synthetic keys and keeps the table well formed |
| Spacing.GrowKeepsOthers | backend/pdf_form_filler.py:217 | the extension writes only its own synthetic keys |
| Spacing.ShiftTimesIsScaled | backend/pdf_form_filler.py:213-214 | moving `n` times by `d` is moving once by `n * d` |
| Spacing.GrowEvenlySpaced | backend/pdf_form_filler.py:211-224 | the `i`-th synthetic box is the last real box moved by the spacing times its distance |
| Spacing.AutoKeyNotLater | backend/pdf_form_filler.py:216 | a synthetic key is not among those written after it |
| Spacing.DefaultIsNotAuto | backend/pdf_form_filler.py:165 | the default key is never a synthetic key |
| Spacing.MultiCharCoversValue | backend/pdf_form_filler.py:156-231 | `MultiChar`: the field ends with one box per character, and at least one box; no extension happens when the value fits |
| Spacing.MultiCharSorted | backend/pdf_form_filler.py:229 | `MultiChar`: an extended field's keys are the seeded and synthetic keys, sorted by `x0` |
| Spacing.MultiCharEvenlySpaced | backend/pdf_form_filler.py:194-224 | `MultiChar`: every synthetic box continues the row at the average spacing |
| Spacing.MultiCharKeepsOthers | backend/pdf_form_filler.py:156-231 | `MultiChar` adds or changes no other key of the table is added or changed |
| Spacing.MultiCharAnchor | backend/pdf_form_filler.py:162-192 | `MultiChar`'s anchor: backend first entry moved down 30 or (100,400,110,410); root (170,671,176,681) exactly for `postleitzahl` |
| Spacing.MultiCharKeepsKeys | backend/pdf_form_filler.py:156-231 | `MultiChar` removes no key of the table |
| Spacing.ProcessMultiCharField | backend/pdf_form_filler.py:156-231 | the in-place procedure leaves the table and keys the specification gives |
| Spacing.SeedKeys | backend/pdf_form_filler.py:162-192 | the seeding step writes the default box when there are no keys |
| Spacing.AverageSpacing | backend/pdf_form_filler.py:196-208 | the delta loop computes the average spacing |
| Spacing.ExtendKeys | backend/pdf_form_filler.py:211-224 | the extension loop writes the synthetic boxes in place |
| Labels.FieldLabelsDistinct | backend/pdf_form_filler.py:122-132 | the label table names each field once |
| Labels.Scan | backend/pdf_form_filler.py:135-148 | the scan over the words gives a well-formed table |
| Labels.LastLabel | backend/pdf_form_filler.py:138 | the last word matching a label, and no later one matches |
| Labels.ScanLookup | backend/pdf_form_filler.py:135-148 | a field is found exactly when one of its labels occurs before another word; the last such label's next word gives the box |
| Labels.ScanOnlyTableFields | backend/pdf_form_filler.py:122-132 | only fields of the label table are found |
| Labels.LastWordIsNoLabel | backend/pdf_form_filler.py:138 | the last word is never taken as a label |
| Labels.FindFieldPositions | backend/pdf_form_filler.py:116-150 | the word loop computes the scan |
| Labels.MissingFields | backend/pdf_form_filler.py:500-501 | exactly the data fields without keys that are not checkboxes |
| Labels.FieldLabelsAreNoCheckboxes | backend/pdf_form_filler.py:122-132 | no labelled field is a checkbox |
| Labels.InjectLookup | backend/pdf_form_filler.py:503-513 | a missing field that was found gets the key `found_<field>` with the found box; other fields keep their keys |
| Labels.InjectFound | backend/pdf_form_filler.py:503-513 | a missing, found field is placed at the found box |
| Labels.InjectNotFound | backend/pdf_form_filler.py:503-513 | a field that was not found keeps its keys |
| Labels.InjectKeepsKeys | backend/pdf_form_filler.py:511 | the injection removes no table key |
| Labels.InjectKeepsTable | backend/pdf_form_filler.py:511 | the injection writes only `found_` keys |
| Labels.InjectFoundFields | backend/pdf_form_filler.py:503-513 | the injection loop updates the table in place as the specification says |
| Drawing.Canvas.constructor | backend/pdf_form_filler.py:341 | a new canvas has the page size and no commands |
| Drawing.Canvas.Issue | backend/pdf_form_filler.py:362 | a drawing call appends one command |
| Drawing.RunConcat | backend/pdf_form_filler.py:409-426 | the pen state after two command runs composes |
| Drawing.RunKeepsFill | backend/pdf_form_filler.py:346-362 | commands that do not set white leave the fill colour |
| Drawing.FieldChars | backend/pdf_form_filler.py:355-362 | character `j` is drawn in box `j`, for as many characters as there are boxes |
| Drawing.FieldCharsComplete | backend/pdf_form_filler.py:355-362 | in `CharacterDraws`, every character is drawn when there are enough boxes, otherwise one per box |
| Drawing.DrawCharacterFields | backend/pdf_form_filler.py:346-362 | the character pass appends the specified commands |
| Drawing.DrawFieldChars | backend/pdf_form_filler.py:355-362 | one field's loop appends its characters |
| Drawing.CharacterDrawsStep | backend/pdf_form_filler.py:346-362 | `CharacterDraws`: each list field with data adds its characters |
| Drawing.SingleBox | backend/pdf_form_filler.py:369-371 | a single key of the table has a box |
| Drawing.Then | backend/pdf_form_filler.py:468-553 | a pass that fails makes the fill fail; otherwise commands concatenate |
| Drawing.DateDrawsFailure | backend/pdf_form_filler.py:364-381 | `DateDraw`: the date pass fails exactly when a date field with text resolves to a list or an unknown key |
| Drawing.DateTextSource | pdf_form_filler.py:267-283 | `DateDraw`: the root copy writes the `datum` value into every date field; the backend writes each field's own value |
| Drawing.DrawDateFields | backend/pdf_form_filler.py:364-381 | the date pass appends the specified commands or fails |
| Drawing.CheckDrawsOutcome | backend/pdf_form_filler.py:384-392 | `CheckDraw`: the checkbox pass fails exactly when an `x` field is not a single table key; it draws only `x` |
| Drawing.DrawCheckboxFields | backend/pdf_form_filler.py:384-392 | the checkbox pass appends the specified commands or fails |
| Drawing.IdDrawsParts | backend/pdf_form_filler.py:402-430 | `IdDraws`, the ID branch of `ExactDraw`, is a white cover followed by the bold-font text or `BoldText` |
| Drawing.IdCoverEncloses | backend/pdf_form_filler.py:408-428 | the cover encloses the box with 2 points of padding; the text is drawn in black on the box's line; the pen ends as it began |
| Drawing.IdPenRestored | backend/pdf_form_filler.py:409-426 | the colour and font are restored after the cover and after the ID |
| Drawing.ExactDrawsKeepPen | backend/pdf_form_filler.py:394-438 | `ExactDraw`: the exact-key pass leaves the regular font and black fill |
| Drawing.DrawExactKeyFields | backend/pdf_form_filler.py:394-438 | the exact-key pass appends the specified commands |
| Drawing.ExactDrawsStep | backend/pdf_form_filler.py:400-438 | `ExactDraw`: each configured field adds its own commands |
| Drawing.DrawId | backend/pdf_form_filler.py:402-430 | drawing the ID appends its cover and text |
| Drawing.DrawBoldText | backend/pdf_form_filler.py:322-330 | appends `BoldText`: the text drawn once in place and twice more half a point to the right |
| Drawing.MergeOverlayWithBase | backend/pdf_form_filler.py:440-451 | every base page is kept; those with an overlay page get it merged |
| Fill.WithDefaults | backend/pdf_form_filler.py:64-66 | the defaults fill only missing settings; given values are kept |
| Fill.WithDefaultsIdempotent | backend/pdf_form_filler.py:64-66 | applying the defaults twice is applying them once |
| Fill.FieldKeysReady | backend/pdf_form_filler.py:233-294 | every list `get_field_keys` produces lies in the table |
| Fill.LocatedReady | backend/pdf_form_filler.py:500-513 | the label search keeps the field keys drawable |
| Fill.LocatedByLabel | backend/pdf_form_filler.py:500-513 | a labelled data field without keys is placed at the box after its last label, or stays unplaced |
| Fill.LocatedKeepsResolved | backend/pdf_form_filler.py:500-513 | the search never changes a field that already has keys |
| Fill.MultiStep | backend/pdf_form_filler.py:516-524 | one multi-character step keeps the field keys drawable and their order |
| Fill.MultiStepLookup | backend/pdf_form_filler.py:516-524 | only the processed list field changes, to one box per character |
| Fill.MultiAll | backend/pdf_form_filler.py:516-524 | the loop keeps the field keys drawable and their order |
| Fill.MultiAllLookup | backend/pdf_form_filler.py:516-524 | every configured list field with data ends with one box per character; the others are unchanged |
| Fill.MultiAllKeeps | backend/pdf_form_filler.py:516-524 | fields that are not processed keep their keys |
| Fill.MultiAllGrows | backend/pdf_form_filler.py:516-524 | a processed field gets one box per character |
| Fill.MultiAllDrawsEveryCharacter | backend/pdf_form_filler.py:516-541 | after the step, the character pass draws every character of a list field |
| Fill.Prepared | backend/pdf_form_filler.py:496-524 | the prepared fields are drawable |
| Fill.PreparedInSteps | backend/pdf_form_filler.py:496-524 | preparation is key resolution, then the label search, then the multi-character loop |
| Fill.FillOutcome | backend/pdf_form_filler.py:468-553 | `FillSpec`: the fill succeeds exactly when all inputs exist and every date and checkbox lookup succeeds |
| Fill.CommandsOutcome | backend/pdf_form_filler.py:535-541 | the drawing fails exactly on a failed date or checkbox lookup |
| Fill.FillPages | backend/pdf_form_filler.py:440-451 | `FillSpec`: the output has the empty form's pages; only the first is drawn on, and it begins with the form's own content and the font |
| Fill.CommandsStartWithFont | backend/pdf_form_filler.py:342 | the overlay starts by setting the regular font |
| Fill.FillPdfForm | backend/pdf_form_filler.py:468-553 | the procedure returns True with the specified pages exactly when the specification succeeds |
| Fill.PrepareFields | backend/pdf_form_filler.py:496-524 | the preparation steps compute the prepared fields |
| Fill.ProcessMultiCharFields | backend/pdf_form_filler.py:516-524 | the loop updates the table in place as the specification says |
| Fill.ResolveFields | backend/pdf_form_filler.py:496-513 | key resolution and the label search update the table in place |
| Fill.DrawOverlay | backend/pdf_form_filler.py:532-541 | the four passes draw the specified commands or fail |
| Replacer.FirstDecodable | backend/email_replacer.py:87-96 | the first encoding that decodes; no earlier one does |
| Replacer.DetectOrder | backend/email_replacer.py:87-101 | UTF-8 wins, then Latin-1; Windows-1252 and lossy UTF-8 only when both fail |
| Replacer.DetectEncoding | backend/email_replacer.py:87-101 | the encoding loop with `break` gives the detected text and encoding |
| Replacer.AppliedIsReplaceEach | backend/email_replacer.py:107-111 | `Applied`, the guarded loop, is the plain fold of `replace` over the pairs in order |
| Replacer.NothingCountedNothingChanged | backend/email_replacer.py:107-114 | no occurrence counted means an unchanged text |
| Replacer.CountedButUnchanged | backend/email_replacer.py:108-114 | a counted pair can leave the text unchanged, so the result is decided by comparison |
| Replacer.ReplaceInEmlSpec | backend/email_replacer.py:77-127 | True exactly when the changed text was written back |
| Replacer.ReplaceInEmlChanged | backend/email_replacer.py:114-123 | True exactly when the text changed and could be encoded; an untouched template is copied |
| Replacer.ReplaceInEml | backend/email_replacer.py:77-127 | the procedure produces the specified outcome and reports the occurrence count |
| Replacer.RowReplacements | backend/email_replacer.py:50-55 | the pairs of a row are well formed with non-empty old texts |
| Replacer.LastOldColumn | backend/email_replacer.py:51-55 | the last `_old` column giving a text; no later one does |
| Replacer.RowReplacementsLookup | backend/email_replacer.py:50-55 | a text is replaced exactly when some `_old` column with a `_new` partner gives it; the last one decides |
| Replacer.BuildReplacements | backend/email_replacer.py:50-55 | the column loop computes the row's pairs |
| Replacer.EmlFiles | backend/email_replacer.py:35 | exactly the names ending in `.eml`, in any case |
| Replacer.SetFileNamesDistinct | backend/email_replacer.py:63 | `SetFileName` gives two rows of one template different output names |
| Replacer.RowJobPaths | backend/email_replacer.py:61-67 | a row's call reads a path ending in the template's name and writes a path ending in the row's set-file name |
| Replacer.PairedRows | backend/email_replacer.py:48-59 | the rows that yield pairs, increasing |
| Replacer.PairedRowsSound | backend/email_replacer.py:57-59 | every listed row yields pairs |
| Replacer.PairedRowsComplete | backend/email_replacer.py:57-59 | every row that yields pairs is listed |
| Replacer.JobsForOutput | backend/email_replacer.py:61-64 | the `k`-th call writes the numbered set file of its row |
| Replacer.RowJobs | backend/email_replacer.py:48-68 | one call per row that yields pairs |
| Replacer.RowJobsDistinctOutputs | backend/email_replacer.py:61-64 | no two calls of a template write the same file |
| Replacer.Plan | backend/email_replacer.py:44-68 | the calls of all templates, template by template |
| Replacer.Successes | backend/email_replacer.py:67-68 | the count of calls that returned True; zero exactly when none did |
| Replacer.SuccessesAppend | backend/email_replacer.py:67-68 | counts add up over consecutive calls |
| Replacer.RunJobsAppend | backend/email_replacer.py:44-68 | running two lists of calls is running one after the other |
| Replacer.BatchSucceeds | backend/email_replacer.py:71 | the batch succeeds exactly when some call wrote a rewritten template |
| Replacer.TemplateOutcomesRunJobs | backend/email_replacer.py:48-68 | the row loop makes exactly the planned calls |
| Replacer.ProcessRow | backend/email_replacer.py:48-68 | one row adds its call's outcome and success |
| Replacer.ProcessTemplate | backend/email_replacer.py:48-68 | the row loop counts the successes of its calls |
| Replacer.ProcessTemplates | backend/email_replacer.py:44-68 | the template loop makes the planned calls and counts their successes |
| Replacer.BatchProcessEmails | backend/email_replacer.py:8-75 | no rows or no template fail; otherwise success means at least one rewritten file |
| Replacer.ScriptReplacementsUsable | email/email.py:66-73 | the fixed pairs have non-empty old texts |
| Replacer.ScriptOutputKeepsName | email/email.py:87 | each file keeps its name in the output folder |
| Replacer.ScriptJobs | email/email.py:76-90 | one call per `.eml` file with the fixed pairs |
| Replacer.ProcessFolder | email/email.py:85-91 | the script's loop makes those calls and counts the files changed |
| Attachments.SheetReplacements | email_processor.py:72-77 | the pairs of a spreadsheet row are well formed |
| Attachments.LastPairColumn | email_processor.py:73-77 | the last column giving a pair for a text; no later one does |
| Attachments.SheetReplacementsLookup | email_processor.py:72-77 | a text is replaced exactly when a non-empty `_old` cell with a non-empty `_new` partner gives it; the last one decides |
| Attachments.SheetReplacementsEmpty | email_processor.py:79-81 | there are no pairs exactly when no column gives one |
| Attachments.BuildSheetReplacements | email_processor.py:72-77 | the column loop computes the pairs |
| Attachments.RowEmailIffPairs | email_processor.py:63-81 | a row produces an e-mail exactly when it has `mail_ID` and some column gives a pair |
| Attachments.FormData | email_processor.py:105-108 | the form data are exactly the non-empty cells other than the two identifiers, as text |
| Attachments.BuildFormData | email_processor.py:105-108 | the column loop computes the form data |
| Attachments.FormRequest | email_processor.py:97-108 | a form is requested exactly when `form_ID` is present and not empty; its data hold neither identifier |
| Attachments.StripAll | email_processor.py:188-189 | every piece is stripped |
| Attachments.FirstParam | email_processor.py:188-193 | the first parameter with the prefix; no earlier one has it |
| Attachments.FindParam | email_processor.py:188-193 | the parameter loop with `break` reads `HeaderParam`: the first matching parameter's value |
| Attachments.StripQuotesOfQuoted | email_processor.py:191 | stripping quotes from a quoted name gives the name |
| Attachments.WrittenParams | email_processor.py:348 | a written header splits into its value and the quoted parameter |
| Attachments.WrittenParamReadsBack | email_processor.py:348 | the name a header is written with is read back by `HeaderParam` |
| Attachments.FallbackName | email_processor.py:220-235 | an unnamed attachment is named `.jpeg` for `image/jpeg`, `attachment.<piece after image/>` for another image type, `.pdf` for `application/pdf`, and `.dat` otherwise or without a type |
| Attachments.ImageName | email_processor.py:207-217 | an `image/` type with subtype `jpeg` or `jpg` is named `attachment.jpeg`, any other non-empty subtype `attachment.<subtype>`; other types and an empty subtype give no name |
| Attachments.PartName | email_processor.py:179-238 | the disposition's `filename=` wins, then the type's `name=`, then the image-type name, then the fallback for an attachment; a part with none of these is not recorded; a recorded name is never empty |
| Attachments.DispositionNeedsAttachment | email_processor.py:186 | a disposition without `attachment` is never read for a name |
| Attachments.PartNameFromDisposition | email_processor.py:182-193 | an attachment named in its disposition is recorded under that name |
| Attachments.AttachmentNameReadsBack | email_processor.py:348 | a part written with `attachment; filename="n"` is found under `n` again |
| Attachments.ReadPartName | email_processor.py:179-238 | the three methods in order give the recorded name |
| Attachments.PartNames | email_processor.py:175 | one entry per part |
| Attachments.Somes | email_processor.py:237 | a name is kept exactly when it is present |
| Attachments.SomesSnocSome | email_processor.py:237 | a recorded name is appended after the earlier ones |
| Attachments.SomesSnocNone | email_processor.py:237 | a part not recorded adds nothing |
| Attachments.SomesNonEmpty | email_processor.py:237 | kept names are non-empty |
| Attachments.OriginalNames | email_processor.py:174-238 | the recorded names are the present part names in part order; a name is recorded exactly when some part is recorded under it; none is empty; a non-multipart template has none |
| Attachments.NamesCountAttachments | email_processor.py:174-238 | every attachment part is counted, and no more names than parts |
| Attachments.CollectNames | email_processor.py:174-238 | the part loop collects the names in order |
| Attachments.WithDefault | email_processor.py:241-243 | exactly `["attachment.jpeg"]` is assumed when names are missing and attachments are expected; otherwise the names are kept |
| Attachments.NameFor | email_processor.py:266-268 | attachment `i` takes the `i`-th name; past the end of the names it is exactly `attachment_<i>.pdf` |
| Attachments.NumberedNamesDistinct | email_processor.py:268 | numbered names of different attachments differ |
| Attachments.MimeForRoundTrip | email_processor.py:321-335 | `MimeFor` gives the four known extensions a declared type whose extension is the same; others are left to the lookup |
| Attachments.PartAsWrittenPayload | email_processor.py:278-318 | `PartAsWritten`: only a successful conversion sends an image; a failure renames to `.pdf`; otherwise the file goes as is |
| Attachments.FailedConversionMislabelled | email_processor.py:310-335 | `PartAsWritten`: after a failed conversion the `.pdf` file is declared with an image type |
| Attachments.ScanJpgMislabelled | email_processor.py:310-335 | `scan.jpg` becomes `scan.pdf` declared `image/jpeg` |
| Attachments.PdfNameExtension | email_processor.py:313 | the renamed file's extension is `.pdf` and its stem is kept |
| Attachments.AttachmentPartCorrectsOnlyFailures | email_processor.py:310-335 | `AttachmentPart`, the corrected part, differs from `PartAsWritten` only in declaring `application/pdf` after a failed conversion |
| Attachments.NewParts | email_processor.py:266-352 | one new part per file, each built by the corrected `AttachmentPart` |
| Attachments.NewPartsAt | email_processor.py:266-318 | part `i` is the corrected `AttachmentPart` of file `i` under name `i` |
| Attachments.AddAttachments | email_processor.py:174-352 | the procedure collects the names, applies the default and builds one part per file with the corrected `AttachmentPart` |
| Attachments.NewPartsNamed | email_processor.py:266-350 | every part the corrected `AttachmentPart` builds has a name, and its type matches that name |

## Left out

- Text handling is ASCII only. `lower`, `isdigit`, `isalpha` and `strip` do not model Unicode case mapping or Unicode digits and letters. `Text.Whitespace` holds the ASCII characters `str.strip()` removes (space, `\t`, `\n`, `\r`, `\x0b`, `\x0c` and `\x1c` to `\x1f`); the non-ASCII ones such as `\x85` and `\xa0` are not included.
- The label `straße:` of the label table is modelled as the mis-encoded text the source file contains (`stra√üe:`). It is matched character for character, as the code does.
- Reading JSON, CSV and Excel files, registering fonts, and extracting words from a PDF are not modelled. Their results are the `Environment` parameter and the row arguments.
- `list_available_forms`, `setup_font`, `read_csv_input`, `process_batch`, `get_form_data` and the argument parsing of every `main` are not modelled. What `setup_font` registers is the `Fonts` parameter (a regular font and, perhaps, a bold one); only the backend's ID branch uses the bold one.
- The overlay is one page, as the code draws it. The page size and the font are the environment's.
- Fill.FillOutcome: floating-point coordinates are modelled as exact `real` numbers.
- Spacing.MultiCharAnchor: table entries are always complete boxes. So the backend's search for a complete reference entry always takes the table's first entry, and the test for missing coordinates is not modelled.
- `find_field_positions` receives a list of field names that it never reads. The model leaves that argument out.
- `find_id_position` is not called by the fill and is not modelled.
- Decoding and encoding are parameters. `Source` gives each encoding's decoding of the bytes; `canEncode` says whether a text encodes. The byte-level codecs are not modelled.
- Copy failures, permission errors and other exceptions are not modelled. Only the failure to read the template (`NotWritten`) and the failure to encode (`Emptied`) are.
- Replacer.BatchProcessEmails: the timestamp is one argument for the whole batch. The code reads the clock once per row; with one value, every row of a template still gets its own name because the row number differs.
- Replacer.RowReplacements: a row's pairs exclude an empty old text, as the code's `and value` test does. `str.replace` with an empty pattern is never reached.
- In `email/email.py`, the folders are fixed Windows paths. They are parameters here, and paths use the POSIX separator.
- In `email_processor.py`, the rows of the attachment sheet selected by `mail_ID` are passed in as given. The pandas selection, NaN detection and `str()` of numbers are not modelled; a cell is empty or holds its text.
- In `email_processor.py`, calling `fill_pdf_form`, the temporary files, and copying headers and non-attachment parts are not modelled.
- Attachments.MimeForRoundTrip: for an unknown extension the type is left to `mimetypes.guess_type`, which is not modelled.
- Attachments.AddAttachments: base64 encoding, reading the files and assembling the MIME message are not modelled. PDF-to-image rendering is the `convert` parameter.
- `backend/server.py` and the coordinate-generation script are not part of this model.

## Findings

| source | as written | input that shows it | evidently intended | confidence | as-written member | corrected member |
|---|---|---|---|---|---|---|
| email_processor.py:310-335 | When converting a PDF to the original image format fails, the file is renamed to `<stem>.pdf` and the PDF itself is attached. The MIME type is still chosen from the original image extension. | Original attachment `scan.jpg`, conversion available, form `form.pdf`, conversion raises: the part is named `scan.pdf` with the PDF's bytes but declared `image/jpeg`. | The type should follow the name the part is sent under: `application/pdf` for the `.pdf` fallback. | not executed | Attachments.FailedConversionMislabelled | Attachments.AttachmentPartCorrectsOnlyFailures |
