# MPS job form: a Dafny model of its decision layer

The MPS job form is a browser form that collects the parameters of a print-automation
job and produces one JSON settings file for the downstream engine. This project models
the logic that makes the decisions, and proves what it promises:

- **the schema composer** (`formSchema`): which fields are shown and which are required,
  depending on whether sample output is requested;
- **the validator** (`validate`): the "`Default` or a positive integer" rule on the
  record-range fields. The sample range is checked only when samples are requested.
  Messages accumulate in the renderer's error object, which is updated in place;
- **the template resolver**: a template name is a preset when the flattened catalog
  lists it. A preset lives in the shared presets folder; any other name lives in the
  job folder. The preview thumbnails use the same preset test;
- **the config assembler** (`handleSubmit`): the fixed-shape settings document with its
  literal defaults, the user-derived fields, the 0-or-1-entry `Samples` group and the
  download file name;
- **the imposition template selector** (`ImpositionTemplateWidget`): options built from
  the catalog, the option shown for a value, and commits of typed text on Enter/Tab
  (trimmed, with `.pdf` added when missing);
- **the file-name widget** (`FileNameWithExtensionWidget`): escaping the extension and
  removing it, case-insensitively, from the end of the typed text. The form does not use
  this widget at present: its import in App.js is commented out (App.js:5).

Files: `wrappers.dfy` (Option), `text.dfy` (the JavaScript string operations used),
`form.dfy` (form values and field names), `schema.dfy`, `validation.dfy`,
`template_paths.dfy`, `config_output.dfy` (App.js), `template_widget.dfy`
(ImpositionTemplateWidget.jsx), `extension_widget.dfy` (FileNameWithExtensionWidget.js).

Modelling conventions:
- Form values are a `map<string, string>`. A field never filled in is absent, which is
  JavaScript's `undefined`.
- Interpolating `undefined` into a template literal gives the text `"undefined"`
  (`Text.Interpolate`).
- The catalog document is a sequence of (group label, file names) pairs, in document order.
- The fetches that load the catalog are parameters (`Option<Catalog>`, None for a failed
  fetch).
- `onChange` callbacks are modelled as return values.

Two behaviours of the code that are easy to miss:
- There is no special case for an empty or undefined template name. An undefined name
  gives `BASE_PATH + folder + "/undefined"` and `""` gives `BASE_PATH + folder + "/"`.
  `ResolveTemplatePath` does the same.
- `validate` checks every value that is defined and not `"Default"`, so `""` gets the
  message. `FailsRule` does the same.

## Model

| member | source | states |
|---|---|---|
| Text.ToLower | src/ImpositionTemplateWidget.jsx:57 | `toLowerCase` keeps the length and lower-cases each ASCII character |
| Text.StripTrailingCI | src/App.js:430 | `replace(/suffix$/i, "")` gives a prefix of the input: one suffix length shorter when the input ends with the suffix in any case, the input itself otherwise |
| Text.StripTrailingOnce | src/FileNameWithExtensionWidget.js:13 | stripping `stem + suffix` gives back exactly `stem`, so only one trailing occurrence is removed |
| Text.StripEmptySuffix | src/FileNameWithExtensionWidget.js:9-13 | an empty suffix leaves the input unchanged |
| Text.TrimStart | src/ImpositionTemplateWidget.jsx:56 | leading whitespace removed: the result is a suffix of the input, everything dropped is whitespace, and the result does not start with whitespace |
| Text.TrimEnd | src/ImpositionTemplateWidget.jsx:56 | trailing whitespace removed: the result is a prefix, everything dropped is whitespace, and the result does not end with whitespace |
| Text.Trim | src/ImpositionTemplateWidget.jsx:56 | `trim()`: the result is the input with whitespace cut from its two ends only (a window of the input with only whitespace before and after it); it neither starts nor ends with whitespace, and it is empty exactly when the input is all whitespace |
| Text.TrimOfTrimmed | src/ImpositionTemplateWidget.jsx:56 | a string with no whitespace at either end is its own trim |
| Text.TrimIdempotent | src/ImpositionTemplateWidget.jsx:56 | trimming twice is trimming once |
| Form.Get | src/App.js:211 | `formData[field]` is defined exactly when the field is present, and then holds its value |
| Schema.Dedup | src/App.js:164-169 | `[...new Set(list)]` has no repeated name and holds exactly the names of the list |
| Schema.Compose | src/App.js:159-193 | title and type are kept; a property is shown exactly when the base has it and it is not a sample field or samples are requested, and it keeps its definition; a name is required exactly when the base requires it and it is not a sample field, or, with samples requested, when the base requires it or it is a sample field |
| Schema.WithoutSampleFields | src/App.js:183-190 | the filtered required list holds exactly the names of the list that are not sample fields |
| Schema.DedupOfDistinct | src/App.js:164-169 | a list without repeats is unchanged by the Set round trip |
| Schema.DedupKeepsPrefix | src/App.js:164-169 | deduplicating `a + b` keeps deduplicated `a` in front, in order |
| Schema.DedupAppendPresent | src/App.js:164-169 | appending names that are already present changes nothing |
| Schema.WithoutSampleFieldsOfClean | src/App.js:183-190 | a list with no sample field passes the filter unchanged |
| Schema.ComposeRequested | src/App.js:159-171 | with `NeedsSampleOutput == "Yes"` the properties and title are those of the base; the required list has no repeats, holds the base names and the three sample names, and keeps a repeat-free base list in front |
| Schema.ComposeNotRequested | src/App.js:172-191 | for any other value, absent included, exactly the three sample properties are removed and every other property is unchanged; the required list is the base list without sample fields and holds no sample field |
| Schema.RequestedRequiredExtendsNotRequested | src/App.js:159-191 | the required names with samples are the required names without samples plus exactly the three sample fields |
| Schema.ComposeIdempotent | src/App.js:159-193 | composing the composed schema again with the same flag changes nothing |
| Schema.BaseSchemaComposedRequired | src/App.js:152-191 | for the form's base schema: with samples, required is the base list followed by the three sample fields; without, it is the base list |
| Schema.BaseSchemaComposedProperties | src/App.js:91-191 | for the form's base schema without samples, exactly seven fields are left |
| Validation.MatchesPositiveInt | src/App.js:208 | a string accepted by `^[1-9]\d*$` is a non-empty digit string without a leading zero |
| Validation.FailsRule | src/App.js:211-212 | a value gets the message exactly when it is defined, is not `"Default"`, and is not the decimal spelling of any positive integer |
| Validation.CheckField | src/App.js:211-214 | checking one field adds the message to that field's list exactly when its value fails the rule, and no other field changes |
| Validation.CheckFields | src/App.js:210-215 | the `forEach` over a list of fields changes no field outside the list |
| Validation.ValidatedErrors | src/App.js:207-227 | a field the call does not check (not a record field, and not a sample field with samples requested) keeps its entry |
| Validation.Decimal | src/App.js:208 | the decimal spelling of a number is a non-empty string of digits |
| Validation.DecimalMatches | src/App.js:208 | every positive integer, written in decimal, passes `^[1-9]\d*$` |
| Validation.MatchedIsDecimal | src/App.js:208 | every string passing `^[1-9]\d*$` is the decimal spelling of a positive integer |
| Validation.MatchesIffDecimal | src/App.js:208 | the pattern accepts exactly the decimal spellings of the positive integers |
| Validation.PatternExamples | src/App.js:208 | `"007"`, `"0"`, `""` and `"-1"` are rejected; `"1"` and `"42"` are accepted |
| Validation.CheckFieldsEffect | src/App.js:210-215 | a `forEach` over distinct fields adds the message once to each failing field and leaves every other entry as it was |
| Validation.ValidateEffect | src/App.js:207-227 | after `validate`, a field's error entry gains the message exactly when the field is checked on this call and its value fails the rule; otherwise it is unchanged |
| Validation.DefaultOrAbsentNeverFlagged | src/App.js:212 | `"Default"` and an undefined value never get an error |
| Validation.NumericFieldFlaggedIffNotPositiveInt | src/App.js:209-214 | a present non-`"Default"` record field gets the message exactly once when it fails the pattern, and no message otherwise |
| Validation.SampleRangeCheckedIffRequested | src/App.js:217-224 | the sample range is checked like the record fields when samples are requested and left untouched otherwise |
| Validation.OtherFieldsUntouched | src/App.js:207-227 | fields outside the five are never touched |
| Validation.LeadingZeroRejected | src/App.js:208-214 | `kStartRecord = "007"` gets the message; `"Default"` does not |
| Validation.ErrorSchema.constructor | src/App.js:207 | the error object starts with the given lists |
| Validation.ErrorSchema.AddError | src/App.js:213 | `addError` appends the message to that field's list and changes no other field |
| Validation.Validate | src/App.js:207-227 | `validate` updates the error object in place to the value given by `ValidatedErrors` and returns the same object |
| TemplatePaths.Flatten | src/App.js:77 | a name is in the flattened list exactly when some group of the catalog lists it |
| TemplatePaths.PresetList | src/App.js:73-85 | after a failed fetch the preset list is empty; after a successful one it holds exactly the names some group lists |
| TemplatePaths.RootsDiffer | src/App.js:8-9 | no path under the job root is under the presets root |
| TemplatePaths.ResolveTemplatePath | src/App.js:243-248 | the template path is under the presets root exactly for preset names, and is then the root plus the name; otherwise it is the job folder, a slash and the name |
| TemplatePaths.ResolvedAgainstCatalog | src/App.js:77-78 | a name resolves under the presets root exactly when some group of the catalog lists it |
| TemplatePaths.NoCatalogMeansJobLocal | src/App.js:81-84 | with no catalog every name resolves inside the job folder |
| TemplatePaths.ResolutionScenarios | src/App.js:243-248 | a catalog name gives `PRESET_PATH + name`; an unknown name gives `BASE_PATH + "JobX/Custom.pdf"` |
| TemplatePaths.ThumbnailSource | src/App.js:428-431 | a preview `src` starts with `/presets/` exactly when the template is in the preset list, and it always ends with the side number and `.png` |
| TemplatePaths.ThumbnailSources | src/App.js:421-449 | previews are shown exactly when the template value is truthy |
| TemplatePaths.ThumbnailFollowsResolver | src/App.js:428-431 | for any template name, a preview comes from `/presets/` exactly when the template path is under the presets root, and it is that folder followed by the name with one trailing `.pdf` (any case) removed, the side number and `.png` |
| TemplatePaths.ThumbnailOfPdfName | src/App.js:428-431 | for a name that ends in `.pdf` in any case, the preview names exactly the part before that ending |
| ConfigOutput.Assemble | src/App.js:250-361 | the document has the fixed identifiers and one settings object per group; `Samples` has one entry when samples are requested and none otherwise |
| ConfigOutput.DownloadFileName | src/App.js:369 | the download name starts with the interpolated job folder name, ends with `_MPS_Settings.json`, and is exactly as long as the two together, so it is the folder name followed by that suffix |
| ConfigOutput.Lookup | src/App.js:250-361 | a value read back for a key comes from a setting with that key; a key no setting has reads back as undefined |
| ConfigOutput.LookupFirst | src/App.js:250-361 | reading a key back from a settings object gives the value at its first occurrence |
| ConfigOutput.RecordRangeRecovered | src/App.js:284-286 | `kPageSetsPerJob`, `kStartRecord` and `kEndRecord` read back as the form holds them |
| ConfigOutput.PackagerNameRecovered | src/App.js:317-327 | the packager settings read back the package name they were built with |
| ConfigOutput.ImposerFieldsRecovered | src/App.js:328-342 | the imposer settings read back the template path, input path and impose type they were built with |
| ConfigOutput.JobFieldsRecovered | src/App.js:243-248 | the package name reads back as folder plus `-Pkg`, the input path as `BASE_PATH` plus folder, the template path as resolved, and the impose type as the form holds it |
| ConfigOutput.SamplesRecovered | src/App.js:350-360 | the sample entry reads back `"Yes"` and the three sample fields as the form holds them |
| ConfigOutput.LookupSameExcept | src/App.js:250-361 | two settings objects that differ only at some keys read back the same at every other key |
| ConfigOutput.VdpMergeVariesOnlyInRange | src/App.js:265-289 | the merge settings differ between submissions only in the record-range keys |
| ConfigOutput.PackagerVariesOnlyInName | src/App.js:317-327 | the packager settings differ between submissions only in the package name |
| ConfigOutput.PdfImposerVariesOnlyInJobFields | src/App.js:328-342 | the imposer settings differ between submissions only in the template path, input path and impose type |
| ConfigOutput.LiteralDefaultsFixed | src/App.js:250-349 | every literal default reads back the same whatever the form holds |
| TemplateSelect.ToGroupedOptions | src/ImpositionTemplateWidget.jsx:14-20 | group order, labels and sizes are kept, and each option's value and label are the file name |
| TemplateSelect.OfferedIffPreset | src/ImpositionTemplateWidget.jsx:14-20 | the widget offers exactly the names App.js treats as presets |
| TemplateSelect.FindOption | src/ImpositionTemplateWidget.jsx:32 | `find` gives None exactly when no option has the value, and otherwise the first option that does |
| TemplateSelect.SearchGroupsResult | src/ImpositionTemplateWidget.jsx:31-35 | when some group offers the value, the search returns the first such option (groups in order, then options in order); otherwise it returns the custom option `{val, val}` |
| TemplateSelect.SearchGroups | src/ImpositionTemplateWidget.jsx:31-35 | the option found, from a group or the custom one, always carries the value it was looked up by |
| TemplateSelect.SelectedOption | src/ImpositionTemplateWidget.jsx:29-36 | an option is shown exactly when the value is truthy, and it carries that value |
| TemplateSelect.SelectionRoundTrip | src/ImpositionTemplateWidget.jsx:29-46 | choosing the shown option again emits the current value; with no value shown it emits `""` |
| TemplateSelect.CatalogOptionIsValue | src/ImpositionTemplateWidget.jsx:14-35 | with options built from the catalog, the option shown for a value is always `{value, value}` |
| TemplateSelect.NormalizeTyped | src/ImpositionTemplateWidget.jsx:56-59 | whitespace-only text commits `""`; otherwise the trimmed text is committed, with `.pdf` added exactly when it does not end so in any case; every non-empty commit ends with `.pdf` |
| TemplateSelect.NormalizedIsTrimmed | src/ImpositionTemplateWidget.jsx:56-59 | a committed value has no whitespace at either end |
| TemplateSelect.NormalizeTypedIdempotent | src/ImpositionTemplateWidget.jsx:56-59 | committing a committed value again changes nothing |
| TemplateSelect.NormalizeAppendsPdf | src/ImpositionTemplateWidget.jsx:56-58 | text with no whitespace at its ends and no `.pdf` ending, such as `"Custom"`, commits with `.pdf` added |
| TemplateSelect.NormalizeKeepsPdfEnding | src/ImpositionTemplateWidget.jsx:56-57 | text with no whitespace at its ends that already ends in `.pdf` in any case, such as `"Sheet.PDF"`, commits unchanged |
| TemplateSelect.NormalizeWhitespaceOnly | src/ImpositionTemplateWidget.jsx:56-57 | whitespace-only text commits `""` |
| TemplateSelect.ImpositionTemplateWidget.constructor | src/ImpositionTemplateWidget.jsx:5-6 | the widget starts with an empty buffer and no options |
| TemplateSelect.ImpositionTemplateWidget.LoadTemplates | src/ImpositionTemplateWidget.jsx:9-26 | a successful fetch installs the grouped options; a failed one leaves them as they were; the buffer is untouched |
| TemplateSelect.ImpositionTemplateWidget.HandleInputChange | src/ImpositionTemplateWidget.jsx:48-50 | the buffer becomes the new text |
| TemplateSelect.ImpositionTemplateWidget.FindSelectedOption | src/ImpositionTemplateWidget.jsx:29-36 | the loop with its early return computes exactly `SelectedOption`: nothing for an empty or undefined value, else the first matching option or the custom one |
| TemplateSelect.ImpositionTemplateWidget.HandleKeyDown | src/ImpositionTemplateWidget.jsx:52-63 | with an empty buffer or another key nothing is emitted and nothing changes; on Enter/Tab with text typed, the normalised text is emitted and the buffer is cleared |
| ExtensionWidget.EscapeRegExp | src/FileNameWithExtensionWidget.js:12 | escaping keeps every character and adds at most one backslash before each, so text without syntax characters is unchanged |
| ExtensionWidget.EscapedIsLiteral | src/FileNameWithExtensionWidget.js:12 | the escaped extension, read as a pattern, stands for exactly the extension, so its metacharacters match literally |
| ExtensionWidget.HandleChange | src/FileNameWithExtensionWidget.js:9-14 | the value emitted is the typed text with the extension, matched literally and case-insensitively, removed from its end |
| ExtensionWidget.HandleChangeShape | src/FileNameWithExtensionWidget.js:13-14 | the emitted value is a prefix of the input: one extension shorter when the input ends with it, the input itself otherwise or when there is no extension |
| ExtensionWidget.HandleChangeStripsOnce | src/FileNameWithExtensionWidget.js:13 | a stem followed by the extension gives back exactly the stem, even when the stem itself ends with the extension |
| ExtensionWidget.HandleChangeExamples | src/FileNameWithExtensionWidget.js:9-13 | `".pdf"` does not strip `"xpdf"`; `"a.pdf.pdf"` becomes `"a.pdf"`; a missing extension strips nothing |

## Left out

- The login gate (a hard-coded credential check) and all rendering: JSX, `useState`/`useEffect` plumbing, the `@rjsf/core` renderer with its required-field enforcement, the `uiSchema`, and the `react-select` component internals, including its disabled and "Loading templates..." states.
- Fetching `templates.json` in App.js and in the widget: network I/O. The settled result is a parameter (`Option<Catalog>`). The `console.error` logging on failure is not modelled. `isLoadingPresets` is not modelled.
- Serialising the document with `JSON.stringify`, and the Blob/URL/anchor download. The document is a Dafny value, and reading a key back (`Lookup`) stands for parsing it again.
- `getScaledStyle`: floating-point image scaling.
- The render-time `fullPath` (`BASE_PATH + (JobFolderName || "")`). It is computed but never used.
- `event.preventDefault()` in `handleKeyDown`, and how it interacts with `react-select`. It stops the select's own Enter/Tab handling. Without it, `CreatableSelect` would also select or create the focused option and call `handleChange`, which would emit the raw typed text after the normalised value. The model takes `handleKeyDown` on its own and does not model the select's key handling.
- Text.ToLower: folds ASCII letters only, not the full Unicode `toLowerCase`. The regular-expression `i` flag is likewise modelled with ASCII folding.
- Text.Trim: uses the fixed ECMAScript whitespace and line-terminator set, written out as code points.
- ExtensionWidget.HandleChange: regular expressions in general are not modelled. `LiteralOf` reads only patterns made of ordinary characters and backslash-escaped syntax characters, which is what the escaping step produces.
- Validation.ErrorSchema.AddError: appending to a field that has no list yet creates one. In the renderer the error object has an entry for every field in the form data, and `validate` only calls `addError` on fields present in the form data.
- JavaScript object key order is kept as sequence order in the document. The schema's `properties` is a map, so its key order is not modelled.
- Non-string form values are not modelled: every value is a string, as the schema declares.
