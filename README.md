# Fit-File-Faker in Dafny

Fit-File-Faker rewrites FIT activity files recorded by virtual-cycling programs
(TrainingPeaks Virtual, Zwift, MyWhoosh, …) so that they look as if a Garmin Edge 830
had recorded them, and uploads them to Garmin Connect. This project models the
core of that program and proves properties of the model:

- **FitEditor.dfy** — the record rewrite pass of `FitEditor.edit_fit`.
  - Activity messages are deferred to the end.
  - FileId and FileCreator records are dropped, and each FileId message is replaced
    by a rebuilt FileId and a synthetic FileCreator (software 975, hardware 255).
  - DeviceInfo messages of device type 0 are dropped and later device indices are
    renumbered.
  - The identity of virtual devices is overwritten.
  - Also modelled: the manufacturer rules, `rewrite_file_id_message`,
    `strip_unknown_fields` and the log filter.
  - The builder is a class whose message list is only ever appended to.
- **FieldLength.dfy** — the lenient field-length resolver and the patch that
  installs it. The patch is a class whose installed resolver the method overwrites.
- **FitCrc.dfy** — the FIT CRC-16 step `fit_crc_get16`, its docstring fold over a
  byte string, and the duplicate copy in the app module. The step is proved equal to
  the bitwise CRC-16/ARC update (reflected polynomial 0xA001). The file-level check
  is proved: a CRC followed by its own low and high byte folds to 0.
- **Config.dfy** — `ConfigManager.is_valid` and the key loop of
  `build_config_file`.
  - The loop covers key selection, the accept/re-prompt loop, Ctrl-C, save gating
    and password masking.
  - Prompt answers are an input sequence. Running out of answers stands for the
    user pressing Ctrl-C.
  - Also modelled: the user-folder filter of `get_fitfiles_path` and the precedence
    rules of `get_tpv_folder`.
- **App.dfy** — the candidate filtering and uploaded-list bookkeeping of
  `upload_all`, plus the version check, argument checks and dispatch of `run`.
- **FirmwareCsv.dfy** — the row update of `docs/reference/update_firmware_csv.py`.
- **Common.dfy** — Python's string and list operations the model needs:
  - `str.replace`, `split` and `join`, with the round trip between them;
  - `endswith` and `strip`;
  - list comprehension filters and maps;
  - `Path.stem`.

File system, prompts, JSON, the clock, the platform and the network are parameters
of the operations that use them.

## Model

| member | source | states |
|---|---|---|
| FieldLength.ElementSize | fit_file_faker/utils.py:25-27 | a base type's element size is 1, 2, 4 or 8 bytes |
| FieldLength.LenientLength | fit_file_faker/utils.py:14-34 | for STRING/BYTE the length is 0 exactly when the size is 0 and at most 1; for other types r·e ≤ size < (r+1)·e, so r is the floor of size / e |
| FieldLength.LenientLengthIsFloor | fit_file_faker/utils.py:25-34 | any n with n·e ≤ size < (n+1)·e is the resolved length, for every base type other than STRING/BYTE |
| FieldLength.LenientLengthExact | fit_file_faker/utils.py:25-34 | on a size that is an exact multiple of the element size, the length times the element size is the size |
| FieldLength.StrictLength | fit_file_faker/utils.py:14-34 | fit_tool's own resolver (the one the patch replaces) succeeds on a non-string type exactly when the size is a multiple of the element size |
| FieldLength.LenientExtendsStrict | fit_file_faker/utils.py:14-34 | wherever the strict resolver answers, the lenient one gives the same length, and it also answers where the strict one rejects the size |
| FieldLength.Field.constructor | fit_file_faker/utils.py:37-46 | before the patch, the installed resolver is fit_tool's strict one |
| FieldLength.Field.GetLengthFromSize | fit_file_faker/utils.py:37-46 | the field resolves sizes with whichever resolver is installed |
| FieldLength.Field.ApplyFitToolPatch | fit_file_faker/utils.py:37-46 | after the patch (once or any number of times) the lenient resolver is installed and every size of every type resolves |
| FitCrc.CrcTable | fit_file_faker/utils.py:74-91 | every nibble-table entry fits in 16 bits |
| FitCrc.FitCrcGet16 | fit_file_faker/utils.py:93-103 | the step always returns a value in [0, 0xFFFF] |
| FitCrc.FitCrcGet16LowBits | fit_file_faker/utils.py:93-103 | the step depends only on the low 16 bits of the register and the low 8 bits of the byte |
| FitCrc.CalculateFitCrc | fit_file_faker/utils.py:65-71 | the docstring's loop computes the fold of the step over the data, a 16-bit value |
| FitCrc.CrcOfZeros | fit_file_faker/utils.py:65-75 | folding from 0 over zero bytes gives 0 |
| FitCrc.FitCrcGet16Residue | fit_file_faker/utils.py:93-103 | feeding a register's own low byte then high byte brings it to 0 |
| FitCrc.CrcWithTrailerIsZero | fit_file_faker/utils.py:65-103 | the CRC of data followed by that CRC's low and high byte is 0: the FIT file-level check |
| FitCrc.CrcTableIsNibbleTable | fit_file_faker/utils.py:74-91 | each of the 16 entries is four shifts of the reflected-0xA001 update applied to its index |
| FitCrc.NibbleStepIsArcShifts4 | fit_file_faker/utils.py:93-97 | one table step on a nibble equals four bitwise CRC-16/ARC shifts of the register XOR the nibble |
| FitCrc.FitCrcGet16IsArcUpdate | fit_file_faker/utils.py:74-103 | the step equals eight iterations of the bitwise reflected-0xA001 update applied to crc XOR byte |
| FitCrc.CrcIsArcCrc | fit_file_faker/utils.py:65-71 | the fold of the table step is the bitwise CRC-16/ARC of the data |
| FitCrc.AppCrcTableAgrees | fit_file_faker/app.py:374-377 | the app module's copy of the table equals the utils table entry by entry |
| FitCrc.AppNibbleStepAgrees | fit_file_faker/app.py:379-387 | the app copy's nibble step equals the utils nibble step |
| FitCrc.AppFitCrcGet16Agrees | fit_file_faker/app.py:349-389 | the duplicate `fit_crc_get16` agrees with the utils one on every input |
| FitEditor.ShouldModifyRules | fit_file_faker/fit_editor.py:98-125 | both rules are false for None; the FileId rule holds exactly for the listed codes including 331; the DeviceInfo rule is that set plus 0 |
| FitEditor.RewriteFileId | fit_file_faker/fit_editor.py:67-96 | defined only for a FileId with a creation time (the source divides it by 1000 first and raises TypeError on None); manufacturer is GARMIN and product EDGE_830 exactly when the rule fires, neither is set otherwise; serial number copied; type copied iff truthy; product name never copied; a non-zero creation time kept, 0 replaced by `now` |
| FitEditor.RewriteFileIdTwice | fit_file_faker/fit_editor.py:67-96 | rewriting a rewritten FileId clears its manufacturer and product, because GARMIN is outside the rule; with a non-zero creation time nothing else changes |
| FitEditor.Renumber | fit_file_faker/fit_editor.py:243-247 | after a skipped type-0 device, a present device index drops by exactly 1; nothing else changes |
| FitEditor.ModifyDeviceInfo | fit_file_faker/fit_editor.py:249-260 | outside the rule the device is unchanged; inside it, truthy garmin product and product become EDGE_830, a truthy manufacturer becomes GARMIN, product name becomes "", and index and type stay |
| FitEditor.ModifyDeviceInfoIdempotent | fit_file_faker/fit_editor.py:249-260 | modifying a device twice is the same as once |
| FitEditor.StripMessage | fit_file_faker/fit_editor.py:139-161 | a message's definition is cleared exactly when it names a field id the message does not carry; otherwise the message is unchanged |
| FitEditor.StripMessageProperties | fit_file_faker/fit_editor.py:139-161 | stripping changes a message iff it has unknown fields, keeps its content and fields, leaves definition-less messages alone and is idempotent |
| FitEditor.StripUnknownFields | fit_file_faker/fit_editor.py:127-161 | the loop yields every record stripped, in the same order and count |
| FitEditor.StripAllIdempotent | fit_file_faker/fit_editor.py:127-161 | after the loop no record has unknown fields, so a second pass changes nothing |
| FitEditor.Builder.constructor | fit_file_faker/fit_editor.py:197 | a new builder holds no messages |
| FitEditor.Builder.Add | fit_file_faker/fit_editor.py:220-262 | adding appends the message and changes nothing else |
| FitEditor.ProcessRecord | fit_file_faker/fit_editor.py:204-262 | one iteration raises exactly on a FileId without a creation time, leaving the builder alone; otherwise it appends to the builder exactly what the record is replaced by, defers it iff it is Activity data, and sets the skip flag iff a type-0 device is seen |
| FitEditor.RewriteRecords | fit_file_faker/fit_editor.py:197-268 | the pass fails (TypeError) exactly when some FileId lacks a creation time; otherwise the record loop followed by the deferred Activity messages produces the specified output |
| FitEditor.AddAll | fit_file_faker/fit_editor.py:264-268 | the deferred messages are appended to the builder in order, after everything it already holds |
| FitEditor.PassActivities | fit_file_faker/fit_editor.py:207-210 | the deferred messages are exactly the Activity messages of the input, in order, and none reaches the builder during the loop |
| FitEditor.ActivitiesLast | fit_file_faker/fit_editor.py:207-210 | in the output every Activity message follows every other message, and the Activity messages keep their input order |
| FitEditor.UntouchedKept | fit_file_faker/fit_editor.py:203-262 | the messages the pass does not handle, including DeviceInfo definitions and any other record with the DeviceInfo global id that is not DeviceInfo data, come out unchanged, in their input order |
| FitEditor.FileIdRecordsReplaced | fit_file_faker/fit_editor.py:213-233 | no FileId or FileCreator record of the input survives; each FileId message becomes its definition, the rebuilt FileId, a FileCreator definition and the FileCreator 975/255 |
| FitEditor.FileIdRecordsInOutput | fit_file_faker/fit_editor.py:213-233 | the same holds of the whole output, including the deferred messages |
| FitEditor.SkippedFlag | fit_file_faker/fit_editor.py:239-242 | the skip flag is set exactly when the input has a DeviceInfo of type 0 |
| FitEditor.DevicesRewritten | fit_file_faker/fit_editor.py:236-260 | the DeviceInfo messages of the output are the kept devices in order, each renumbered after the first type-0 device and then modified |
| FitEditor.DevicesInOutput | fit_file_faker/fit_editor.py:236-260 | no DeviceInfo of type 0 is in the output, and its devices are those above |
| FitEditor.DefaultOutput | fit_file_faker/fit_editor.py:194-195 | the default output is `<stem>_modified.fit` in the input's directory |
| FitEditor.EditFit | fit_file_faker/fit_editor.py:163-281 | an unreadable file gives None; a FileId without a creation time raises TypeError, dry run or not; otherwise the given or default output path is returned, also in dry run, and outside dry run the rewrite of the stripped records is written |
| FitEditor.StripKeepsCreationTime | fit_file_faker/fit_editor.py:139-161 | stripping a definition never adds or removes a missing FileId creation time, so the strip does not change whether the pass raises |
| FitEditor.LogFilterDrops | fit_file_faker/fit_editor.py:28-30 | a log record is dropped exactly when its message contains the "actual" marker |
| Config.Set | fit_file_faker/config.py:115 | setting a key changes that key and no other |
| Config.PasswordPromptMasked | fit_file_faker/config.py:94-97 | the password prompt shows the mask in place of every occurrence of the existing password |
| Config.Ask | fit_file_faker/config.py:113-125 | a non-empty answer is taken at once, and an empty one keeps a truthy existing value at once, both consuming exactly that answer; otherwise (an empty answer and no value) the user is asked again; the loop gives up only when the answers run out |
| Config.KeyStepEffect | fit_file_faker/config.py:83-125 | one key is prompted for only when it is not excluded and is None or overwriting is on; a key not prompted for keeps its value |
| Config.BuildCompletes | fit_file_faker/config.py:83-125 | unless canceled, every key handled so far that is not excluded has a value |
| Config.BuildKeepsUnprompted | fit_file_faker/config.py:83-86 | keys that are excluded, or that are set while overwriting is off, keep their value |
| Config.BuildCanceledStays | fit_file_faker/config.py:123-125 | once the user cancels, no later key changes anything |
| Config.BuildConfig | fit_file_faker/config.py:83-125 | after the whole loop: not canceled implies complete; unprompted keys unchanged; every changed key holds a truthy answer |
| Config.PromptFor | fit_file_faker/config.py:113-125 | the while loop shows the prompt once per answer it reads and cancels exactly when the accept rule gives up; otherwise it returns the accepted value |
| Config.PromptKey | fit_file_faker/config.py:83-125 | one key of the loop computes the specified step |
| Config.ConfigManager.constructor | fit_file_faker/config.py:36-49 | a loaded config is both the current and the saved config |
| Config.ConfigManager.IsValid | fit_file_faker/config.py:56-71 | true iff every non-excluded key has a value; None for the excluded keys behaves like [] |
| Config.ConfigManager.BuildConfigFile | fit_file_faker/config.py:73-137 | exit 1 iff canceled; otherwise the config is complete; it is saved only when rewrite is asked; the logged dump has every occurrence of the password replaced whenever the password is not None, as the code does |
| Config.EmptyPasswordGarblesDump | fit_file_faker/config.py:130-137 | as written, an empty password inserts the mask between every character of the logged dump |
| Config.MaskedDumpMasks | fit_file_faker/config.py:130-137 | with a truthy password, the dump is split at every occurrence and rejoined with the mask; otherwise it is shown as it is |
| Config.LoggedDumpAgrees | fit_file_faker/config.py:130-137 | the dump as logged and the intended masking agree on every password except the empty one |
| Config.UserFolders | fit_file_faker/config.py:155 | the user folders are exactly the listed names of 16 word characters |
| Config.GetFitfilesPath | fit_file_faker/config.py:145-183 | no user folder exits with 1; a single one answered "no" exits with 1, any other answer (a canceled one too) gives `<TPV>/<folder>/FITFiles`; among several, the selected folder gives `<TPV>/<selection>/FITFiles` and a canceled selection raises TypeError; a selection among the offered folders always yields a listed user folder |
| Config.GetTpvFolder | fit_file_faker/config.py:186-204 | a non-empty TPV_DATA_PATH wins; else darwin gives ~/TPVirtual, win32 ~/Documents/TPVirtual, any other platform the user's answer |
| Config.TpvFolderAnswerLast | fit_file_faker/config.py:186-204 | the answer matters only when the variable is empty and the platform is neither darwin nor win32 |
| App.RelativeNameEatsFileName | fit_file_faker/app.py:145 | as written, the directory string is removed from inside the file name too |
| App.RelativeNameOfGlobbed | fit_file_faker/app.py:140-148 | the corrected relative name of a file globbed in a directory is its name |
| App.CandidatesMembers | fit_file_faker/app.py:142-148 | a name is a candidate iff it is one of the names the code computes for the globbed files (every occurrence of the directory removed, separators stripped), does not end with `_modified.fit` and is not yet uploaded |
| App.CandidatesAsWritten | fit_file_faker/app.py:140-148 | in directory `/r` the file `/r/r.fit` becomes the candidate `.fit`, as the code computes it |
| App.CandidatesAppend | fit_file_faker/app.py:142-148 | the candidates keep glob order |
| App.DefaultOutputNotCandidate | fit_file_faker/app.py:142-148 | an output of `edit_fit` under its default name is never a candidate |
| App.RecordedLeavesNone | fit_file_faker/app.py:156-170 | once the candidates are recorded, none is a candidate again |
| App.Recorded | fit_file_faker/app.py:156-170 | the new uploaded list is the old one followed by the candidates |
| App.ProcessCandidates | fit_file_faker/app.py:156-170 | every candidate is recorded in order whether or not editing produced output; none is edited in preinitialize mode; only produced outputs are uploaded |
| App.UploadedFile.constructor | fit_file_faker/app.py:129-138 | the uploaded-list file starts with the given contents or missing |
| App.UploadedFile.UploadAll | fit_file_faker/app.py:128-174 | a missing list is created empty; the candidates are the names as the code computes them; with no candidates nothing is edited or rewritten; otherwise every candidate is edited unless preinitializing, produced outputs are uploaded, and the list is written back with the candidates appended only outside dry run |
| App.Dispatch | fit_file_faker/app.py:329-347 | the actions are those of the dispatch rule: a file is edited and then uploaded iff upload/upload-all is set and the edit produced output; a directory goes to upload_all, else monitor, else every `*.fit` is edited in glob order |
| App.Run | fit_file_faker/app.py:195-347 | an interpreter below 3.12.0 raises OSError; initial setup exits 1 exactly when the prompts are canceled and otherwise 0 with a complete saved config; bad arguments exit 1; with good arguments, a run whose config is complete or completed by the prompts targets the given path or the configured folder, exits 1 on a missing path and otherwise finishes with exactly the dispatched actions; a complete config is left unchanged; canceled prompts exit 1 |
| FirmwareCsv.ShowDecimal | docs/reference/update_firmware_csv.py:55 | a written version number is a non-empty string of digits |
| FirmwareCsv.ParseShowDecimal | docs/reference/update_firmware_csv.py:45-55 | reading a written number back gives the number |
| FirmwareCsv.ProductOf | docs/reference/update_firmware_csv.py:43-47 | a row is eligible iff it has at least 2 columns, its stripped second column is all digits and that id is in the firmware table |
| FirmwareCsv.Pad | docs/reference/update_firmware_csv.py:51-52 | padding only appends empty strings, up to the requested length |
| FirmwareCsv.UpdatedRow | docs/reference/update_firmware_csv.py:43-56 | an ineligible row is unchanged; an eligible row has at least 5 columns, the version in column 3 and the date in column 4, and its other columns kept or "" |
| FirmwareCsv.UpdatedRowIdempotent | docs/reference/update_firmware_csv.py:43-56 | updating a row twice is the same as once |
| FirmwareCsv.UpdatedVersionReadsBack | docs/reference/update_firmware_csv.py:53-55 | the written version reads back as the product's version |
| FirmwareCsv.UpdateRow | docs/reference/update_firmware_csv.py:43-56 | the in-place padding loop and column writes compute the row update |
| FirmwareCsv.UpdateRows | docs/reference/update_firmware_csv.py:39-60 | the output has the input's rows, in order and count, each one updated |
| Common.SplitJoin | fit_file_faker/config.py:97 | joining the pieces of a split with the separator gives back the string |
| Common.ReplaceIsSplitJoin | fit_file_faker/config.py:97 | `str.replace` is split-then-join |
| Common.ReplaceEveryOccurrence | fit_file_faker/config.py:97 | after replacing a non-empty string, no piece between the inserted copies contains it |
| Common.ReplaceAbsent | fit_file_faker/app.py:145 | replacing a string that occurs nowhere leaves the text unchanged |

## Left out

- The internals of fit_tool are not part of this model: parsing, `FitFileBuilder.build`, `auto_define`, `DefinitionMessage.from_data_message`, `to_file`, and the real `Field`/`BaseType` classes. A parsed file is a sequence of message values. A definition is its global id plus field ids. The builder is an append-only list.
- FieldLength.StrictLength: fit_tool's own resolver is not part of this model; a resolver that rejects non-multiples stands in for it.
- FitEditor.RewriteFileId: `now` is a parameter. The float conversion of `datetime.now()` and the logged ISO date are left out. `get_date_from_fit` is not modelled, because its only output is a `datetime`. A FileId without a creation time makes `edit_fit` raise TypeError (fit_editor.py:73); the model reports that outcome but not the exception object.
- App.UploadedFile.UploadAll: the edit is the parameter `editProduces`. An exception raised by `edit_fit` inside the loop, which would end `upload_all` before the list is written back, is not modelled.
- FitEditor: the raw field list of a built message is not modelled. A rebuilt message carries only the values it is given.
- Records that the source updates in place (DeviceInfo fields, cleared definitions) are replaced by updated values. Aliasing between the parsed file and the builder is not captured.
- Logging (`print_message`, logger setup, the `--verbose` flag) is left out because it is diagnostics only.
- `upload` and Garmin authentication through garth are left out because they are network I/O. An upload is an `Action` value that `run` or `upload_all` returns.
- `monitor` and `NewFileEventHandler` are left out because they are watchdog threads and sleeping. `run` returns a `MonitorDir` action instead.
- These are parameters of the operations, not behaviour:
  - questionary prompts, as a sequence of answers;
  - JSON reads and writes, with `json.dumps` as a function parameter;
  - environment variables, `sys.platform` and `Path.home()`;
  - `os.listdir`, `glob`, `Path.exists`/`is_file`/`is_dir` and `Path.absolute`.
- Config.Ask: a questionary prompt that returns None (Ctrl-C) is modelled as the answer sequence running out. The keys are handled in the fixed order of `config_keys`.
- Config.GetTpvFolder: the case where the prompt returns None is not modelled; the answer is a string.
- Config: answering the `fitfiles_path` key runs `get_fitfiles_path` (config.py:104-111). The key loop takes its result from the answer sequence. `GetFitfilesPath` is modelled on its own, with the confirm and selection prompts as inputs.
- Config.IsWordChar, FirmwareCsv.IsSpace and FirmwareCsv.IsDigit: Python's Unicode `\w`, `str.strip()` and `str.isdigit()` are modelled on ASCII.
- Paths use "/" as the separator. Windows separators and `Path` normalisation are not modelled, apart from the `\` that `upload_all` strips.
- FitCrc: the register and byte are 32-bit bit-vectors. Python's unbounded integers beyond 32 bits are not modelled; the step only reads their low 16 and 8 bits.
- App.Run: the `EnvironmentError` for an unset fitfiles path (app.py:319-320) cannot happen after the config check, which requires that key. The model asserts it instead of raising.
- FirmwareCsv: reading and writing the CSV file and the progress messages are not modelled. Rows are already-parsed fields.
- App.Run: editing, uploading and monitoring are returned as actions, not performed. An exception raised while one of them runs is not part of the outcome.
- `run_tests.py` is not modelled because it only runs pytest.

## Findings

| source | as written | input that shows it | evidently intended | confidence | as-written member | corrected member |
|---|---|---|---|---|---|---|
| fit_file_faker/config.py:130-137 | the logged dump replaces `str(password)` whenever the password is not None, including the empty string | password `""` with dump `{}` logs `<**hidden**>{<**hidden**>}<**hidden**>` | mask only a non-empty password | medium, not executed | Config.EmptyPasswordGarblesDump | Config.MaskedDumpMasks |
| fit_file_faker/app.py:145 | `str(i).replace(str(dir), "")` removes every occurrence of the directory string, not only the leading one | directory `/r`, file `/r/r.fit` gives `.fit` instead of `r.fit` | remove only the leading directory | medium, not executed | App.RelativeNameEatsFileName | App.RelativeNameOfGlobbed |

The operations follow the code as written: `App.Candidates` uses `App.RelativeNameAsWritten`, and `Config.ConfigManager.BuildConfigFile` logs `Config.LoggedDumpAsWritten`. The corrected members state what each line evidently meant. `Config.LoggedDumpAgrees` shows that the two agree on every password except the empty one.
