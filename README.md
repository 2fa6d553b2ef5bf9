# Nexus Mod Manager client core, modelled in Dafny

This project models three parts of the Nexus Mod Manager client and proves what they promise:

- **The mod installer.** `ModInstaller.RunTasks` installs one mod inside a transaction:
  - it checks that the mod file exists;
  - it prepares the mod (the read-only transaction);
  - it registers the mod with the install log;
  - it runs the install through `RunScript`.

  `RunScript` picks one of three routes:
  - a basic install of every file;
  - a basic install replayed from a scripted-install log (`CheckScriptedModLog`, `LoadXMLModFilesToInstall`);
  - the mod's own install script.

  It then finalizes the installers. On success, `RunTasks` stamps the install date, commits and saves the activation list. It reports a success message, "not activated", or a failure message composed from the exception it caught. Three infrastructure exceptions are rethrown. The read-only transaction always ends.
- **Game-mode selection at start-up.** `GameModeSelector.SelectGameMode` looks at the ids in this order:
  1. a requested id;
  2. a remembered id;
  3. the selection dialog.

  It checks the result against the installed and the supported game modes. `GameModeSelectorViewModel.SaveChoice` remembers the dialog's choice.
- **The client's start-up helpers.**
  - `App.DetermineDotNetVersion` names the .NET Framework version from the registry release key.
  - A second instance hands its command-line arguments to the running one through a shared region of 65536 bytes. The frame holds a two-byte little-endian length, then the UTF-8 payload of the arguments joined with `'\n'`.

Modules:

- **`Common`**: option and completion values, and `string.IsNullOrEmpty` / `IsNullOrWhiteSpace`.
- **`InstallErrors`**: the exception classes told apart by `RunTasks`, and the failure text it composes.
- **`ScriptedLog`**: path helpers, `CheckScriptedModLog` and `LoadXMLModFilesToInstall`.
- **`ModInstallation`**: `Mod` and the `ModInstaller` class.
  - The collaborators it calls are an input record (`Collaborators`). It records what each one returns and which step throws.
  - Each call is recorded in the installer's `trace`.
  - Pure functions (`RunScriptModel`, `UsingModel`, `Close`, `InstallModel`) give the effect of each stage. The methods are proved to have exactly that effect, and the lemmas prove the properties about those functions.
- **`GameModeSelection`**:
  - the registries, settings and view model;
  - the dialog outcome, given as an input;
  - `SelectGameMode`, proved against the pure selection rule `SelectionModel`.
- **`DotNetVersion`**: the release-key classifier and an independent band table.
- **`Utf8`**: UTF-8 encoding and decoding over Unicode scalar values.
- **`ArgumentFrame`**:
  - `string.Join` / `Split` on `'\n'`;
  - the frame functions;
  - the writer and reader methods over an `array<byte>` region.

## Model

| member | source | states |
|---|---|---|
| InstallErrors.ComposeErrorText | NexusClient/ModManagement/ModInstaller.cs:222-251 | the error text is the exception's message, then ` (file)` or ` (path)` for the two exceptions carrying one, then the inner message on its own line, then one entry per excepted resource manager of a rollback (equals `ErrorText`) |
| InstallErrors.AppendManagerLines | NexusClient/ModManagement/ModInstaller.cs:239-251 | the `foreach` appends, for each excepted resource manager in list order, its name, its exception's message and its inner message when present, each as a line |
| InstallErrors.ManagerLinesAppend | NexusClient/ModManagement/ModInstaller.cs:241-250 | the lines for a concatenated list of resource managers are the lines of the first part followed by those of the second |
| InstallErrors.ManagerLinesSnoc | NexusClient/ModManagement/ModInstaller.cs:241-250 | one more iteration of the `foreach` adds exactly that resource manager's entry at the end |
| InstallErrors.ManagerLinesInOrder | NexusClient/ModManagement/ModInstaller.cs:241-250 | every excepted resource manager's entry sits after all earlier ones and before all later ones |
| InstallErrors.ErrorTextStartsWithMessage | NexusClient/ModManagement/ModInstaller.cs:222 | the composed error text begins with the exception's own message |
| InstallErrors.FailureMessageDeterminesErrorText | NexusClient/ModManagement/ModInstaller.cs:253-254 | the failure message is a fixed frame around the error text, so equal failure messages have equal error texts |
| InstallErrors.MissingFileMessageNamesFile | NexusClient/ModManagement/ModInstaller.cs:174-177 | the failure messages for two missing mod files are equal only if the files are the same |
| InstallErrors.MissingFileMessageText | NexusClient/ModManagement/ModInstaller.cs:176 | the full text reported for a missing mod file: the failure prefix line, "The selected file was not found: " and the file name, then "The mod was not installed." |
| ScriptedLog.CheckScriptedModLog | NexusClient/ModManagement/ModInstaller.cs:438-447 | the check passes when the profile manager names a path that is not null or white space, or when the Scripted directory and the default log both exist; with no path from the profile manager, a passing check means the file the loader reads exists |
| ScriptedLog.KeptPairs | NexusClient/ModManagement/ModInstaller.cs:475-484 | the collected pairs are no more than the `File` elements, and none has an empty or white-space `FileFrom` |
| ScriptedLog.KeptPairsAppend | NexusClient/ModManagement/ModInstaller.cs:475-484 | collecting pairs keeps document order: the pairs of two consecutive runs of elements are the pairs of each, concatenated |
| ScriptedLog.KeptPairsAt | NexusClient/ModManagement/ModInstaller.cs:475-484 | each element contributes its own pair, in its place, exactly when its `FileFrom` is not empty or white space |
| ScriptedLog.ReplayListIsNonEmpty | NexusClient/ModManagement/ModInstaller.cs:486-489 | a list read back from the log is never empty, and none of its sources is empty or white space |
| ScriptedLog.CheckAndLoadAgree | NexusClient/ModManagement/ModInstaller.cs:438-447 | with no profile path, a passing check means the loader reads an existing file; a non-blank profile path passes the check and is the path read; a blank but non-null profile path is still the path read |
| ScriptedLog.WhiteSpaceProfilePathLoadsNothing | NexusClient/ModManagement/ModInstaller.cs:438-462 | for any empty or white-space, non-null profile path naming no file: the check is exactly the default-log test, yet the loader reads the blank path and returns null |
| ScriptedLog.WalkFileList | NexusClient/ModManagement/ModInstaller.cs:475-500 | the walk completes exactly when every `File` element has both attributes, and then yields the kept pairs in order; otherwise it ends in the caught NullReferenceException |
| ScriptedLog.CollectFiles | NexusClient/ModManagement/ModInstaller.cs:468-500 | the `try` block and its handler give exactly the replay list of the parsed `FileList`: null when it is absent or empty, when an element lacks an attribute, or when nothing is kept; the kept pairs otherwise |
| ScriptedLog.LoadXmlModFilesToInstall | NexusClient/ModManagement/ModInstaller.cs:453-504 | the path read is the profile manager's answer or the default `Scripted/<name>.xml`. The result is null when the file is absent; the loader's exception when the file cannot be parsed; null when there is no `FileList` or `File` element, when an attribute is missing, or when nothing is kept; the kept pairs otherwise (equals `LoadedFileList`) |
| ModInstallation.ModInstaller.BeginModReadOnlyTransaction | NexusClient/ModManagement/ModInstaller.cs:274-280 | announces the prepare task, calls PrepareMod, and returns its answer or its exception; the mod is in its read-only transaction exactly when preparation succeeded |
| ModInstallation.ModInstaller.RegisterMod | NexusClient/ModManagement/ModInstaller.cs:509-512 | one call to the install log's AddActiveMod, whose exception is passed on |
| ModInstallation.ModInstaller.RunBasicInstallScript | NexusClient/ModManagement/ModInstaller.cs:379-385 | announces a basic install task over the given file list, then runs it and returns its result or exception |
| ModInstallation.ModInstaller.RunScriptExecutor | NexusClient/ModManagement/ModInstaller.cs:305-326 | the ini and game-specific installers are created, then the script is executed; any exception is caught into the error popup. The ini installer is finalized even when it was never created (then a NullReferenceException); the game-specific one only when it exists |
| ModInstallation.ModInstaller.RunScript | NexusClient/ModManagement/ModInstaller.cs:290-337 | creates the file installer, dispatches to a basic install (no script, or a replay log) or to the script executor, then finalizes the file installer; the trace, result and popup match `RunScriptModel` |
| ModInstallation.ModInstaller.RunUsingBlock | NexusClient/ModManagement/ModInstaller.cs:172-197 | the body of the transaction scope: the file check, preparation with its early return, registration and RunScript, then the date stamp, commit and activation-list save on success (equals `UsingModel`); the mod is in its read-only transaction exactly when it was prepared successfully, and otherwise keeps its old state |
| ModInstallation.ModInstaller.FinishRun | NexusClient/ModManagement/ModInstaller.cs:197-266 | disposing the scope, whose exception replaces the one leaving the block, cancels the early return and prevents the commit; then the rethrow of the three infrastructure exceptions, or the composed failure message and error popup for any other, or the early return; the read-only transaction always ends; the task set is then reported (equals `Close`) |
| ModInstallation.CloseKeepsBookkeeping | NexusClient/ModManagement/ModInstaller.cs:197-266 | the handlers after the scope never change the install date or the activation-list saves made inside it, and replace its popup only with the popup of a caught exception |
| ModInstallation.ModInstaller.RunTasks | NexusClient/ModManagement/ModInstaller.cs:153-267 | the outcome, the trace of calls, the commit, the activation-list saves, the install date and the popup are those of `InstallModel`, and the mod is no longer in a read-only transaction |
| ModInstallation.MissingModFileFails | NexusClient/ModManagement/ModInstaller.cs:174-177 | when the scope is disposed without error, a missing mod file is reported as a failure with the "selected file was not found" message, also shown as the popup; nothing is prepared, committed, saved or stamped |
| ModInstallation.EarlyReturnWhenPrepareFails | NexusClient/ModManagement/ModInstaller.cs:181-184 | when PrepareMod returns false and the rollback does not throw, RunTasks returns without registering, running, committing or reporting, but the read-only transaction still ends |
| ModInstallation.CommitIffScriptSucceeds | NexusClient/ModManagement/ModInstaller.cs:186-197 | when nothing around it throws (including the disposal of the scope), the transaction commits, the date is stamped and the list is saved once exactly when RunScript returns true; the report says "successfully activated" then, and "not activated" when it returns false |
| ModInstallation.CommitOnlyAfterSuccess | NexusClient/ModManagement/ModInstaller.cs:187-196 | for every input, a commit implies RunScript returned true, a date stamp and exactly one save; the list is never saved twice; a reported success has committed |
| ModInstallation.UsingBlockCommits | NexusClient/ModManagement/ModInstaller.cs:186-196 | inside the scope, `Complete` is reached only after RunScript returned true, and then the date has been stamped and the list saved once; the list is saved at most once; a normal exit with success has completed |
| ModInstallation.ExecutorOnlyCalls | NexusClient/ModManagement/ModInstaller.cs:305-326 | the script-executor stage records only calls |
| ModInstallation.BasicInstallOnlyCalls | NexusClient/ModManagement/ModInstaller.cs:379-385 | the basic-install stage records only its task start and calls |
| ModInstallation.DispatchOnlyCalls | NexusClient/ModManagement/ModInstaller.cs:297-332 | each of the three routes records only calls and task starts |
| ModInstallation.RunScriptOnlyCalls | NexusClient/ModManagement/ModInstaller.cs:290-337 | RunScript records only calls and task starts |
| ModInstallation.UsingOnlyCalls | NexusClient/ModManagement/ModInstaller.cs:172-197 | the body of the transaction scope records only calls and task starts |
| ModInstallation.ReadOnlyTransactionAlwaysEnds | NexusClient/ModManagement/ModInstaller.cs:261-266 | on every path, the run ends with the scope disposed, then the read-only transaction ended, then the report unless the run returned early or rethrew; nothing of the kind happens before |
| ModInstallation.ExceptionClassification | NexusClient/ModManagement/ModInstaller.cs:200-256 | an exception from registration, with a clean rollback, is rethrown unchanged when it is a transaction, security or object-disposed exception; any other is reported as a failure whose composed message is also the popup; nothing commits |
| ModInstallation.EveryExceptionClassified | NexusClient/ModManagement/ModInstaller.cs:172-266 | for every input, the exception leaving the `using` statement (the disposal's own, else the block's) is rethrown unchanged when it is an infrastructure exception and otherwise reported as a failure with the composed message as popup; without one the run returns early or reports the block's result; the transaction commits exactly when `Complete` was reached and the disposal did not throw |
| ModInstallation.ScriptExceptionsPassedOn | NexusClient/ModManagement/ModInstaller.cs:290-337 | an exception leaving RunScript is a collaborator's, the null dereference of the ini installer, or the log loader's, unchanged |
| ModInstallation.DispatchPassesOn | NexusClient/ModManagement/ModInstaller.cs:297-332 | an exception leaving any of the three routes is one the installer met, unchanged |
| ModInstallation.ExecutorPassesOn | NexusClient/ModManagement/ModInstaller.cs:305-326 | an exception leaving the executor route is a collaborator's or the null dereference of the ini installer |
| ModInstallation.FinalizePassesOn | NexusClient/ModManagement/ModInstaller.cs:324-326 | the finalization of the ini and game-specific installers throws only their own exceptions |
| ModInstallation.CommitStagePassesOn | NexusClient/ModManagement/ModInstaller.cs:186-196 | after RunScript, the block adds only the exceptions of `Complete` and `SaveList` |
| ModInstallation.UsingExceptionsPassedOn | NexusClient/ModManagement/ModInstaller.cs:172-197 | the exception leaving the `using` block is one a collaborator threw, the missing-file exception, the null dereference or the loader's, never a wrapped one |
| ModInstallation.ThrownExceptionsPassedOn | NexusClient/ModManagement/ModInstaller.cs:198-210 | the exception RunTasks rethrows is one the installer met, unchanged |
| ModInstallation.OnlyInfrastructureExceptionsPropagate | NexusClient/ModManagement/ModInstaller.cs:200-256 | only the three infrastructure exceptions ever leave RunTasks, and a reported failure other than "not activated" is shown as the error popup |
| ModInstallation.NoScriptRunsBasicInstall | NexusClient/ModManagement/ModInstaller.cs:329-334 | a mod without an install script gets a basic install of all its files (a null list), then its file installer is finalized |
| ModInstallation.ReplayLogRunsBasicInstall | NexusClient/ModManagement/ModInstaller.cs:299-302 | a scripted mod with a replay log gets a basic install of the list read from the log, and its script is not executed |
| ModInstallation.BasicInstallThenFinalize | NexusClient/ModManagement/ModInstaller.cs:299-336 | after the file installer is created, a basic install followed by the finalization records exactly those steps, executes no script, and returns the install's answer |
| ModInstallation.NoReplayLogRunsExecutor | NexusClient/ModManagement/ModInstaller.cs:303-316 | a scripted mod without a replay log runs its script and no basic install |
| ModInstallation.ExecutorRunsScript | NexusClient/ModManagement/ModInstaller.cs:305-316 | once the ini and game-specific installers exist, the script is executed and no basic install is run by this route |
| ModInstallation.FileInstallerFinalizedLast | NexusClient/ModManagement/ModInstaller.cs:334-336 | when RunScript returns, its last call was the file installer's finalization, made once |
| ModInstallation.DispatchNeverFinalizesFiles | NexusClient/ModManagement/ModInstaller.cs:297-332 | none of the three routes finalizes the file installer itself |
| ModInstallation.ExecutorNeverFinalizesFiles | NexusClient/ModManagement/ModInstaller.cs:305-326 | the script-executor route never finalizes the file installer: that is left to RunScript itself |
| ModInstallation.ExecutorExceptionIsSwallowed | NexusClient/ModManagement/ModInstaller.cs:316-334 | an exception from the script is swallowed: the result is false, the popup carries its message, and the ini, game-specific and file installers are still finalized in that order |
| ModInstallation.IniInstallerFailureDereferencesNull | NexusClient/ModManagement/ModInstaller.cs:309-324 | an exception before the ini installer exists is swallowed, but `iniInstaller.FinalizeInstall()` then throws a NullReferenceException; no installer is finalized and the install fails with the null-reference message |
| GameModeSelection.GameModeSelectorViewModel.SaveChoice | NexusClient/UI/GameModeSelection/GameModeSelectorViewModel.cs:36-48 | the rescan placeholder id is cleared and nothing is saved; any other id is written as the remembered game mode with the remember flag, and the settings are saved once |
| GameModeSelection.GameModeSelector.constructor | NexusClient/GameModeSelector.cs:40-59 | a new selector has no view model, so no rescan is requested |
| GameModeSelection.ShowDialog | NexusClient/UI/GameModeSelection/GameModeSelectorView.xaml.cs:30-37 | accepting stores the selected descriptor's id and saves the choice: a real game mode is written to the settings with the "remember" box and saved once, the rescan placeholder clears the id and leaves the settings alone; the view model then holds the selection and rescan request; cancelling changes nothing |
| GameModeSelection.GameModeSelector.RescanRequested | NexusClient/GameModeSelector.cs:40 | a rescan is requested only once a dialog view model exists, and then exactly when that view model asks for one |
| GameModeSelection.GameModeSelector.SelectGameMode | NexusClient/GameModeSelector.cs:67-131 | the result is `SelectionModel` of the settings as they were, the request, dialog outcome and registries; the settings change exactly when the dialog is shown and accepted with a real game mode selected, which is then remembered with the "remember" box and saved once; when the dialog is shown, a fresh view model lists the installed game modes and gives the rescan flag |
| GameModeSelection.GameModeSelector.CheckGameMode | NexusClient/GameModeSelector.cs:110-130 | the installed factory for an installed id; otherwise the "Unrecognized Game Mode" text for an unsupported id, or the two-line "not set up" text for a supported one |
| GameModeSelection.DialogShownIff | NexusClient/GameModeSelector.cs:71-79 | the dialog is shown exactly when a change of default is asked for, or when neither a non-empty request nor a non-empty remembered id (with remembering on) is at hand |
| GameModeSelection.RequestedIdWins | NexusClient/GameModeSelector.cs:73-77 | a non-empty requested id, without a change of default, is checked directly whatever was remembered and whatever the dialog would say |
| GameModeSelection.RememberedIdUsed | NexusClient/GameModeSelector.cs:71 | with no request, a remembered non-empty id is checked directly when remembering is on |
| GameModeSelection.ForgottenIdAsksTheUser | NexusClient/GameModeSelector.cs:71-79 | with remembering off and no request, the remembered id plays no part and the dialog decides |
| GameModeSelection.DialogOutcomes | NexusClient/GameModeSelector.cs:88-105 | cancelling, or accepting with a rescan request, selects nothing and shows no error; accepting checks the selected descriptor's id, or a null id when nothing is selected |
| GameModeSelection.ValidationOutcomes | NexusClient/GameModeSelector.cs:110-130 | exact results: the installed factory; "Unrecognized Game Mode: id" with no line break; or "<manager> is not set up to work with <game>" and the rescan hint, each of these two lines followed by a newline |
| GameModeSelection.ResultIsInstalledOrExplained | NexusClient/GameModeSelector.cs:67-131 | a returned factory is always an installed game mode; a null result without an error only comes from a shown dialog that was cancelled or asked for a rescan |
| GameModeSelection.SavedChoiceSkipsDialog | NexusClient/UI/GameModeSelection/GameModeSelectorViewModel.cs:44-46 | with the settings SaveChoice writes for a chosen id, the next start-up without a request or a change of default skips the dialog exactly when "remember" was checked |
| DotNetVersion.DetermineDotNetVersion | NexusClient/App.xaml.cs:148-176 | the text is always one of the six band labels, and it is "No 4.5 or later version detected" exactly for keys below the first threshold, 378389 |
| DotNetVersion.DetermineDotNetVersionMatchesTable | NexusClient/App.xaml.cs:148-176 | the if-chain gives the text of the band the key falls in, by an independent table of thresholds 378389, 378675, 378758, 379893 and 381029 |
| DotNetVersion.CountReachedBetween | NexusClient/App.xaml.cs:150-175 | on ascending thresholds, a key between the n-th threshold and the next reaches exactly n of them |
| DotNetVersion.LabelsDistinct | NexusClient/App.xaml.cs:152-175 | the six texts are pairwise different, so the text names the band |
| DotNetVersion.CountReachedMonotone | NexusClient/App.xaml.cs:150-175 | a larger key reaches at least as many thresholds |
| DotNetVersion.BandMonotone | NexusClient/App.xaml.cs:150-175 | a larger release key never falls in an earlier band |
| DotNetVersion.LabelIffBand | NexusClient/App.xaml.cs:148-176 | for each of the six texts, the key gets that text exactly when it is at or above the band's threshold and below the next one, so every text occurs and the text tells the band |
| Utf8.EncodeChar | NexusClient/App.xaml.cs:70 | one to four bytes per character, one exactly for ASCII (the byte itself), and only bytes of 0x80 and above in a multi-byte sequence |
| Utf8.Encode | NexusClient/App.xaml.cs:70 | the encoding has between one and four bytes per character |
| Utf8.Decode | NexusClient/App.xaml.cs:53 | `GetString`: every byte is consumed, by a well-formed sequence giving its character or by a U+FFFD; the text is never longer than the bytes, and empty exactly when they are |
| Utf8.DecodeHeadOfEncodeChar | NexusClient/App.xaml.cs:53 | the decoder reads a character's encoding back as that character, whatever follows |
| Utf8.SplitSixBits | NexusClient/App.xaml.cs:53 | the decoder's sums put a value cut into six-bit groups back together |
| Utf8.DecodeEncode | NexusClient/App.xaml.cs:50-73 | decoding undoes encoding |
| Utf8.EncodeAppend | NexusClient/App.xaml.cs:70 | encoding distributes over concatenation |
| Utf8.EncodeInjective | NexusClient/App.xaml.cs:70 | different texts have different encodings |
| Utf8.NewlineByteIffNewlineChar | NexusClient/App.xaml.cs:50-73 | the byte 0x0A occurs in an encoding exactly when the text holds '\n' |
| ArgumentFrame.Join | NexusClient/App.xaml.cs:70 | `string.Join("\n", args)`: the text starts with the first argument, followed by a newline when another argument follows |
| ArgumentFrame.IndexOf | NexusClient/App.xaml.cs:53 | the position found holds the character and none before it does; none found means the character does not occur |
| ArgumentFrame.Split | NexusClient/App.xaml.cs:53 | at least one piece, none holding a newline |
| ArgumentFrame.NewlinesIn | NexusClient/App.xaml.cs:70 | no newline is counted exactly when no argument holds one |
| ArgumentFrame.FirstNewlineAfter | NexusClient/App.xaml.cs:50-73 | the first newline of a joined text is the separator after the first argument |
| ArgumentFrame.SplitAfterFirst | NexusClient/App.xaml.cs:53 | a newline-free text followed by a newline is split off as the first argument, and the rest is split on its own |
| ArgumentFrame.SplitJoin | NexusClient/App.xaml.cs:50-73 | splitting the joined arguments gives them back when there is at least one and none holds a newline |
| ArgumentFrame.JoinSplit | NexusClient/App.xaml.cs:50-73 | joining the pieces of any text gives it back |
| ArgumentFrame.SplitCount | NexusClient/App.xaml.cs:53 | a text splits into one more piece than it has newlines |
| ArgumentFrame.JoinCount | NexusClient/App.xaml.cs:70 | joining adds one newline between each two arguments |
| ArgumentFrame.SplitJoinIff | NexusClient/App.xaml.cs:50-73 | the text round trip holds exactly when no argument holds a newline |
| ArgumentFrame.LengthField | NexusClient/App.xaml.cs:72 | the `(ushort)` length is below 65536 and equals the payload length when that is below 65536 |
| ArgumentFrame.FrameAfterWrite | NexusClient/App.xaml.cs:70-73 | the region after a write keeps its 65536 bytes |
| ArgumentFrame.FrameLength | NexusClient/App.xaml.cs:50 | the length read back is below 65536 |
| ArgumentFrame.FramePayload | NexusClient/App.xaml.cs:50-52 | the reader's buffer has exactly the length read from offset 0 |
| ArgumentFrame.ReadFrame | NexusClient/App.xaml.cs:50-53 | the reader always gets at least one argument |
| ArgumentFrame.WriteArguments | NexusClient/App.xaml.cs:70-73 | writes the 16-bit length little-endian at offset 0, then the UTF-8 payload at offset 2 when it fits; reports whether it fitted; leaves every other byte as it was (equals `FrameAfterWrite`) |
| ArgumentFrame.ReadArguments | NexusClient/App.xaml.cs:50-53 | reads the length, fills a zeroed buffer of that length from offset 2 as far as the region goes, decodes and splits (equals `ReadFrame`) |
| ArgumentFrame.PayloadReadBack | NexusClient/App.xaml.cs:50-73 | a payload that fits is read back byte for byte, under its own length |
| ArgumentFrame.FrameRoundTrip | NexusClient/App.xaml.cs:50-73 | the running instance reads back exactly the arguments written, when there is at least one, none holds a newline and their encoding fits |
| ArgumentFrame.EmptyArgumentsFrame | NexusClient/App.xaml.cs:50-73 | no arguments are read back as one empty argument |
| ArgumentFrame.NewlineSplitsArgument | NexusClient/App.xaml.cs:50-73 | an argument holding newlines comes back as one more argument per newline |
| ArgumentFrame.OversizedPayload | NexusClient/App.xaml.cs:72-73 | a payload that does not fit leaves the old payload bytes under a new length field; from 65536 bytes on, the 16-bit length no longer gives the payload's length |

## Left out

- **Threading.** The install thread (`Install`, `TrackedThread`) and the global install lock are left out: one sequential `RunTasks` call is modelled.
- **Transactions and the file system.** `TransactionScope`, `TxFileManager`, `File.Exists`, `Directory.Exists` and `XDocument.Load` are foreign libraries.
  - The scope is a `committed` flag: `Complete` was reached and the disposal did not throw. Its disposal is an event in the trace, and whether it throws (a failed commit or rollback) is an input, the `DisposeScope` fault; which exception classes the transaction library raises there is not modelled.
  - File existence and the directory listing are inputs: `modFileExists`, `ScriptedLogStore`.
  - A parsed log is a list of `File` elements with optional attributes, or the parser's exception.
- **Collaborators whose code is not part of this model.** `PrepareModTask`, `BasicInstallTask`, the script executors, the file, ini and game-specific installers, the install log, the virtual mod activator and the profile manager are modelled only as calls.
  - Each call's result, and which step throws, are inputs (`Collaborators`). The profile manager's answer is `profileLogPath`; a missing profile manager acts like a null answer (`profileLogPath == None`).
  - The files a basic install or a script actually installs are not modelled.
  - Whether a game-specific installer was created is an input.
- **Plumbing.** Event (un)subscription, `Trace`, `TraceUtil` and `GC.GetTotalMemory` are left out. `OnTaskStarted` and `OnTaskSetCompleted` are events in the trace.
- **The clock.** The install date is the input `now`, which stands for the invariant-culture text of `DateTime.Now`. Neither the clock nor that date format is modelled.
- **`Path` helpers.** `Path.Combine` and `Path.GetFileNameWithoutExtension` are modelled for plain paths. Invalid path characters, which make them throw, are not modelled.
- **`File` elements and `HasElements`.** A `FileList` whose children are all non-`File` elements is treated like an empty one. The result is null either way.
- **Dialogs and message boxes.** `GameModeSelectorView` and `ShowDialog` are UI.
  - The dialog's outcome is an input (`DialogOutcome`): cancelled, or accepted with the selected descriptor, the rescan request and the "remember" check box.
  - The error message box is modelled by the error text returned with the null result.
  - `GameModeSelectorViewModel.SelectedGameMode` and `RescanRequested` are not declared in the view-model file. They are modelled as view-model fields that the dialog sets.
- **`GameModeRegistry` internals.**
  - `IsRegistered` of a null id is taken to be false.
  - `GetGameMode` is a map lookup.
  - `RegisteredGameModes` is a set, so the dialog's list order is not modelled.
- GameModeSelection.GameModeSelectorViewModel.SaveChoice: requires a non-null selected id. `Equals` is called on it, so a null id throws a NullReferenceException, and that case is not modelled.
- GameModeSelection.ShowDialog: accepting with nothing selected in the list is taken to leave a null id and the settings unchanged. In the Accept handler `SaveChoice` is then called on a null id and throws, so the dialog never returns that outcome; the throw is not modelled.
- **`ISettings.Save`** is counted, not modelled.
- **App start-up.** The single-instance mutex, the event wait handle, the listener thread, the dispatcher, the memory-mapped-file API, `EnableTracing` and the registry reads are IPC, concurrency and OS queries. Only the byte layout of the frame and `DetermineDotNetVersion` are kept.
- **Writing an oversized frame.** When the payload does not fit, `WriteArray` throws after the length field has been written. The write returns false instead of raising that exception.
- Utf8.Decode: replaces each byte that does not start a well-formed sequence by one U+FFFD. .NET replaces each maximal ill-formed subpart by one U+FFFD, so the two can differ in the number of replacement characters on corrupt input. Well-formed input, and so every round trip, is unaffected.
- Utf8.Encode: only takes Unicode scalar values. .NET strings may hold lone surrogates, which `GetBytes` replaces; those are not modelled.
- **`EnvironmentInfo`, `MainWindow`, the converters and the themes** are not part of this model.
