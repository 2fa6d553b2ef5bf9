/** The mod install coordinator (ModInstaller.RunTasks and RunScript).

    One sequential install of one mod. The collaborators the installer calls
    (the preparer, the install log, the three sub-installers, the basic
    install task, the script executor, the transaction and the activation
    list) are not modelled; what they return and which of them throws is an
    input (`Collaborators`), and every call the installer makes is recorded,
    in order, in the installer's `trace`.

    The functions below state, as values, what each part of an install does
    to the trace so far, what it returns or throws, and which fields it
    sets; the methods of `ModInstaller` are proved to do exactly that, and
    the lemmas at the end prove what the installer promises about it. */
module ModInstallation {
  import opened Common
  import opened InstallErrors
  import opened ScriptedLog

  /** The calls into collaborators that may throw. */
  datatype Step =
    | PrepareMod                         // PrepareModTask.PrepareMod
    | AddActiveMod                       // IInstallLog.AddActiveMod (RegisterMod)
    | CreateFileInstaller
    | BasicInstall                       // BasicInstallTask.Execute
    | CreateIniInstaller                 // with the DataFileUtil created before it
    | CreateGameSpecificValueInstaller
    | ExecuteScript                      // CreateExecutor and Execute
    | FinalizeIniInstall
    | FinalizeGameSpecificValueInstall
    | FinalizeFileInstall
    | CompleteTransaction                // TransactionScope.Complete
    | SaveActivationList                 // IVirtualModActivator.SaveList(true)
    | DisposeScope                       // TransactionScope.Dispose: the commit, or the rollback

  /** The background tasks the installer announces with TaskStarted. */
  datatype Task = PrepareModTask | BasicInstallTask(installFiles: Option<seq<FilePair>>)

  /** What the installer does, as it can be observed from outside. */
  datatype Event =
    | TaskStarted(task: Task)
    | Called(step: Step)
    | ScopeDisposed(committed: bool)     // end of the `using`: commit or roll back
    | ReadOnlyTransactionEnded           // Mod.EndReadOnlyTransaction
    | TaskSetCompleted(success: bool, message: string)

  /** The collaborators' answers, for one run. */
  datatype Collaborators = Collaborators(
    modFileExists: bool,                 // File.Exists(Mod.Filename)
    prepareSucceeds: bool,               // PrepareMod's result
    scriptedLog: ScriptedLogStore,       // profile manager and file system
    basicInstallSucceeds: bool,          // BasicInstallTask.Execute's result
    scriptSucceeds: bool,                // the script executor's result
    hasGameSpecificValueInstaller: bool, // whether the game mode supplies one
    now: string,                         // DateTime.Now's invariant-culture text
    faults: map<Step, Exception>)        // the calls that throw, and what

  const NotActivatedMessage: string := "The mod was not activated."
  const ActivatedMessage: string := "The mod was successfully activated."
  const ErrorPopupType: string := "Error"

  // ---------------------------------------------------------------------
  // RunScript, as a value
  // ---------------------------------------------------------------------

  /** The state after (a part of) RunScript: the trace, the result or the
      exception that leaves it, and the popup message it set, if any. */
  datatype ScriptRun = ScriptRun(trace: seq<Event>, result: Completion<bool, Exception>, popup: Option<string>)

  /** RunBasicInstallScript with the given file list (null: all files). */
  function BasicInstallRun(trace: seq<Event>, files: Option<seq<FilePair>>, env: Collaborators): ScriptRun {
    ScriptRun(trace + [TaskStarted(BasicInstallTask(files))] + [Called(BasicInstall)],
              if BasicInstall in env.faults then Thrown(env.faults[BasicInstall])
              else Normal(env.basicInstallSucceeds),
              None)
  }

  /** The script-executor branch: the try block creates the ini and the
      game-specific installers and runs the executor; an exception there is
      caught, becomes the popup message, and leaves the result false. Then
      the ini installer is finalized, which dereferences null when it was
      never created. */
  function ExecutorRun(trace: seq<Event>, env: Collaborators): ScriptRun {
    var ini := trace + [Called(CreateIniInstaller)];
    var gsv := ini + [Called(CreateGameSpecificValueInstaller)];
    var executed := gsv + [Called(ExecuteScript)];
    if CreateIniInstaller in env.faults then
      ScriptRun(ini, Thrown(NullReference()), Some(env.faults[CreateIniInstaller].message))
    else if CreateGameSpecificValueInstaller in env.faults then
      FinalizeRun(gsv, false, false, Some(env.faults[CreateGameSpecificValueInstaller].message), env)
    else if ExecuteScript in env.faults then
      FinalizeRun(executed, env.hasGameSpecificValueInstaller, false, Some(env.faults[ExecuteScript].message), env)
    else
      FinalizeRun(executed, env.hasGameSpecificValueInstaller, env.scriptSucceeds, None, env)
  }

  /** The finalization after the executor's try block: the ini installer,
      then the game-specific installer when one was created. */
  function FinalizeRun(trace: seq<Event>, gsvCreated: bool, result: bool, popup: Option<string>,
                       env: Collaborators): ScriptRun
  {
    var ini := trace + [Called(FinalizeIniInstall)];
    var gsv := ini + [Called(FinalizeGameSpecificValueInstall)];
    if FinalizeIniInstall in env.faults then
      ScriptRun(ini, Thrown(env.faults[FinalizeIniInstall]), popup)
    else if !gsvCreated then
      ScriptRun(ini, Normal(result), popup)
    else if FinalizeGameSpecificValueInstall in env.faults then
      ScriptRun(gsv, Thrown(env.faults[FinalizeGameSpecificValueInstall]), popup)
    else
      ScriptRun(gsv, Normal(result), popup)
  }

  /** The dispatch of RunScript: no script, a replay log, or the executor. */
  function DispatchRun(trace: seq<Event>, filename: string, hasInstallScript: bool, env: Collaborators): ScriptRun {
    if !hasInstallScript then
      BasicInstallRun(trace, None, env)
    else if CheckScriptedModLog(env.scriptedLog, filename) then
      match LoadedFileList(env.scriptedLog, filename)
      case Thrown(e) => ScriptRun(trace, Thrown(e), None)
      case Normal(files) => BasicInstallRun(trace, files, env)
    else
      ExecutorRun(trace, env)
  }

  /** RunScript: create the file installer, dispatch, then finalize the file
      installer. */
  function RunScriptModel(trace: seq<Event>, filename: string, hasInstallScript: bool, env: Collaborators): ScriptRun {
    var created := trace + [Called(CreateFileInstaller)];
    if CreateFileInstaller in env.faults then
      ScriptRun(created, Thrown(env.faults[CreateFileInstaller]), None)
    else
      var d := DispatchRun(created, filename, hasInstallScript, env);
      var finalized := d.trace + [Called(FinalizeFileInstall)];
      if d.result.Thrown? then
        d
      else if FinalizeFileInstall in env.faults then
        ScriptRun(finalized, Thrown(env.faults[FinalizeFileInstall]), d.popup)
      else
        ScriptRun(finalized, d.result, d.popup)
  }

  // ---------------------------------------------------------------------
  // RunTasks, as a value
  // ---------------------------------------------------------------------

  /** The state when control leaves the `using` block of RunTasks: the
      trace, the exception that left it (None: it was left normally),
      whether `Complete` was reached, the locals `success` and `message`,
      whether the early `return` was taken, the install date stamped, the
      activation-list saves made and the popup message set. */
  datatype UsingBlock = UsingBlock(
    trace: seq<Event>,
    thrown: Option<Exception>,
    completed: bool,
    success: bool,
    message: string,
    returnedEarly: bool,
    stamp: Option<string>,
    saves: nat,
    popup: Option<string>)

  function Left(trace: seq<Event>, e: Exception): UsingBlock {
    UsingBlock(trace, Some(e), false, false, NotActivatedMessage, false, None, 0, None)
  }

  /** After RunScript returned `result`: a true result stamps the install
      date, completes the transaction and saves the activation list. */
  function CommitStage(trace: seq<Event>, result: Completion<bool, Exception>, env: Collaborators): UsingBlock {
    var completing := trace + [Called(CompleteTransaction)];
    var saving := completing + [Called(SaveActivationList)];
    match result
    case Thrown(e) =>
      Left(trace, e)
    case Normal(false) =>
      UsingBlock(trace, None, false, false, NotActivatedMessage, false, None, 0, None)
    case Normal(true) =>
      if CompleteTransaction in env.faults then
        UsingBlock(completing, Some(env.faults[CompleteTransaction]), false, true, NotActivatedMessage, false,
                   Some(env.now), 0, None)
      else if SaveActivationList in env.faults then
        UsingBlock(saving, Some(env.faults[SaveActivationList]), true, true, NotActivatedMessage, false,
                   Some(env.now), 1, None)
      else
        UsingBlock(saving, None, true, true, ActivatedMessage, false, Some(env.now), 1, None)
  }

  /** The `using` block of RunTasks. */
  function UsingModel(trace: seq<Event>, filename: string, hasInstallScript: bool, env: Collaborators): UsingBlock {
    var prepared := trace + [TaskStarted(PrepareModTask)] + [Called(PrepareMod)];
    var registered := prepared + [Called(AddActiveMod)];
    if !env.modFileExists then
      Left(trace, MissingModFile(filename))
    else if PrepareMod in env.faults then
      Left(prepared, env.faults[PrepareMod])
    else if !env.prepareSucceeds then
      UsingBlock(prepared, None, false, false, NotActivatedMessage, true, None, 0, None)
    else if AddActiveMod in env.faults then
      Left(registered, env.faults[AddActiveMod])
    else
      var s := RunScriptModel(registered, filename, hasInstallScript, env);
      CommitStage(s.trace, s.result, env).(popup := s.popup)
  }

  /** How RunTasks ends: it reports through TaskSetCompleted, it returns
      early without reporting, or it rethrows. */
  datatype RunOutcome = Reported(success: bool, message: string) | ReturnedEarly | Propagated(exn: Exception)

  /** One run of RunTasks: the trace, how it ended, the install date it
      stamped, whether the transaction committed, how often the activation
      list was saved, and the popup message it leaves (None: untouched). */
  datatype InstallRun = InstallRun(
    trace: seq<Event>,
    outcome: RunOutcome,
    installDate: Option<string>,
    committed: bool,
    saveListCalls: nat,
    popup: Option<string>)

  /** The end of the `using` statement: the scope is disposed, which
      commits when `Complete` was reached and rolls back otherwise. When
      Dispose throws (the commit aborts, or the rollback fails), its
      exception replaces whatever was leaving the block, the early `return`
      is abandoned, and nothing is committed; `completed` then says whether
      the transaction committed. */
  function Disposed(b: UsingBlock, env: Collaborators): UsingBlock {
    if DisposeScope in env.faults then
      b.(thrown := Some(env.faults[DisposeScope]), completed := false, returnedEarly := false)
    else
      b
  }

  /** What follows the disposal: the catch clauses rethrow the three
      infrastructure exceptions and turn any other into the failure message
      and the error popup, the finally block ends the read-only transaction,
      and the task set is reported unless the method returned early or
      rethrew. */
  function Handle(b: UsingBlock): InstallRun {
    var closed := b.trace + [ScopeDisposed(b.completed)] + [ReadOnlyTransactionEnded];
    if b.thrown.Some? && IsRethrown(b.thrown.value) then
      InstallRun(closed, Propagated(b.thrown.value), b.stamp, b.completed, b.saves, b.popup)
    else if b.thrown.Some? then
      var m := FailureMessage(b.thrown.value);
      InstallRun(closed + [TaskSetCompleted(false, m)], Reported(false, m), b.stamp, b.completed, b.saves, Some(m))
    else if b.returnedEarly then
      InstallRun(closed, ReturnedEarly, b.stamp, b.completed, b.saves, b.popup)
    else
      InstallRun(closed + [TaskSetCompleted(b.success, b.message)], Reported(b.success, b.message),
                 b.stamp, b.completed, b.saves, b.popup)
  }

  /** Everything after the `using` block. */
  function Close(b: UsingBlock, env: Collaborators): InstallRun {
    Handle(Disposed(b, env))
  }

  function InstallModel(trace: seq<Event>, filename: string, hasInstallScript: bool, env: Collaborators): InstallRun {
    Close(UsingModel(trace, filename, hasInstallScript, env), env)
  }

  /** The popup fields after a step that sets the error popup to `popup`
      when that is not None and leaves them alone otherwise. */
  predicate PopupAfter(popup: Option<string>, oldMessage: Option<string>, oldType: Option<string>,
                       message: Option<string>, messageType: Option<string>)
  {
    if popup.Some? then message == popup && messageType == Some(ErrorPopupType)
    else message == oldMessage && messageType == oldType
  }

  /** Closing does not look at the date stamp, the saves or the popup of
      the `using` block: it passes them on, setting the popup only for a
      caught exception. */
  lemma CloseKeepsBookkeeping(b: UsingBlock, env: Collaborators)
    ensures var plain := Close(b.(stamp := None, saves := 0, popup := None), env);
            var run := Close(b, env);
            && run.trace == plain.trace && run.outcome == plain.outcome && run.committed == plain.committed
            && run.installDate == b.stamp && run.saveListCalls == b.saves
            && run.popup == (if plain.popup.Some? then plain.popup else b.popup)
  {
  }

  /** Two popup updates in a row are one update with the later message, if
      the later step set one. */
  lemma PopupAfterThen(p1: Option<string>, p2: Option<string>, m0: Option<string>, t0: Option<string>,
                       m1: Option<string>, t1: Option<string>, m2: Option<string>, t2: Option<string>)
    requires PopupAfter(p1, m0, t0, m1, t1) && PopupAfter(p2, m1, t1, m2, t2)
    ensures PopupAfter(if p2.Some? then p2 else p1, m0, t0, m2, t2)
  {
  }

  // ---------------------------------------------------------------------
  // The objects
  // ---------------------------------------------------------------------

  /** The part of the mod the installer reads and writes. */
  class Mod {
    const Filename: string
    const HasInstallScript: bool
    var InstallDate: Option<string>
    var InReadOnlyTransaction: bool

    constructor (filename: string, hasInstallScript: bool, installDate: Option<string>)
      ensures Filename == filename && HasInstallScript == hasInstallScript
      ensures InstallDate == installDate && !InReadOnlyTransaction
    {
      Filename := filename;
      HasInstallScript := hasInstallScript;
      InstallDate := installDate;
      InReadOnlyTransaction := false;
    }
  }

  class ModInstaller {
    const mod: Mod
    /** Whether the last run's transaction committed. */
    var committed: bool
    /** How often `SaveList(true)` was called on the activator. */
    var saveListCalls: nat
    var PopupErrorMessage: Option<string>
    var PopupErrorMessageType: Option<string>
    /** Everything the installer did, in order. */
    var trace: seq<Event>

    constructor (mod: Mod)
      ensures this.mod == mod && !committed && saveListCalls == 0
      ensures PopupErrorMessage == None && PopupErrorMessageType == None && trace == []
    {
      this.mod := mod;
      committed := false;
      saveListCalls := 0;
      PopupErrorMessage := None;
      PopupErrorMessageType := None;
      trace := [];
    }

    /** Calls a collaborator: the call is recorded, and it throws when the
        inputs say so. */
    method Invoke(step: Step, env: Collaborators) returns (fault: Option<Exception>)
      modifies this`trace
      ensures trace == old(trace) + [Called(step)]
      ensures fault == if step in env.faults then Some(env.faults[step]) else None
    {
      trace := trace + [Called(step)];
      fault := if step in env.faults then Some(env.faults[step]) else None;
    }

    method BeginModReadOnlyTransaction(env: Collaborators) returns (r: Completion<bool, Exception>)
      modifies this`trace, mod`InReadOnlyTransaction
      ensures trace == old(trace) + [TaskStarted(PrepareModTask)] + [Called(PrepareMod)]
      ensures r == if PrepareMod in env.faults then Thrown(env.faults[PrepareMod]) else Normal(env.prepareSucceeds)
      ensures mod.InReadOnlyTransaction == (if r.Normal? then r.value else old(mod.InReadOnlyTransaction))
    {
      trace := trace + [TaskStarted(PrepareModTask)];
      var fault := Invoke(PrepareMod, env);
      if fault.Some? {
        return Thrown(fault.value);
      }
      mod.InReadOnlyTransaction := env.prepareSucceeds;
      return Normal(env.prepareSucceeds);
    }

    method RegisterMod(env: Collaborators) returns (fault: Option<Exception>)
      modifies this`trace
      ensures trace == old(trace) + [Called(AddActiveMod)]
      ensures fault == if AddActiveMod in env.faults then Some(env.faults[AddActiveMod]) else None
    {
      fault := Invoke(AddActiveMod, env);
    }

    method RunBasicInstallScript(files: Option<seq<FilePair>>, env: Collaborators) returns (r: Completion<bool, Exception>)
      modifies this`trace
      ensures trace == BasicInstallRun(old(trace), files, env).trace
      ensures r == BasicInstallRun(old(trace), files, env).result
    {
      trace := trace + [TaskStarted(BasicInstallTask(files))];
      var fault := Invoke(BasicInstall, env);
      if fault.Some? {
        return Thrown(fault.value);
      }
      return Normal(env.basicInstallSucceeds);
    }

    /** The executor branch of RunScript, up to and including the
        finalization of the ini and game-specific installers. */
    method RunScriptExecutor(env: Collaborators) returns (r: Completion<bool, Exception>)
      modifies this`trace, this`PopupErrorMessage, this`PopupErrorMessageType
      ensures trace == ExecutorRun(old(trace), env).trace
      ensures r == ExecutorRun(old(trace), env).result
      ensures PopupAfter(ExecutorRun(old(trace), env).popup, old(PopupErrorMessage), old(PopupErrorMessageType),
                         PopupErrorMessage, PopupErrorMessageType)
    {
      var result := false;
      var iniCreated, gsvCreated := false, false;
      // try
      var caught := Invoke(CreateIniInstaller, env);
      if caught.None? {
        iniCreated := true;
        caught := Invoke(CreateGameSpecificValueInstaller, env);
        if caught.None? {
          gsvCreated := env.hasGameSpecificValueInstaller;
          caught := Invoke(ExecuteScript, env);
          if caught.None? {
            result := env.scriptSucceeds;
          }
        }
      }
      // catch
      if caught.Some? {
        PopupErrorMessage := Some(caught.value.message);
        PopupErrorMessageType := Some(ErrorPopupType);
      }
      // iniInstaller.FinalizeInstall()
      if !iniCreated {
        return Thrown(NullReference());
      }
      var fault := Invoke(FinalizeIniInstall, env);
      if fault.Some? {
        return Thrown(fault.value);
      }
      // gameSpecificValueInstaller?.FinalizeInstall()
      if gsvCreated {
        fault := Invoke(FinalizeGameSpecificValueInstall, env);
        if fault.Some? {
          return Thrown(fault.value);
        }
      }
      return Normal(result);
    }

    /** RunScript: create the file installer; then a basic install of all
        files, a basic install of the files a replay log lists, or the
        script executor; then finalize the file installer. */
    method RunScript(env: Collaborators) returns (r: Completion<bool, Exception>)
      modifies this`trace, this`PopupErrorMessage, this`PopupErrorMessageType
      ensures trace == RunScriptModel(old(trace), mod.Filename, mod.HasInstallScript, env).trace
      ensures r == RunScriptModel(old(trace), mod.Filename, mod.HasInstallScript, env).result
      ensures PopupAfter(RunScriptModel(old(trace), mod.Filename, mod.HasInstallScript, env).popup,
                         old(PopupErrorMessage), old(PopupErrorMessageType), PopupErrorMessage, PopupErrorMessageType)
    {
      var fault := Invoke(CreateFileInstaller, env);
      if fault.Some? {
        return Thrown(fault.value);
      }
      if !mod.HasInstallScript {
        r := RunBasicInstallScript(None, env);
      } else if CheckScriptedModLog(env.scriptedLog, mod.Filename) {
        var files := LoadXmlModFilesToInstall(env.scriptedLog, mod.Filename);
        if files.Thrown? {
          return Thrown(files.exn);
        }
        r := RunBasicInstallScript(files.value, env);
      } else {
        r := RunScriptExecutor(env);
      }
      if r.Thrown? {
        return;
      }
      fault := Invoke(FinalizeFileInstall, env);
      if fault.Some? {
        return Thrown(fault.value);
      }
    }

    /** The `using` block of RunTasks. */
    method RunUsingBlock(env: Collaborators)
      returns (thrown: Option<Exception>, completed: bool, success: bool, message: string, returnedEarly: bool)
      modifies this`trace, this`PopupErrorMessage, this`PopupErrorMessageType, this`saveListCalls
      modifies mod`InstallDate, mod`InReadOnlyTransaction
      ensures var b := UsingModel(old(trace), mod.Filename, mod.HasInstallScript, env);
              && trace == b.trace
              && thrown == b.thrown && completed == b.completed && success == b.success && message == b.message
              && returnedEarly == b.returnedEarly
              && saveListCalls == old(saveListCalls) + b.saves
              && mod.InstallDate == (if b.stamp.Some? then b.stamp else old(mod.InstallDate))
              && PopupAfter(b.popup, old(PopupErrorMessage), old(PopupErrorMessageType),
                            PopupErrorMessage, PopupErrorMessageType)
      ensures mod.InReadOnlyTransaction
           == (if env.modFileExists && PrepareMod !in env.faults then env.prepareSucceeds
               else old(mod.InReadOnlyTransaction))
    {
      thrown, completed, success, message, returnedEarly := None, false, false, NotActivatedMessage, false;
      if !env.modFileExists {
        thrown := Some(MissingModFile(mod.Filename));
        return;
      }
      var prepared := BeginModReadOnlyTransaction(env);
      if prepared.Thrown? {
        thrown := Some(prepared.exn);
        return;
      }
      if !prepared.value {
        returnedEarly := true;
        return;
      }
      thrown := RegisterMod(env);
      if thrown.Some? {
        return;
      }
      var ran := RunScript(env);
      if ran.Thrown? {
        thrown := Some(ran.exn);
        return;
      }
      success := ran.value;
      if success {
        mod.InstallDate := Some(env.now);
        thrown := Invoke(CompleteTransaction, env);
        if thrown.None? {
          completed := true;
          saveListCalls := saveListCalls + 1;
          thrown := Invoke(SaveActivationList, env);
          if thrown.None? {
            message := ActivatedMessage;
          }
        }
      }
    }

    /** What follows the `using` block of RunTasks: the disposal of the
        scope, the catch clauses, the finally block and the report. */
    method FinishRun(env: Collaborators, leaving: Option<Exception>, completed: bool, success: bool, message: string,
                     returnedEarly: bool)
      returns (outcome: RunOutcome)
      modifies this`trace, this`committed, this`PopupErrorMessage, this`PopupErrorMessageType, mod`InReadOnlyTransaction
      ensures var run := Close(UsingBlock(old(trace), leaving, completed, success, message, returnedEarly, None, 0, None), env);
              && outcome == run.outcome
              && trace == run.trace
              && committed == run.committed && !mod.InReadOnlyTransaction
              && PopupAfter(run.popup, old(PopupErrorMessage), old(PopupErrorMessageType),
                            PopupErrorMessage, PopupErrorMessageType)
    {
      // Dispose
      var thrown, early := leaving, returnedEarly;
      committed := completed;
      if DisposeScope in env.faults {
        thrown, early, committed := Some(env.faults[DisposeScope]), false, false;
      }
      trace := trace + [ScopeDisposed(committed)];
      var ok, text := success, message;
      if thrown.Some? && !IsRethrown(thrown.value) {
        ok := false;
        var errorText := ComposeErrorText(thrown.value);
        text := FailurePrefix + errorText + FailureSuffix;
        PopupErrorMessage := Some(text);
        PopupErrorMessageType := Some(ErrorPopupType);
      }
      // finally
      mod.InReadOnlyTransaction := false;
      trace := trace + [ReadOnlyTransactionEnded];
      if thrown.Some? && IsRethrown(thrown.value) {
        outcome := Propagated(thrown.value);
      } else if early && thrown.None? {
        outcome := ReturnedEarly;
      } else {
        trace := trace + [TaskSetCompleted(ok, text)];
        outcome := Reported(ok, text);
      }
    }

    /** RunTasks: one install of `mod`, inside one transaction. */
    method RunTasks(env: Collaborators) returns (outcome: RunOutcome)
      modifies this, mod
      ensures var run := InstallModel(old(trace), mod.Filename, mod.HasInstallScript, env);
              && outcome == run.outcome
              && trace == run.trace
              && committed == run.committed
              && saveListCalls == old(saveListCalls) + run.saveListCalls
              && mod.InstallDate == (if run.installDate.Some? then run.installDate else old(mod.InstallDate))
              && PopupAfter(run.popup, old(PopupErrorMessage), old(PopupErrorMessageType),
                            PopupErrorMessage, PopupErrorMessageType)
      ensures !mod.InReadOnlyTransaction
    {
      ghost var b := UsingModel(trace, mod.Filename, mod.HasInstallScript, env);
      ghost var popup0, popupType0 := PopupErrorMessage, PopupErrorMessageType;
      var thrown, completed, success, message, returnedEarly := RunUsingBlock(env);
      ghost var popup1, popupType1 := PopupErrorMessage, PopupErrorMessageType;
      outcome := FinishRun(env, thrown, completed, success, message, returnedEarly);
      CloseKeepsBookkeeping(b, env);
      ghost var closed := Close(UsingBlock(b.trace, thrown, completed, success, message, returnedEarly, None, 0, None), env);
      PopupAfterThen(b.popup, closed.popup, popup0, popupType0, popup1, popupType1,
                     PopupErrorMessage, PopupErrorMessageType);
    }
  }

  // ---------------------------------------------------------------------
  // Properties
  // ---------------------------------------------------------------------

  /** The message reported when the mod file does not exist (and the scope
      is disposed without error); nothing but the scope disposal, the end of
      the read-only transaction and the report happen. */
  lemma MissingModFileFails(filename: string, hasInstallScript: bool, env: Collaborators)
    requires !env.modFileExists && DisposeScope !in env.faults
    ensures var m := "A problem occurred during install: " + NewLine
                   + "The selected file was not found: " + filename + NewLine
                   + "The mod was not installed.";
            var run := InstallModel([], filename, hasInstallScript, env);
            && run.outcome == Reported(false, m)
            && run.trace == [ScopeDisposed(false), ReadOnlyTransactionEnded, TaskSetCompleted(false, m)]
            && run.popup == Some(m)
            && !run.committed && run.saveListCalls == 0 && run.installDate.None?
  {
    MissingFileMessageText(filename);
  }

  /** When PrepareMod returns false (and the rollback does not throw),
      RunTasks returns early: nothing is
      registered, run, committed or reported, but the read-only transaction
      still ends. */
  lemma EarlyReturnWhenPrepareFails(filename: string, hasInstallScript: bool, env: Collaborators)
    requires env.modFileExists && PrepareMod !in env.faults && !env.prepareSucceeds
    requires DisposeScope !in env.faults
    ensures var run := InstallModel([], filename, hasInstallScript, env);
            && run.outcome == ReturnedEarly
            && run.trace == [TaskStarted(PrepareModTask), Called(PrepareMod), ScopeDisposed(false), ReadOnlyTransactionEnded]
            && !run.committed && run.saveListCalls == 0 && run.installDate.None? && run.popup.None?
  {
  }

  /** RunScript as RunTasks calls it, after preparation and registration. */
  function ScriptStage(t: seq<Event>, filename: string, hasInstallScript: bool, env: Collaborators): ScriptRun {
    RunScriptModel(t + [TaskStarted(PrepareModTask)] + [Called(PrepareMod)] + [Called(AddActiveMod)],
                   filename, hasInstallScript, env)
  }

  /** When neither the preparation, the registration, the completion, the
      save nor the disposal of the scope throws, the transaction commits, the install date is stamped and
      the activation list is saved exactly once if and only if RunScript
      returned true; when RunScript returned false the mod is reported as
      not activated. */
  lemma CommitIffScriptSucceeds(t: seq<Event>, filename: string, hasInstallScript: bool, env: Collaborators)
    requires env.modFileExists && env.prepareSucceeds
    requires PrepareMod !in env.faults && AddActiveMod !in env.faults
    requires CompleteTransaction !in env.faults && SaveActivationList !in env.faults
    requires DisposeScope !in env.faults
    ensures var run := InstallModel(t, filename, hasInstallScript, env);
            var ok := ScriptStage(t, filename, hasInstallScript, env).result == Normal(true);
            && (run.committed <==> ok)
            && (run.installDate == Some(env.now) <==> ok)
            && (run.installDate.None? <==> !ok)
            && run.saveListCalls == (if ok then 1 else 0)
            && (ok ==> run.outcome == Reported(true, ActivatedMessage))
            && (ScriptStage(t, filename, hasInstallScript, env).result == Normal(false)
                ==> run.outcome == Reported(false, NotActivatedMessage))
  {
  }

  /** Whatever the inputs: a commit happens only after RunScript returned
      true, and then the install date is stamped and the activation list is
      saved exactly once; a reported success always committed. */
  lemma CommitOnlyAfterSuccess(t: seq<Event>, filename: string, hasInstallScript: bool, env: Collaborators)
    ensures var run := InstallModel(t, filename, hasInstallScript, env);
            && (run.committed ==> ScriptStage(t, filename, hasInstallScript, env).result == Normal(true)
                                  && run.installDate == Some(env.now) && run.saveListCalls == 1)
            && run.saveListCalls <= 1
            && (run.outcome.Reported? && run.outcome.success ==> run.committed)
  {
    UsingBlockCommits(t, filename, hasInstallScript, env);
  }

  /** The `using` block reaches `Complete` only after RunScript returned
      true, and then it has stamped the date and saved the list once. */
  lemma UsingBlockCommits(t: seq<Event>, filename: string, hasInstallScript: bool, env: Collaborators)
    ensures var b := UsingModel(t, filename, hasInstallScript, env);
            && (b.completed ==> ScriptStage(t, filename, hasInstallScript, env).result == Normal(true)
                                && b.stamp == Some(env.now) && b.saves == 1)
            && b.saves <= 1
            && (b.thrown.None? && !b.returnedEarly && b.success ==> b.completed)
  {
    if env.modFileExists && PrepareMod !in env.faults && env.prepareSucceeds && AddActiveMod !in env.faults {
      var s := ScriptStage(t, filename, hasInstallScript, env);
      assert UsingModel(t, filename, hasInstallScript, env) == CommitStage(s.trace, s.result, env).(popup := s.popup);
    }
  }

  /** The events that are calls or task starts. */
  ghost predicate OnlyCalls(events: seq<Event>) {
    forall k :: 0 <= k < |events| ==> events[k].TaskStarted? || events[k].Called?
  }

  lemma ExecutorOnlyCalls(t: seq<Event>, env: Collaborators)
    requires OnlyCalls(t)
    ensures OnlyCalls(ExecutorRun(t, env).trace)
  {
  }

  lemma OnlyCallsSnoc(t: seq<Event>, e: Event)
    requires OnlyCalls(t) && (e.TaskStarted? || e.Called?)
    ensures OnlyCalls(t + [e])
  {
    assert forall k :: 0 <= k < |t| ==> (t + [e])[k] == t[k];
  }

  lemma BasicInstallOnlyCalls(t: seq<Event>, files: Option<seq<FilePair>>, env: Collaborators)
    requires OnlyCalls(t)
    ensures OnlyCalls(BasicInstallRun(t, files, env).trace)
  {
    OnlyCallsSnoc(t, TaskStarted(BasicInstallTask(files)));
    OnlyCallsSnoc(t + [TaskStarted(BasicInstallTask(files))], Called(BasicInstall));
  }

  lemma DispatchOnlyCalls(t: seq<Event>, filename: string, hasInstallScript: bool, env: Collaborators)
    requires OnlyCalls(t)
    ensures OnlyCalls(DispatchRun(t, filename, hasInstallScript, env).trace)
  {
    if !hasInstallScript {
      BasicInstallOnlyCalls(t, None, env);
    } else if CheckScriptedModLog(env.scriptedLog, filename) {
      match LoadedFileList(env.scriptedLog, filename)
      case Thrown(_) =>
      case Normal(files) => BasicInstallOnlyCalls(t, files, env);
    } else {
      ExecutorOnlyCalls(t, env);
    }
  }

  lemma RunScriptOnlyCalls(t: seq<Event>, filename: string, hasInstallScript: bool, env: Collaborators)
    requires OnlyCalls(t)
    ensures OnlyCalls(RunScriptModel(t, filename, hasInstallScript, env).trace)
  {
    var created := t + [Called(CreateFileInstaller)];
    OnlyCallsSnoc(t, Called(CreateFileInstaller));
    DispatchOnlyCalls(created, filename, hasInstallScript, env);
    OnlyCallsSnoc(DispatchRun(created, filename, hasInstallScript, env).trace, Called(FinalizeFileInstall));
  }

  lemma UsingOnlyCalls(t: seq<Event>, filename: string, hasInstallScript: bool, env: Collaborators)
    requires OnlyCalls(t)
    ensures OnlyCalls(UsingModel(t, filename, hasInstallScript, env).trace)
  {
    var started := t + [TaskStarted(PrepareModTask)];
    OnlyCallsSnoc(t, TaskStarted(PrepareModTask));
    OnlyCallsSnoc(started, Called(PrepareMod));
    OnlyCallsSnoc(started + [Called(PrepareMod)], Called(AddActiveMod));
    RunScriptOnlyCalls(started + [Called(PrepareMod)] + [Called(AddActiveMod)], filename, hasInstallScript, env);
  }

  /** What every run ends with: the scope is disposed, then the read-only
      transaction ends, then the task set is reported unless the run
      returned early or rethrew. */
  function Closing(run: InstallRun): seq<Event> {
    [ScopeDisposed(run.committed), ReadOnlyTransactionEnded]
      + (if run.outcome.Reported? then [TaskSetCompleted(run.outcome.success, run.outcome.message)] else [])
  }

  /** On every exit path, including the early return and the rethrows, the
      read-only transaction is ended exactly once, after the transaction
      scope is disposed and before the task set is reported; everything
      before it is a task start or a call. */
  lemma ReadOnlyTransactionAlwaysEnds(filename: string, hasInstallScript: bool, env: Collaborators)
    ensures var run := InstallModel([], filename, hasInstallScript, env);
            && |Closing(run)| <= |run.trace|
            && run.trace[|run.trace| - |Closing(run)|..] == Closing(run)
            && OnlyCalls(run.trace[..|run.trace| - |Closing(run)|])
  {
    var run := InstallModel([], filename, hasInstallScript, env);
    var body := UsingModel([], filename, hasInstallScript, env).trace;
    UsingOnlyCalls([], filename, hasInstallScript, env);
    assert run.trace == body + Closing(run);
    assert run.trace[..|run.trace| - |Closing(run)|] == body;
  }

  /** An exception thrown by the install log while registering the mod:
      TransactionException, SecurityException and ObjectDisposedException
      leave RunTasks unchanged; any other ends the run as a failure whose
      message, also set as the error popup, is the composed one. */
  lemma ExceptionClassification(t: seq<Event>, filename: string, hasInstallScript: bool, env: Collaborators)
    requires env.modFileExists && env.prepareSucceeds && PrepareMod !in env.faults
    requires AddActiveMod in env.faults && DisposeScope !in env.faults
    ensures var e := env.faults[AddActiveMod];
            var run := InstallModel(t, filename, hasInstallScript, env);
            && !run.committed
            && (IsRethrown(e) ==> run.outcome == Propagated(e) && run.popup.None?)
            && (!IsRethrown(e) ==>
                  (run.outcome == Reported(false, FailureMessage(e)) && run.popup == Some(FailureMessage(e))))
  {
  }

  /** The exception that leaves the `using` statement, if any: Dispose's
      own, or else the one that left the block. */
  function Leaving(b: UsingBlock, env: Collaborators): Option<Exception> {
    if DisposeScope in env.faults then Some(env.faults[DisposeScope]) else b.thrown
  }

  /** For every input, whatever step threw: the exception leaving the
      `using` statement is rethrown unchanged when it is a transaction,
      security or object-disposed exception, and any other is reported as a
      failure whose composed message is also the popup. Without one, the run
      returns early or reports the block's own result. The transaction
      commits exactly when `Complete` was reached and the disposal did not
      throw. */
  lemma EveryExceptionClassified(t: seq<Event>, filename: string, hasInstallScript: bool, env: Collaborators)
    ensures var b := UsingModel(t, filename, hasInstallScript, env);
            var run := InstallModel(t, filename, hasInstallScript, env);
            var e := Leaving(b, env);
            && (e.Some? && IsRethrown(e.value) ==> run.outcome == Propagated(e.value))
            && (e.Some? && !IsRethrown(e.value) ==>
                  run.outcome == Reported(false, FailureMessage(e.value)) && run.popup == Some(FailureMessage(e.value)))
            && (e.None? ==> run.outcome == (if b.returnedEarly then ReturnedEarly else Reported(b.success, b.message)))
            && run.committed == (b.completed && DisposeScope !in env.faults)
  {
  }

  /** The exceptions the installer can meet: one a collaborator throws, the
      missing-file exception RunTasks raises itself, the null dereference of
      the ini installer, or the log loader's own. */
  predicate PassedOn(e: Exception, filename: string, env: Collaborators) {
    e in env.faults.Values || e == MissingModFile(filename) || e == NullReference()
    || LoadedFileList(env.scriptedLog, filename) == Thrown(e)
  }

  /** RunScript passes on the exceptions it meets unchanged. */
  lemma ScriptExceptionsPassedOn(t: seq<Event>, filename: string, hasInstallScript: bool, env: Collaborators)
    ensures var r := RunScriptModel(t, filename, hasInstallScript, env).result;
            r.Thrown? ==> PassedOn(r.exn, filename, env)
  {
    var created := t + [Called(CreateFileInstaller)];
    if CreateFileInstaller !in env.faults {
      DispatchPassesOn(created, filename, hasInstallScript, env);
    }
  }

  lemma DispatchPassesOn(t: seq<Event>, filename: string, hasInstallScript: bool, env: Collaborators)
    ensures var r := DispatchRun(t, filename, hasInstallScript, env).result;
            r.Thrown? ==> PassedOn(r.exn, filename, env)
  {
    if hasInstallScript && !CheckScriptedModLog(env.scriptedLog, filename) {
      ExecutorPassesOn(t, env, filename);
    }
  }

  lemma ExecutorPassesOn(t: seq<Event>, env: Collaborators, filename: string)
    ensures var r := ExecutorRun(t, env).result;
            r.Thrown? ==> PassedOn(r.exn, filename, env)
  {
    var ini := t + [Called(CreateIniInstaller)];
    var gsv := ini + [Called(CreateGameSpecificValueInstaller)];
    var executed := gsv + [Called(ExecuteScript)];
    if CreateIniInstaller in env.faults {
    } else if CreateGameSpecificValueInstaller in env.faults {
      FinalizePassesOn(gsv, false, false, Some(env.faults[CreateGameSpecificValueInstaller].message), env, filename);
    } else if ExecuteScript in env.faults {
      FinalizePassesOn(executed, env.hasGameSpecificValueInstaller, false, Some(env.faults[ExecuteScript].message),
                       env, filename);
    } else {
      FinalizePassesOn(executed, env.hasGameSpecificValueInstaller, env.scriptSucceeds, None, env, filename);
    }
  }

  lemma FinalizePassesOn(t: seq<Event>, gsvCreated: bool, result: bool, popup: Option<string>, env: Collaborators,
                         filename: string)
    ensures var r := FinalizeRun(t, gsvCreated, result, popup, env).result;
            r.Thrown? ==> PassedOn(r.exn, filename, env)
  {
  }

  /** After RunScript, the block only adds the exceptions of `Complete` and
      `SaveList`. */
  lemma CommitStagePassesOn(trace: seq<Event>, result: Completion<bool, Exception>, filename: string,
                            env: Collaborators)
    requires result.Thrown? ==> PassedOn(result.exn, filename, env)
    ensures var b := CommitStage(trace, result, env);
            b.thrown.Some? ==> PassedOn(b.thrown.value, filename, env)
  {
  }

  /** No exception is wrapped or invented inside the `using` block: the one
      that leaves it is one the installer met. */
  lemma UsingExceptionsPassedOn(t: seq<Event>, filename: string, hasInstallScript: bool, env: Collaborators)
    ensures var b := UsingModel(t, filename, hasInstallScript, env);
            b.thrown.Some? ==> PassedOn(b.thrown.value, filename, env)
  {
    if env.modFileExists && PrepareMod !in env.faults && env.prepareSucceeds && AddActiveMod !in env.faults {
      var s := ScriptStage(t, filename, hasInstallScript, env);
      ScriptExceptionsPassedOn(t + [TaskStarted(PrepareModTask)] + [Called(PrepareMod)] + [Called(AddActiveMod)],
                               filename, hasInstallScript, env);
      CommitStagePassesOn(s.trace, s.result, filename, env);
    }
  }

  /** The exception RunTasks rethrows is one the installer met, unchanged. */
  lemma ThrownExceptionsPassedOn(t: seq<Event>, filename: string, hasInstallScript: bool, env: Collaborators)
    ensures var run := InstallModel(t, filename, hasInstallScript, env);
            run.outcome.Propagated? ==> PassedOn(run.outcome.exn, filename, env)
  {
    var b := UsingModel(t, filename, hasInstallScript, env);
    UsingExceptionsPassedOn(t, filename, hasInstallScript, env);
    var run := InstallModel(t, filename, hasInstallScript, env);
    assert run.outcome.Propagated? ==> Leaving(b, env) == Some(run.outcome.exn);
  }

  /** Only the three infrastructure exceptions ever leave RunTasks, and a
      reported failure is either "not activated" or a composed failure
      message that is also the popup. */
  lemma OnlyInfrastructureExceptionsPropagate(t: seq<Event>, filename: string, hasInstallScript: bool, env: Collaborators)
    ensures var run := InstallModel(t, filename, hasInstallScript, env);
            && (run.outcome.Propagated? ==> IsRethrown(run.outcome.exn))
            && (run.outcome.Reported? && !run.outcome.success && run.outcome.message != NotActivatedMessage
                ==> run.popup == Some(run.outcome.message))
  {
  }

  /** A mod without an install script gets a basic install of all its files
      (a null list), then its file installer is finalized. */
  lemma NoScriptRunsBasicInstall(filename: string, env: Collaborators)
    requires CreateFileInstaller !in env.faults && BasicInstall !in env.faults && FinalizeFileInstall !in env.faults
    ensures RunScriptModel([], filename, false, env)
         == ScriptRun([Called(CreateFileInstaller), TaskStarted(BasicInstallTask(None)), Called(BasicInstall),
                       Called(FinalizeFileInstall)],
                      Normal(env.basicInstallSucceeds), None)
  {
  }

  /** A scripted mod with a replay log gets a basic install of the list read
      from the log, and its script is not executed. */
  lemma ReplayLogRunsBasicInstall(filename: string, env: Collaborators)
    requires CreateFileInstaller !in env.faults && BasicInstall !in env.faults && FinalizeFileInstall !in env.faults
    requires CheckScriptedModLog(env.scriptedLog, filename)
    requires LoadedFileList(env.scriptedLog, filename).Normal?
    ensures var s := RunScriptModel([], filename, true, env);
            var files := LoadedFileList(env.scriptedLog, filename).value;
            && s.trace == [Called(CreateFileInstaller), TaskStarted(BasicInstallTask(files)), Called(BasicInstall),
                           Called(FinalizeFileInstall)]
            && Called(ExecuteScript) !in s.trace
            && s.result == Normal(env.basicInstallSucceeds)
  {
    var files := LoadedFileList(env.scriptedLog, filename).value;
    var created := [] + [Called(CreateFileInstaller)];
    assert created == [Called(CreateFileInstaller)];
    var d := DispatchRun(created, filename, true, env);
    assert d == BasicInstallRun(created, files, env);
    BasicInstallThenFinalize(files, env);
    assert RunScriptModel([], filename, true, env) == ScriptRun(d.trace + [Called(FinalizeFileInstall)], d.result, d.popup);
  }

  /** The basic install after the file installer is created, followed by
      the finalization of that installer. */
  lemma BasicInstallThenFinalize(files: Option<seq<FilePair>>, env: Collaborators)
    requires BasicInstall !in env.faults
    ensures var d := BasicInstallRun([Called(CreateFileInstaller)], files, env);
            && d.trace + [Called(FinalizeFileInstall)]
               == [Called(CreateFileInstaller), TaskStarted(BasicInstallTask(files)), Called(BasicInstall),
                   Called(FinalizeFileInstall)]
            && Called(ExecuteScript) !in d.trace + [Called(FinalizeFileInstall)]
            && d.result == Normal(env.basicInstallSucceeds)
  {
  }

  /** A scripted mod without a replay log goes to the script executor, and
      no basic install runs. */
  lemma NoReplayLogRunsExecutor(filename: string, env: Collaborators)
    requires CreateFileInstaller !in env.faults && CreateIniInstaller !in env.faults
    requires CreateGameSpecificValueInstaller !in env.faults
    requires !CheckScriptedModLog(env.scriptedLog, filename)
    ensures var s := RunScriptModel([], filename, true, env);
            && Called(ExecuteScript) in s.trace
            && Called(BasicInstall) !in s.trace
  {
    var created := [] + [Called(CreateFileInstaller)];
    assert DispatchRun(created, filename, true, env) == ExecutorRun(created, env);
    ExecutorRunsScript(created, env);
  }

  /** Once the ini and game-specific installers are created, the script is
      executed, and the executor stage itself runs no basic install. */
  lemma ExecutorRunsScript(t: seq<Event>, env: Collaborators)
    requires CreateIniInstaller !in env.faults && CreateGameSpecificValueInstaller !in env.faults
    requires Called(BasicInstall) !in t
    ensures var r := ExecutorRun(t, env).trace;
            && Called(ExecuteScript) in r
            && Called(BasicInstall) !in r
  {
    var executed := t + [Called(CreateIniInstaller)] + [Called(CreateGameSpecificValueInstaller)]
                      + [Called(ExecuteScript)];
    assert executed[|executed| - 1] == Called(ExecuteScript);
  }

  /** When RunScript returns, the file installer's finalization was its
      last call, and it was made once. */
  lemma FileInstallerFinalizedLast(t: seq<Event>, filename: string, hasInstallScript: bool, env: Collaborators)
    requires Called(FinalizeFileInstall) !in t
    requires RunScriptModel(t, filename, hasInstallScript, env).result.Normal?
    ensures var r := RunScriptModel(t, filename, hasInstallScript, env).trace;
            && |r| > 0 && r[|r| - 1] == Called(FinalizeFileInstall)
            && Called(FinalizeFileInstall) !in r[..|r| - 1]
  {
    var r := RunScriptModel(t, filename, hasInstallScript, env).trace;
    var d := DispatchRun(t + [Called(CreateFileInstaller)], filename, hasInstallScript, env);
    DispatchNeverFinalizesFiles(t + [Called(CreateFileInstaller)], filename, hasInstallScript, env);
    assert r[..|r| - 1] == d.trace;
  }

  /** None of the three dispatch branches finalizes the file installer. */
  lemma DispatchNeverFinalizesFiles(t: seq<Event>, filename: string, hasInstallScript: bool, env: Collaborators)
    requires Called(FinalizeFileInstall) !in t
    ensures Called(FinalizeFileInstall) !in DispatchRun(t, filename, hasInstallScript, env).trace
  {
    if hasInstallScript && !CheckScriptedModLog(env.scriptedLog, filename) {
      ExecutorNeverFinalizesFiles(t, env);
    }
  }

  lemma ExecutorNeverFinalizesFiles(t: seq<Event>, env: Collaborators)
    requires Called(FinalizeFileInstall) !in t
    ensures Called(FinalizeFileInstall) !in ExecutorRun(t, env).trace
  {
  }

  /** An exception from the script executor is swallowed: the result is
      false, the popup carries its message, and the ini, game-specific and
      file installers are all still finalized. */
  lemma ExecutorExceptionIsSwallowed(filename: string, env: Collaborators)
    requires !CheckScriptedModLog(env.scriptedLog, filename)
    requires ExecuteScript in env.faults
    requires CreateFileInstaller !in env.faults && CreateIniInstaller !in env.faults
    requires CreateGameSpecificValueInstaller !in env.faults
    requires FinalizeIniInstall !in env.faults && FinalizeGameSpecificValueInstall !in env.faults
    requires FinalizeFileInstall !in env.faults
    ensures var s := RunScriptModel([], filename, true, env);
            && s.result == Normal(false)
            && s.popup == Some(env.faults[ExecuteScript].message)
            && s.trace == [Called(CreateFileInstaller), Called(CreateIniInstaller),
                           Called(CreateGameSpecificValueInstaller), Called(ExecuteScript),
                           Called(FinalizeIniInstall)]
                          + (if env.hasGameSpecificValueInstaller then [Called(FinalizeGameSpecificValueInstall)] else [])
                          + [Called(FinalizeFileInstall)]
  {
  }

  /** An exception thrown before the ini installer exists is swallowed too,
      but the unconditional `iniInstaller.FinalizeInstall()` then throws a
      NullReferenceException: no installer is finalized and the install
      fails with the null-reference message instead of the original one. */
  lemma IniInstallerFailureDereferencesNull(filename: string, env: Collaborators)
    requires env.modFileExists && env.prepareSucceeds
    requires PrepareMod !in env.faults && AddActiveMod !in env.faults && CreateFileInstaller !in env.faults
    requires !CheckScriptedModLog(env.scriptedLog, filename)
    requires CreateIniInstaller in env.faults && DisposeScope !in env.faults
    ensures var s := RunScriptModel([], filename, true, env);
            && s.result == Thrown(NullReference())
            && s.popup == Some(env.faults[CreateIniInstaller].message)
            && s.trace == [Called(CreateFileInstaller), Called(CreateIniInstaller)]
    ensures InstallModel([], filename, true, env).outcome == Reported(false, FailureMessage(NullReference()))
  {
  }
}
