/** The exceptions the mod installer can meet, and the one error message it
    composes from an exception it catches (ModInstaller.RunTasks). */
module InstallErrors {
  import opened Common

  /** One failing participant of a rolled-back transaction: the resource
      manager's display name and the exception it raised. */
  datatype ExceptedResourceManager =
    ExceptedResourceManager(resourceManager: string, message: string, innerMessage: Option<string>)

  /** The exception classes the installer tells apart. */
  datatype ExceptionKind =
    | General                                 // any other exception
    | FileNotFound(fileName: string)          // FileNotFoundException
    | IllegalFilePath(path: string)           // IllegalFilePathException
    | Rollback(exceptedResourceManagers: seq<ExceptedResourceManager>)  // RollbackException
    | TransactionFailure                      // TransactionException and its subclasses
    | SecurityViolation                       // SecurityException
    | ObjectDisposed                          // ObjectDisposedException

  /** An exception: its class, its message and the message of its inner
      exception, if it has one. */
  datatype Exception = Exception(kind: ExceptionKind, message: string, innerMessage: Option<string>)

  /** The exceptions RunTasks rethrows instead of reporting. */
  predicate IsRethrown(e: Exception) {
    e.kind.TransactionFailure? || e.kind.SecurityViolation? || e.kind.ObjectDisposed?
  }

  /** The message of the NullReferenceException the runtime raises when a
      null reference is dereferenced. */
  const NullReferenceMessage: string := "Object reference not set to an instance of an object."

  function NullReference(): Exception {
    Exception(General, NullReferenceMessage, None)
  }

  /** The plain exception RunTasks throws when the mod file does not exist. */
  function MissingModFile(filename: string): Exception {
    Exception(General, "The selected file was not found: " + filename, None)
  }

  /** What `AppendLine` adds for one excepted resource manager. */
  function ManagerLine(m: ExceptedResourceManager): string {
    (m.resourceManager + NewLine) + (m.message + NewLine)
      + (if m.innerMessage.Some? then m.innerMessage.value + NewLine else "")
  }

  /** The lines for all excepted resource managers, in list order. */
  function ManagerLines(ms: seq<ExceptedResourceManager>): string {
    if ms == [] then "" else ManagerLine(ms[0]) + ManagerLines(ms[1..])
  }

  /** The text before the resource-manager lines: the message, the file name
      or path for the two exceptions that carry one, and the inner message. */
  function ErrorHead(e: Exception): string {
    e.message
      + (match e.kind
         case FileNotFound(f) => " (" + f + ")"
         case IllegalFilePath(p) => " (" + p + ")"
         case _ => "")
      + (if e.innerMessage.Some? then NewLine + e.innerMessage.value + NewLine else "")
  }

  /** The text the StringBuilder in RunTasks holds once it is done. */
  function ErrorText(e: Exception): string {
    ErrorHead(e) + (if e.kind.Rollback? then ManagerLines(e.kind.exceptedResourceManagers) else "")
  }

  const FailurePrefix: string := "A problem occurred during install: " + NewLine
  const FailureSuffix: string := NewLine + "The mod was not installed."

  /** The final message of an install that ended in a caught exception. */
  function FailureMessage(e: Exception): string {
    FailurePrefix + ErrorText(e) + FailureSuffix
  }

  /** The lines of a concatenated list are the lines of each part. */
  lemma {:induction false} ManagerLinesAppend(a: seq<ExceptedResourceManager>, b: seq<ExceptedResourceManager>)
    ensures ManagerLines(a + b) == ManagerLines(a) + ManagerLines(b)
  {
    if a == [] {
      assert a + b == b;
    } else {
      assert (a + b)[1..] == a[1..] + b;
      ManagerLinesAppend(a[1..], b);
    }
  }

  /** Taking one more excepted resource manager adds its line at the end. */
  lemma ManagerLinesSnoc(ms: seq<ExceptedResourceManager>, i: nat)
    requires i < |ms|
    ensures ManagerLines(ms[..i + 1]) == ManagerLines(ms[..i]) + ManagerLine(ms[i])
  {
    assert ms[..i + 1] == ms[..i] + [ms[i]];
    ManagerLinesAppend(ms[..i], [ms[i]]);
    assert ManagerLines([ms[i]]) == ManagerLine(ms[i]) + ManagerLines([]);
  }

  /** Every excepted resource manager is reported at its place in the list:
      after all those before it and before all those after it. */
  lemma {:induction false} ManagerLinesInOrder(ms: seq<ExceptedResourceManager>, i: nat)
    requires i < |ms|
    ensures ManagerLines(ms) == ManagerLines(ms[..i]) + ManagerLine(ms[i]) + ManagerLines(ms[i + 1..])
  {
    assert ms == ms[..i] + ([ms[i]] + ms[i + 1..]);
    ManagerLinesAppend(ms[..i], [ms[i]] + ms[i + 1..]);
    assert ([ms[i]] + ms[i + 1..])[1..] == ms[i + 1..];
  }

  /** The composition done by the catch block of RunTasks: the message, the
      file name or path, the inner message, then one entry per excepted
      resource manager in list order. */
  method ComposeErrorText(e: Exception) returns (text: string)
    ensures text == ErrorText(e)
  {
    text := e.message;
    match e.kind {
      case FileNotFound(f) => text := text + (" (" + f + ")");
      case IllegalFilePath(p) => text := text + (" (" + p + ")");
      case _ =>
    }
    if e.innerMessage.Some? {
      text := text + NewLine;
      text := text + (e.innerMessage.value + NewLine);
    }
    if e.kind.Rollback? {
      text := AppendManagerLines(text, e.kind.exceptedResourceManagers);
    }
  }

  /** The `foreach` over the excepted resource managers: appends each one's
      name, its exception's message and, when present, its inner message. */
  method AppendManagerLines(head: string, ms: seq<ExceptedResourceManager>) returns (text: string)
    ensures text == head + ManagerLines(ms)
  {
    text := head;
    var i := 0;
    while i < |ms|
      invariant 0 <= i <= |ms|
      invariant text == head + ManagerLines(ms[..i])
    {
      var entry := ms[i].resourceManager + NewLine;
      entry := entry + (ms[i].message + NewLine);
      if ms[i].innerMessage.Some? {
        entry := entry + (ms[i].innerMessage.value + NewLine);
      }
      ManagerLinesSnoc(ms, i);
      text := text + entry;
      i := i + 1;
    }
    assert ms[..i] == ms;
  }

  /** The composed error text begins with the exception's own message. */
  lemma ErrorTextStartsWithMessage(e: Exception)
    ensures |e.message| <= |ErrorText(e)| && ErrorText(e)[..|e.message|] == e.message
  {
  }

  /** The final message determines the composed error text: the fixed
      frame around it can be taken off again. */
  lemma FailureMessageDeterminesErrorText(e1: Exception, e2: Exception)
    requires FailureMessage(e1) == FailureMessage(e2)
    ensures ErrorText(e1) == ErrorText(e2)
  {
    var m := FailureMessage(e1);
    var lo, hi := |FailurePrefix|, |m| - |FailureSuffix|;
    assert m[lo..hi] == ErrorText(e1);
    assert FailureMessage(e2)[lo..hi] == ErrorText(e2);
  }

  /** The message reported for a missing mod file names that file, so two
      different missing files never give the same message. */
  lemma MissingFileMessageNamesFile(f1: string, f2: string)
    requires FailureMessage(MissingModFile(f1)) == FailureMessage(MissingModFile(f2))
    ensures f1 == f2
  {
    FailureMessageDeterminesErrorText(MissingModFile(f1), MissingModFile(f2));
    var p := "The selected file was not found: ";
    assert ErrorText(MissingModFile(f1)) == p + f1;
    assert ErrorText(MissingModFile(f2)) == p + f2;
    assert (p + f1)[|p|..] == f1;
    assert (p + f2)[|p|..] == f2;
  }

  /** The full text reported when the mod file is missing. */
  lemma MissingFileMessageText(f: string)
    ensures FailureMessage(MissingModFile(f))
         == "A problem occurred during install: " + NewLine
          + "The selected file was not found: " + f + NewLine
          + "The mod was not installed."
  {
  }
}
