/** The scripted-install replay log: where the installer looks for it
    (ModInstaller.CheckScriptedModLog) and how it reads the list of files
    to install back from it (ModInstaller.LoadXMLModFilesToInstall).
    The file system and the XML parser are inputs: a set of existing
    directories and a map from existing file paths to their parsed content. */
module ScriptedLog {
  import opened Common
  import opened InstallErrors

  // ---------------------------------------------------------------------
  // Paths (System.IO.Path as the .NET Framework defines it on Windows)
  // ---------------------------------------------------------------------

  predicate IsSeparator(c: char) {
    c == '\\' || c == '/'
  }

  /** `Path.IsPathRooted`. */
  predicate IsPathRooted(p: string) {
    (|p| >= 1 && IsSeparator(p[0])) || (|p| >= 2 && p[1] == ':')
  }

  /** `Path.Combine(a, b)`. */
  function Combine(a: string, b: string): (r: string)
    ensures b != "" && !IsPathRooted(b) && a != "" ==> |r| > |a| && r[..|a|] == a
  {
    if b == "" then a
    else if a == "" then b
    else if IsPathRooted(b) then b
    else if IsSeparator(a[|a| - 1]) || a[|a| - 1] == ':' then a + b
    else a + "\\" + b
  }

  /** `Path.GetFileName`: what follows the last directory or volume separator. */
  function FileName(p: string): (r: string)
    ensures |r| <= |p| && r == p[|p| - |r|..]
    ensures forall i :: 0 <= i < |r| ==> !IsSeparator(r[i]) && r[i] != ':'
  {
    if p == [] then []
    else if IsSeparator(p[|p| - 1]) || p[|p| - 1] == ':' then []
    else FileName(p[..|p| - 1]) + [p[|p| - 1]]
  }

  /** Everything before the last '.', or the whole name when it has none. */
  function StripExtension(n: string): (r: string)
    ensures |r| <= |n| && r == n[..|r|]
    ensures '.' in n ==> |r| < |n| && n[|r|] == '.' && '.' !in n[|r| + 1..]
    ensures '.' !in n ==> r == n
  {
    if n == [] then []
    else if n[|n| - 1] == '.' then n[..|n| - 1]
    else if '.' in n[..|n| - 1] then
      var r := StripExtension(n[..|n| - 1]);
      assert n[|r| + 1..] == n[..|n| - 1][|r| + 1..] + [n[|n| - 1]];
      r
    else
      assert forall i :: 0 <= i < |n| ==> n[i] != '.' by {
        forall i | 0 <= i < |n| ensures n[i] != '.' {
          if i < |n| - 1 { assert n[i] == n[..|n| - 1][i]; }
        }
      }
      n
  }

  /** `Path.GetFileNameWithoutExtension`. */
  function FileNameWithoutExtension(p: string): string {
    StripExtension(FileName(p))
  }

  // ---------------------------------------------------------------------
  // The stored log
  // ---------------------------------------------------------------------

  /** A `File` element of the log's first `FileList`: its `FileFrom` and
      `FileTo` attribute values, None when the attribute is absent. */
  datatype FileElement = FileElement(fileFrom: Option<string>, fileTo: Option<string>)

  /** What `XDocument.Load` makes of a log file: an exception, or the `File`
      children of the first `FileList` element (None: no `FileList`). */
  datatype LogDocument = Unreadable(error: Exception) | Parsed(fileList: Option<seq<FileElement>>)

  /** The inputs the two helpers read: what the profile manager returns for
      the mod (None also when there is no profile manager), the game mode's
      install-info directory, and the file system. */
  datatype ScriptedLogStore = ScriptedLogStore(
    profileLogPath: Option<string>,
    installInfoDirectory: string,
    directories: set<string>,
    files: map<string, LogDocument>)

  /** One file to install: (FileFrom, FileTo). */
  type FilePair = (string, string)

  function ScriptedDirectory(store: ScriptedLogStore): string {
    Combine(store.installInfoDirectory, "Scripted")
  }

  /** `<InstallInfoDirectory>/Scripted/<mod file name without extension>.xml` */
  function DefaultLogPath(store: ScriptedLogStore, modFilename: string): string {
    Combine(ScriptedDirectory(store), FileNameWithoutExtension(modFilename)) + ".xml"
  }

  /** `CheckScriptedModLog`: the profile manager knows a log path that is not
      null or white space, or both the Scripted directory and the default log
      file exist. */
  predicate CheckScriptedModLog(store: ScriptedLogStore, modFilename: string)
    ensures store.profileLogPath.None? && CheckScriptedModLog(store, modFilename)
            ==> LogPathToLoad(store, modFilename) in store.files
  {
    !IsNullOrWhiteSpace(store.profileLogPath)
    || (ScriptedDirectory(store) in store.directories && DefaultLogPath(store, modFilename) in store.files)
  }

  /** The path `LoadXMLModFilesToInstall` reads: the profile manager's answer
      unless it is null, else the default path. */
  function LogPathToLoad(store: ScriptedLogStore, modFilename: string): string {
    store.profileLogPath.GetOr(DefaultLogPath(store, modFilename))
  }

  predicate HasAttributes(e: FileElement) {
    e.fileFrom.Some? && e.fileTo.Some?
  }

  predicate AllHaveAttributes(es: seq<FileElement>) {
    forall i :: 0 <= i < |es| ==> HasAttributes(es[i])
  }

  /** An element is collected when it has both attributes and its
      `FileFrom` is not empty or white space. */
  predicate IsKept(e: FileElement) {
    HasAttributes(e) && !IsNullOrWhiteSpace(e.fileFrom)
  }

  function PairOf(e: FileElement): FilePair
    requires HasAttributes(e)
  {
    (e.fileFrom.value, e.fileTo.value)
  }

  /** The pairs of the kept elements, in document order. */
  function KeptPairs(es: seq<FileElement>): (r: seq<FilePair>)
    ensures |r| <= |es|
    ensures forall k :: 0 <= k < |r| ==> !IsNullOrWhiteSpace(Some(r[k].0))
  {
    if es == [] then []
    else if IsKept(es[0]) then [PairOf(es[0])] + KeptPairs(es[1..])
    else KeptPairs(es[1..])
  }

  /** The list built from a parsed log: null when there is no `FileList`,
      when it has no `File` element, when some `File` element lacks an
      attribute (reading `.Value` of the missing attribute throws a
      NullReferenceException, whose message is not empty, so the catch
      block returns null), or when no element is kept. */
  function ReplayList(fileList: Option<seq<FileElement>>): Option<seq<FilePair>> {
    if fileList.None? || fileList.value == [] then None
    else if !AllHaveAttributes(fileList.value) then None
    else if KeptPairs(fileList.value) == [] then None
    else Some(KeptPairs(fileList.value))
  }

  /** The whole of `LoadXMLModFilesToInstall`: null when the file does not
      exist, the loader's exception when it cannot be parsed. */
  function LoadedFileList(store: ScriptedLogStore, modFilename: string): Completion<Option<seq<FilePair>>, Exception> {
    var path := LogPathToLoad(store, modFilename);
    if path !in store.files then Normal(None)
    else match store.files[path]
      case Unreadable(e) => Thrown(e)
      case Parsed(fileList) => Normal(ReplayList(fileList))
  }

  // ---------------------------------------------------------------------
  // Properties
  // ---------------------------------------------------------------------

  /** Keeping pairs distributes over concatenation: the filter keeps the
      document order. */
  lemma {:induction false} KeptPairsAppend(a: seq<FileElement>, b: seq<FileElement>)
    ensures KeptPairs(a + b) == KeptPairs(a) + KeptPairs(b)
  {
    if a == [] {
      assert a + b == b;
    } else {
      assert (a + b)[1..] == a[1..] + b;
      assert (a + b)[0] == a[0];
      KeptPairsAppend(a[1..], b);
    }
  }

  /** Each element is accounted for at its own place: a kept element's pair
      sits between the pairs of the elements before it and those after it,
      and a skipped one contributes nothing. */
  lemma KeptPairsAt(es: seq<FileElement>, i: nat)
    requires i < |es|
    ensures KeptPairs(es)
         == KeptPairs(es[..i]) + (if IsKept(es[i]) then [PairOf(es[i])] else []) + KeptPairs(es[i + 1..])
  {
    var before, from, after := es[..i], es[i..], es[i + 1..];
    assert from == [es[i]] + after by {
      assert |from| == 1 + |after|;
      assert forall k :: 0 <= k < |from| ==> from[k] == es[i + k];
    }
    assert es == before + from;
    KeptPairsAround(before, es[i], after);
  }

  /** The same, for a list given as the part before, the element and the
      part after. */
  lemma KeptPairsAround(before: seq<FileElement>, e: FileElement, after: seq<FileElement>)
    ensures KeptPairs(before + ([e] + after))
         == KeptPairs(before) + (if IsKept(e) then [PairOf(e)] else []) + KeptPairs(after)
  {
    var a, h, c := KeptPairs(before), (if IsKept(e) then [PairOf(e)] else []), KeptPairs(after);
    assert KeptPairs(before + ([e] + after)) == a + (h + c) by {
      KeptPairsAppend(before, [e] + after);
      KeptPairsCons(e, after);
    }
    assert a + (h + c) == a + h + c;
  }

  /** One element in front contributes its pair, if it is kept, in front. */
  lemma KeptPairsCons(e: FileElement, rest: seq<FileElement>)
    ensures KeptPairs([e] + rest) == (if IsKept(e) then [PairOf(e)] else []) + KeptPairs(rest)
  {
    assert ([e] + rest)[1..] == rest;
  }

  /** A list read back from the log is never empty and names no empty or
      white-space source. */
  lemma ReplayListIsNonEmpty(fileList: Option<seq<FileElement>>)
    requires ReplayList(fileList).Some?
    ensures |ReplayList(fileList).value| > 0
    ensures forall k :: 0 <= k < |ReplayList(fileList).value| ==> !IsNullOrWhiteSpace(Some(ReplayList(fileList).value[k].0))
  {
  }

  /** The check and the loader agree on which file is read, except in one
      case: when the profile manager returns a non-null, white-space path,
      the check ignores it, but the loader tries to read it. */
  lemma CheckAndLoadAgree(store: ScriptedLogStore, modFilename: string)
    ensures (store.profileLogPath.None? && CheckScriptedModLog(store, modFilename))
            ==> LogPathToLoad(store, modFilename) in store.files
    ensures !IsNullOrWhiteSpace(store.profileLogPath)
            ==> (CheckScriptedModLog(store, modFilename)
                 && LogPathToLoad(store, modFilename) == store.profileLogPath.value)
    ensures (store.profileLogPath.Some? && IsNullOrWhiteSpace(store.profileLogPath))
            ==> LogPathToLoad(store, modFilename) == store.profileLogPath.value
  {
  }

  /** The counterpart of the last case: with an empty or white-space (but
      not null) profile path that names no file, the check is exactly the
      default-log test, yet the loader reads the blank path and yields a null
      list even when the default log is there. */
  lemma WhiteSpaceProfilePathLoadsNothing(store: ScriptedLogStore, modFilename: string)
    requires store.profileLogPath.Some? && IsNullOrWhiteSpace(store.profileLogPath)
    requires store.profileLogPath.value !in store.files
    ensures CheckScriptedModLog(store, modFilename)
        <==> ScriptedDirectory(store) in store.directories && DefaultLogPath(store, modFilename) in store.files
    ensures LoadedFileList(store, modFilename) == Normal(None)
  {
  }

  /** The `foreach` over the `File` elements: reads both attributes of each
      element in turn and collects the pair when `FileFrom` is not empty or
      white space; stops with the NullReferenceException at the first
      element that lacks an attribute. */
  method WalkFileList(es: seq<FileElement>) returns (files: seq<FilePair>, caught: Option<Exception>)
    ensures caught.None? <==> AllHaveAttributes(es)
    ensures caught.None? ==> files == KeptPairs(es)
    ensures caught.Some? ==> caught.value == NullReference()
  {
    files, caught := [], None;
    var i := 0;
    while i < |es| && caught.None?
      invariant 0 <= i <= |es|
      invariant AllHaveAttributes(es[..i]) && files == KeptPairs(es[..i])
      invariant caught.Some? ==> caught == Some(NullReference()) && !AllHaveAttributes(es)
      decreases |es| - i, if caught.None? then 1 else 0
    {
      if es[i].fileFrom.None? || es[i].fileTo.None? {
        caught := Some(NullReference());
      } else {
        if !IsNullOrWhiteSpace(es[i].fileFrom) {
          files := files + [(es[i].fileFrom.value, es[i].fileTo.value)];
        }
        assert es[..i + 1] == es[..i] + [es[i]];
        assert forall k :: 0 <= k < i ==> es[..i + 1][k] == es[..i][k];
        KeptPairsAppend(es[..i], [es[i]]);
        i := i + 1;
      }
    }
    if caught.None? {
      assert es[..i] == es;
    }
  }

  /** `LoadXMLModFilesToInstall`: picks the path, loads the document, walks
      the `File` elements in order collecting the kept pairs, and returns
      null when the walk throws or collects nothing. */
  method LoadXmlModFilesToInstall(store: ScriptedLogStore, modFilename: string)
    returns (r: Completion<Option<seq<FilePair>>, Exception>)
    ensures r == LoadedFileList(store, modFilename)
  {
    var path: string;
    if store.profileLogPath.Some? {
      path := store.profileLogPath.value;
    } else {
      path := DefaultLogPath(store, modFilename);
    }
    assert path == LogPathToLoad(store, modFilename);
    if path !in store.files {
      return Normal(None);
    }
    match store.files[path] {
      case Unreadable(e) =>
        return Thrown(e);
      case Parsed(fileList) =>
        var files := CollectFiles(fileList);
        return Normal(files);
    }
  }

  /** The `try` block of `LoadXMLModFilesToInstall` and its `catch`: the
      walk over the `File` elements, the check that something was
      collected, and the handler that keeps the list only for an exception
      with an empty message. */
  method CollectFiles(fileList: Option<seq<FileElement>>) returns (r: Option<seq<FilePair>>)
    ensures r == ReplayList(fileList)
  {
    var files: seq<FilePair> := [];
    var caught: Option<Exception> := None;
    if fileList.Some? && |fileList.value| > 0 {
      files, caught := WalkFileList(fileList.value);
      if caught.None? && |files| > 0 {
        return Some(files);
      }
    }
    if caught.Some? && caught.value.message == "" && |files| > 0 {
      return Some(files);
    }
    return None;
  }
}
