/** The loader: finding the chapters directory, reading its `.snbt` files
    into a dictionary of raw values and validating each into a `Chapter`.
    The filesystem, the SNBT reader and the console are parameters: a
    `FileSystem` says what a path is, a `Reader` opens and parses one file,
    and the answers typed at the prompt are a finite sequence. */
module FtbLoader {
  import opened Wrappers
  import opened Text
  import opened Dicts
  import opened QuestModels

  // ---------------------------------------------------------------------------
  // The environment
  // ---------------------------------------------------------------------------

  /** What `os.path.isdir` and `os.listdir` report for a path. */
  datatype DirState =
    | NotADirectory                 // isdir is false: missing, or not a directory
    | Unlistable                    // a directory whose listing raises OSError
    | Listing(names: seq<string>)   // the entry names, in listing order

  type FileSystem = string -> DirState

  /** Opening a file and parsing it as SNBT: None when either raises. */
  type Reader = string -> Option<Raw>

  const SnbtSuffix := ".snbt"

  /** `os.path.join("config", "ftbquests", "quests", "chapters")` on POSIX. */
  const ChaptersRel := "config/ftbquests/quests/chapters"

  /** `os.path.join(a, b)` on POSIX: an absolute `b` replaces `a`, and a
      separator is added only when `a` is non-empty and does not end in one.
      The joined path ends with `b`, and starts with `a` unless `b` is
      absolute. */
  function PathJoin(a: string, b: string): (r: string)
    ensures EndsWith(r, b)
    ensures !StartsWith(b, "/") ==> StartsWith(r, a)
    ensures StartsWith(b, "/") ==> r == b
  {
    if StartsWith(b, "/") then b
    else
      var r := if a == [] || a[|a| - 1] == '/' then a + b else a + "/" + b;
      assert r[|r| - |b|..] == b;
      assert r[..|a|] == a;
      r
  }

  // ---------------------------------------------------------------------------
  // is_valid_chapters_dir
  // ---------------------------------------------------------------------------

  predicate IsSnbt(name: string) {
    EndsWith(name, SnbtSuffix)
  }

  /** `any(f.endswith(".snbt") for f in names)`: some name ends in ".snbt". */
  function AnySnbt(names: seq<string>): (r: bool)
    ensures r <==> exists i :: 0 <= i < |names| && IsSnbt(names[i])
  {
    if names == [] then false
    else
      assert forall i :: 1 <= i < |names| ==> names[i] == names[1..][i - 1];
      IsSnbt(names[0]) || AnySnbt(names[1..])
  }

  /** `is_valid_chapters_dir`: accepted exactly when the path lists and some
      entry ends in ".snbt"; a path that is not a directory, or whose listing
      fails, is refused. */
  predicate IsValidChaptersDir(fs: FileSystem, path: string)
    ensures IsValidChaptersDir(fs, path)
        <==> fs(path).Listing? && exists i :: 0 <= i < |fs(path).names| && IsSnbt(fs(path).names[i])
  {
    match fs(path)
    case NotADirectory => false
    case Unlistable => false
    case Listing(names) => AnySnbt(names)
  }

  // ---------------------------------------------------------------------------
  // find_chapters_directory
  // ---------------------------------------------------------------------------

  /** How the search ends: a directory, a typed "exit" (`sys.exit`), or the
      end of the input (`input()` raises EOFError). */
  datatype Resolution = Found(path: string) | Quit | EndOfInput

  /** `answer.lower() == 'exit'`. No non-ASCII character lower-cases to one of
      the letters of "exit", so ASCII lower-casing decides it exactly: the
      answer is "exit" with each letter in either case. */
  predicate IsExit(answer: string)
    ensures IsExit(answer)
        <==> |answer| == 4 && forall i :: 0 <= i < 4 ==> answer[i] == "exit"[i] || answer[i] == "EXIT"[i]
  {
    LowerAscii(answer) == "exit"
  }

  /** An answer that ends the prompt loop. */
  predicate Decisive(fs: FileSystem, answer: string) {
    IsExit(answer) || IsValidChaptersDir(fs, answer)
  }

  /** The prompt loop over the answers still to come. */
  function PromptOutcome(fs: FileSystem, inputs: seq<string>): (r: Resolution)
    ensures r.Found? ==> IsValidChaptersDir(fs, r.path) && !IsExit(r.path)
  {
    if inputs == [] then EndOfInput
    else
      var answer := Strip(inputs[0]);
      if IsExit(answer) then Quit
      else if IsValidChaptersDir(fs, answer) then Found(answer)
      else PromptOutcome(fs, inputs[1..])
  }

  /** One turn of the prompt loop. */
  lemma PromptStep(fs: FileSystem, inputs: seq<string>, i: nat)
    requires i < |inputs|
    ensures PromptOutcome(fs, inputs[i..])
         == if IsExit(Strip(inputs[i])) then Quit
            else if IsValidChaptersDir(fs, Strip(inputs[i])) then Found(Strip(inputs[i]))
            else PromptOutcome(fs, inputs[i + 1..])
  {
    assert inputs[i..][0] == inputs[i];
    assert inputs[i..][1..] == inputs[i + 1..];
  }

  /** The candidates in priority order: the working directory, the script's
      directory, then the prompt. */
  function Discover(fs: FileSystem, cwd: string, scriptDir: string, inputs: seq<string>): (r: Resolution)
    ensures r.Found? ==> IsValidChaptersDir(fs, r.path)
  {
    var cwdPath := PathJoin(cwd, ChaptersRel);
    var scriptPath := PathJoin(scriptDir, ChaptersRel);
    if IsValidChaptersDir(fs, cwdPath) then Found(cwdPath)
    else if IsValidChaptersDir(fs, scriptPath) then Found(scriptPath)
    else PromptOutcome(fs, inputs)
  }

  /** `find_chapters_directory`. `cwd` is `os.getcwd()` and `scriptDir` is
      `os.path.abspath(os.path.dirname(sys.argv[0]))`. */
  method FindChaptersDirectory(fs: FileSystem, cwd: string, scriptDir: string, inputs: seq<string>)
    returns (r: Resolution)
    ensures r == Discover(fs, cwd, scriptDir, inputs)
  {
    var cwdPath := PathJoin(cwd, ChaptersRel);
    if IsValidChaptersDir(fs, cwdPath) {
      return Found(cwdPath);
    }
    var scriptPath := PathJoin(scriptDir, ChaptersRel);
    if IsValidChaptersDir(fs, scriptPath) {
      return Found(scriptPath);
    }
    var i := 0;
    while i < |inputs|
      invariant 0 <= i <= |inputs|
      invariant PromptOutcome(fs, inputs[i..]) == PromptOutcome(fs, inputs)
    {
      PromptStep(fs, inputs, i);
      var answer := Strip(inputs[i]);
      if IsExit(answer) {
        return Quit;
      }
      if IsValidChaptersDir(fs, answer) {
        return Found(answer);
      }
      i := i + 1;
    }
    return EndOfInput;
  }

  /** The index of the first answer that ends the loop, or `|inputs|`. */
  function FirstDecisive(fs: FileSystem, inputs: seq<string>): (k: nat)
    ensures k <= |inputs|
    ensures forall j :: 0 <= j < k ==> !Decisive(fs, Strip(inputs[j]))
    ensures k < |inputs| ==> Decisive(fs, Strip(inputs[k]))
  {
    if inputs == [] then 0
    else if Decisive(fs, Strip(inputs[0])) then 0
    else
      var k := FirstDecisive(fs, inputs[1..]) + 1;
      assert forall j :: 1 <= j < |inputs| ==> inputs[j] == inputs[1..][j - 1];
      k
  }

  /** The prompt loop is decided by the first decisive answer: "exit" quits,
      a valid directory is returned, and with none the input runs out. */
  lemma {:induction false} PromptOutcomeIsFirstDecisive(fs: FileSystem, inputs: seq<string>)
    ensures var k := FirstDecisive(fs, inputs);
      PromptOutcome(fs, inputs)
        == if k == |inputs| then EndOfInput
           else if IsExit(Strip(inputs[k])) then Quit
           else Found(Strip(inputs[k]))
  {
    if inputs != [] && !Decisive(fs, Strip(inputs[0])) {
      PromptOutcomeIsFirstDecisive(fs, inputs[1..]);
    }
  }

  /** The working-directory candidate wins whenever it is valid, the
      script-directory candidate when only it is, and the prompt is reached
      only when neither candidate is. */
  lemma DiscoverOrder(fs: FileSystem, cwd: string, scriptDir: string, inputs: seq<string>)
    ensures IsValidChaptersDir(fs, PathJoin(cwd, ChaptersRel))
        ==> Discover(fs, cwd, scriptDir, inputs) == Found(PathJoin(cwd, ChaptersRel))
    ensures !IsValidChaptersDir(fs, PathJoin(cwd, ChaptersRel)) && IsValidChaptersDir(fs, PathJoin(scriptDir, ChaptersRel))
        ==> Discover(fs, cwd, scriptDir, inputs) == Found(PathJoin(scriptDir, ChaptersRel))
    ensures Discover(fs, cwd, scriptDir, inputs) == Quit
        <==> (!IsValidChaptersDir(fs, PathJoin(cwd, ChaptersRel))
              && !IsValidChaptersDir(fs, PathJoin(scriptDir, ChaptersRel))
              && FirstDecisive(fs, inputs) < |inputs| && IsExit(Strip(inputs[FirstDecisive(fs, inputs)])))
  {
    PromptOutcomeIsFirstDecisive(fs, inputs);
  }

  // ---------------------------------------------------------------------------
  // load_chapter_data
  // ---------------------------------------------------------------------------

  /** The listed names the loop acts on: those ending in ".snbt", in order. */
  function SnbtFiles(names: seq<string>): (r: seq<string>)
    ensures |r| <= |names|
  {
    if names == [] then []
    else (if IsSnbt(names[0]) then [names[0]] else []) + SnbtFiles(names[1..])
  }

  /** Exactly the ".snbt" names are kept. */
  lemma {:induction false} SnbtFilesMembers(names: seq<string>)
    ensures forall f :: f in SnbtFiles(names) <==> f in names && IsSnbt(f)
  {
    if names != [] {
      SnbtFilesMembers(names[1..]);
      assert names == [names[0]] + names[1..];
    }
  }

  lemma {:induction false} SnbtFilesAppend(a: seq<string>, b: seq<string>)
    ensures SnbtFiles(a + b) == SnbtFiles(a) + SnbtFiles(b)
  {
    if a == [] {
      assert a + b == b;
    } else {
      assert (a + b)[0] == a[0];
      assert (a + b)[1..] == a[1..] + b;
      SnbtFilesAppend(a[1..], b);
      var head := if IsSnbt(a[0]) then [a[0]] else [];
      calc {
        SnbtFiles(a + b);
        head + SnbtFiles(a[1..] + b);
        head + (SnbtFiles(a[1..]) + SnbtFiles(b));
        (head + SnbtFiles(a[1..])) + SnbtFiles(b);
      }
    }
  }

  /** Opening and parsing the file `name` inside `dir`. */
  function FileLoader(read: Reader, dir: string): string -> Option<Raw> {
    name => read(PathJoin(dir, name))
  }

  /** Loading `files` in order, stopping at the first that fails. */
  function ReadAll(files: seq<string>, load: string -> Option<Raw>): (r: seq<(string, Raw)>)
    ensures |r| <= |files|
  {
    if files == [] then []
    else match load(files[0])
      case None => []
      case Some(v) => [(files[0], v)] + ReadAll(files[1..], load)
  }

  /** What was read is a prefix of the files, each paired with what it
      loaded; reading stopped early only at a file that failed. */
  lemma {:induction false} ReadAllPrefix(files: seq<string>, load: string -> Option<Raw>)
    ensures var r := ReadAll(files, load);
      && (forall i :: 0 <= i < |r| ==> r[i].0 == files[i] && load(files[i]) == Some(r[i].1))
      && (|r| < |files| ==> load(files[|r|]).None?)
  {
    if files != [] && load(files[0]).Some? {
      ReadAllPrefix(files[1..], load);
      var r := ReadAll(files, load);
      forall i | 1 <= i < |r| ensures r[i].0 == files[i] && load(files[i]) == Some(r[i].1) {
        assert files[i] == files[1..][i - 1];
      }
    }
  }

  /** Reading past a list that was read in full, or stopping inside it. */
  lemma {:induction false} ReadAllAppend(a: seq<string>, b: seq<string>, load: string -> Option<Raw>)
    ensures |ReadAll(a, load)| == |a| ==> ReadAll(a + b, load) == ReadAll(a, load) + ReadAll(b, load)
    ensures |ReadAll(a, load)| < |a| ==> ReadAll(a + b, load) == ReadAll(a, load)
  {
    if a == [] {
      assert a + b == b;
    } else {
      assert (a + b)[0] == a[0];
      assert (a + b)[1..] == a[1..] + b;
      match load(a[0])
      case None =>
      case Some(v) =>
        ReadAllAppend(a[1..], b, load);
        if |ReadAll(a, load)| == |a| {
          calc {
            ReadAll(a + b, load);
            [(a[0], v)] + ReadAll(a[1..] + b, load);
            [(a[0], v)] + (ReadAll(a[1..], load) + ReadAll(b, load));
            ([(a[0], v)] + ReadAll(a[1..], load)) + ReadAll(b, load);
          }
        }
    }
  }

  /** What `load_chapter_data` returns: nothing when the directory cannot be
      listed; otherwise the files read before the first failure, each
      assigned under its name, so every key is a listed ".snbt" name. */
  function LoadSpec(fs: FileSystem, read: Reader, dir: string): (r: Dict<Raw>)
    ensures !fs(dir).Listing? ==> r == []
    ensures forall k :: k in Keys(r) ==> fs(dir).Listing? && k in fs(dir).names && IsSnbt(k)
  {
    match fs(dir)
    case Listing(names) =>
      ReadKeysAreSnbt(names, FileLoader(read, dir));
      FromPairs(ReadAll(SnbtFiles(names), FileLoader(read, dir)))
    case _ => []
  }

  /** `load_chapter_data`: the try wraps the whole loop, so the first read
      that fails ends it and what was loaded so far is returned. */
  method LoadChapterData(fs: FileSystem, read: Reader, dir: string) returns (data: Dict<Raw>)
    ensures data == LoadSpec(fs, read, dir)
  {
    data := [];
    if !fs(dir).Listing? {
      return;
    }
    var names := fs(dir).names;
    ghost var load := FileLoader(read, dir);
    var i := 0;
    while i < |names|
      invariant 0 <= i <= |names|
      invariant LoadedUpTo(names, i, load, data)
    {
      var f := names[i];
      if IsSnbt(f) {
        var content := read(PathJoin(dir, f));
        assert content == load(f);
        if content.None? {
          LoadStopStep(names, i, load, data);
          return;
        }
        LoadedStep(names, i, load, data);
        data := Put(data, f, content.value);
      } else {
        SkipStep(names, i, load, data);
      }
      i := i + 1;
    }
    LoadDone(names, load, data);
  }

  /** The names before `i` have been read in full and `data` holds them. */
  ghost predicate LoadedUpTo(names: seq<string>, i: nat, load: string -> Option<Raw>, data: Dict<Raw>)
    requires i <= |names|
  {
    && |ReadAll(SnbtFiles(names[..i]), load)| == |SnbtFiles(names[..i])|
    && data == FromPairs(ReadAll(SnbtFiles(names[..i]), load))
  }

  /** A name that is not ".snbt" changes nothing. */
  lemma SkipStep(names: seq<string>, i: nat, load: string -> Option<Raw>, data: Dict<Raw>)
    requires i < |names| && !IsSnbt(names[i])
    requires LoadedUpTo(names, i, load, data)
    ensures LoadedUpTo(names, i + 1, load, data)
  {
    assert names[..i + 1] == names[..i] + [names[i]];
    SnbtFilesAppend(names[..i], [names[i]]);
    assert SnbtFiles([names[i]]) == [];
    assert SnbtFiles(names[..i + 1]) == SnbtFiles(names[..i]);
  }

  /** Assigning the file just read extends the loaded dictionary to one more
      name. */
  lemma LoadedStep(names: seq<string>, i: nat, load: string -> Option<Raw>, data: Dict<Raw>)
    requires i < |names| && IsSnbt(names[i]) && load(names[i]).Some?
    requires LoadedUpTo(names, i, load, data)
    ensures LoadedUpTo(names, i + 1, load, Put(data, names[i], load(names[i]).value))
  {
    LoadStep(names, i, load);
    FromPairsSnoc(ReadAll(SnbtFiles(names[..i]), load), names[i], load(names[i]).value);
  }

  /** A ".snbt" name that cannot be read ends the loading with what was read
      so far. */
  lemma LoadStopStep(names: seq<string>, i: nat, load: string -> Option<Raw>, data: Dict<Raw>)
    requires i < |names| && IsSnbt(names[i]) && load(names[i]).None?
    requires LoadedUpTo(names, i, load, data)
    ensures data == FromPairs(ReadAll(SnbtFiles(names), load))
  {
    LoadStep(names, i, load);
  }

  lemma LoadDone(names: seq<string>, load: string -> Option<Raw>, data: Dict<Raw>)
    requires LoadedUpTo(names, |names|, load, data)
    ensures data == FromPairs(ReadAll(SnbtFiles(names), load))
  {
    assert names[..|names|] == names;
  }

  /** A ".snbt" name read after a prefix read in full: if it loads, it is one
      more pair; if it fails, the whole listing reads no further. */
  lemma LoadStep(names: seq<string>, i: nat, load: string -> Option<Raw>)
    requires i < |names| && IsSnbt(names[i])
    requires |ReadAll(SnbtFiles(names[..i]), load)| == |SnbtFiles(names[..i])|
    ensures load(names[i]).Some? ==>
      SnbtFiles(names[..i + 1]) == SnbtFiles(names[..i]) + [names[i]]
      && ReadAll(SnbtFiles(names[..i + 1]), load) == ReadAll(SnbtFiles(names[..i]), load) + [(names[i], load(names[i]).value)]
    ensures load(names[i]).None? ==> ReadAll(SnbtFiles(names), load) == ReadAll(SnbtFiles(names[..i]), load)
  {
    var f := names[i];
    var done := SnbtFiles(names[..i]);
    assert names[..i + 1] == names[..i] + [f];
    SnbtFilesAppend(names[..i], [f]);
    assert SnbtFiles([f]) == [f];
    ReadAllAppend(done, [f], load);
    if load(f).None? {
      assert names == names[..i] + names[i..];
      SnbtFilesAppend(names[..i], names[i..]);
      assert names[i..] == [f] + names[i + 1..];
      SnbtFilesAppend([f], names[i + 1..]);
      ReadAllAppend(done, [f] + SnbtFiles(names[i + 1..]), load);
    }
  }

  /** Every key of the dictionary built from a listing is a listed ".snbt"
      name. */
  lemma ReadKeysAreSnbt(names: seq<string>, load: string -> Option<Raw>)
    ensures forall k :: k in Keys(FromPairs(ReadAll(SnbtFiles(names), load))) ==> k in names && IsSnbt(k)
  {
    var files := SnbtFiles(names);
    var ps := ReadAll(files, load);
    FromPairsKeys(ps);
    ReadAllPrefix(files, load);
    SnbtFilesMembers(names);
    forall k | k in Keys(FromPairs(ps)) ensures k in names && IsSnbt(k) {
      var i :| 0 <= i < |ps| && Keys(ps)[i] == k;
      assert files[i] in files;
    }
  }

  /** With distinct listed names and every ".snbt" read succeeding, the keys
      are exactly the ".snbt" names in listing order, so other files such as
      "other.txt" are left out. */
  lemma LoadAllRead(fs: FileSystem, read: Reader, dir: string)
    requires fs(dir).Listing?
    requires Distinct(fs(dir).names)
    requires forall f :: f in fs(dir).names && IsSnbt(f) ==> read(PathJoin(dir, f)).Some?
    ensures Keys(LoadSpec(fs, read, dir)) == SnbtFiles(fs(dir).names)
  {
    var names := fs(dir).names;
    var files := SnbtFiles(names);
    var ps := ReadAll(files, FileLoader(read, dir));
    ReadAllLoadsAll(files, FileLoader(read, dir)) by {
      SnbtFilesMembers(names);
    }
    ReadAllPrefix(files, FileLoader(read, dir));
    assert Keys(ps) == files;
    SnbtFilesDistinct(names);
    assert KeysUnique(ps) by {
      forall i, j | 0 <= i < j < |ps| ensures ps[i].0 != ps[j].0 {
        assert Keys(ps)[i] == files[i] && Keys(ps)[j] == files[j];
      }
    }
    FromDistinctPairs(ps);
  }

  /** When every file loads, every file is read. */
  lemma {:induction false} ReadAllLoadsAll(files: seq<string>, load: string -> Option<Raw>)
    requires forall f :: f in files ==> load(f).Some?
    ensures |ReadAll(files, load)| == |files|
  {
    if files != [] {
      assert files[0] in files;
      ReadAllLoadsAll(files[1..], load);
    }
  }

  /** No name occurs twice, as in any directory listing. */
  ghost predicate Distinct(names: seq<string>) {
    forall i, j :: 0 <= i < j < |names| ==> names[i] != names[j]
  }

  /** Filtering keeps distinct names distinct. */
  lemma {:induction false} SnbtFilesDistinct(names: seq<string>)
    requires Distinct(names)
    ensures Distinct(SnbtFiles(names))
  {
    if names != [] {
      assert Distinct(names[1..]) by {
        forall i, j | 0 <= i < j < |names[1..]| ensures names[1..][i] != names[1..][j] {
          assert names[1..][i] == names[i + 1] && names[1..][j] == names[j + 1];
        }
      }
      SnbtFilesDistinct(names[1..]);
      var rest := SnbtFiles(names[1..]);
      SnbtFilesMembers(names[1..]);
      if IsSnbt(names[0]) {
        assert names[0] !in names[1..];
        var r := [names[0]] + rest;
        assert SnbtFiles(names) == r;
        forall i, j | 0 <= i < j < |r| ensures r[i] != r[j] {
          if i == 0 {
            assert r[j] == rest[j - 1] && rest[j - 1] in rest;
          } else {
            assert r[i] == rest[i - 1] && r[j] == rest[j - 1];
          }
        }
      } else {
        assert SnbtFiles(names) == rest;
      }
    }
  }

  /** A directory accepted by `is_valid_chapters_dir` whose ".snbt" files
      all read loads something. */
  lemma ValidDirLoads(fs: FileSystem, read: Reader, dir: string)
    requires IsValidChaptersDir(fs, dir)
    requires forall f :: f in fs(dir).names && IsSnbt(f) ==> read(PathJoin(dir, f)).Some?
    ensures LoadSpec(fs, read, dir) != []
  {
    var names := fs(dir).names;
    var i :| 0 <= i < |names| && IsSnbt(names[i]);
    SnbtFilesMembers(names);
    var files := SnbtFiles(names);
    assert names[i] in files;
    assert files[0] in files;
    var load := FileLoader(read, dir);
    assert load(files[0]).Some?;
    var ps := ReadAll(files, load);
    assert |ps| > 0;
    FromPairsKeys(ps);
    assert Keys(ps)[0] == ps[0].0;
    assert ps[0].0 in Keys(LoadSpec(fs, read, dir));
  }

  // ---------------------------------------------------------------------------
  // parse_chapters
  // ---------------------------------------------------------------------------

  /** `chapter_filename.replace(".snbt", "")`: every occurrence goes, not
      only the suffix. The key is never longer than the name, and a name
      whose only ".snbt" is its suffix gives its stem. */
  function ChapterKey(filename: string): (r: string)
    ensures |r| <= |filename|
    ensures EndsWith(filename, SnbtSuffix) && OnlyFinalMatch(filename[..|filename| - |SnbtSuffix|], SnbtSuffix)
        ==> r == filename[..|filename| - |SnbtSuffix|]
  {
    assert EndsWith(filename, SnbtSuffix) && OnlyFinalMatch(filename[..|filename| - |SnbtSuffix|], SnbtSuffix)
        ==> RemoveAll(filename, SnbtSuffix) == filename[..|filename| - |SnbtSuffix|] by {
      if EndsWith(filename, SnbtSuffix) && OnlyFinalMatch(filename[..|filename| - |SnbtSuffix|], SnbtSuffix) {
        var stem := filename[..|filename| - |SnbtSuffix|];
        assert filename == stem + SnbtSuffix;
        RemoveAllFinal(stem, SnbtSuffix);
      }
    }
    RemoveAll(filename, SnbtSuffix)
  }

  /** Every occurrence of ".snbt" goes, not only the suffix: the first one is
      dropped, what precedes it is kept, and the rest of the name is keyed
      alike. */
  lemma ChapterKeyDropsFirst(a: string, b: string)
    requires forall k :: 0 <= k < |a| ==> !StartsWith((a + SnbtSuffix + b)[k..], SnbtSuffix)
    ensures ChapterKey(a + SnbtSuffix + b) == a + ChapterKey(b)
  {
    RemoveAllFirst(a, SnbtSuffix, b);
  }

  /** A name without ".snbt" is its own key. */
  lemma ChapterKeyNoSnbt(filename: string)
    requires forall k :: 0 <= k <= |filename| ==> !StartsWith(filename[k..], SnbtSuffix)
    ensures ChapterKey(filename) == filename
  {
    RemoveAllAbsent(filename, SnbtSuffix);
  }

  /** Two different files can share a key: "a.snbt.snbt" gives "a" too. */
  lemma ChapterKeysCollide()
    ensures ChapterKey("a.snbt") == "a" && ChapterKey("a.snbt.snbt") == "a"
  {
    assert StartsWith("a.snbt", SnbtSuffix) == false;
    assert "a.snbt"[1..] == ".snbt";
    assert "a.snbt.snbt"[1..] == ".snbt.snbt";
    assert ".snbt.snbt"[5..] == ".snbt";
    assert RemoveAll("", SnbtSuffix) == "";
  }

  /** One step of `parse_chapters`: a valid entry is filed under its key,
      replacing what an earlier entry filed there; an invalid one is
      skipped. */
  function ParseStep<T>(prev: Dict<T>, entry: (string, Raw), validate: Raw -> Result<T>): (r: Dict<T>)
    ensures |r| <= |prev| + 1
  {
    match validate(entry.1)
    case Ok(c) => Put(prev, ChapterKey(entry.0), c)
    case Err(_) => prev
  }

  /** What `parse_chapters` returns, for a validator `validate`
      (`Chapter.model_validate`): the entries in order, each valid one
      assigned under its key, each invalid one skipped. The properties below
      hold whatever the validator. */
  function ParseAll<T>(raw: Dict<Raw>, validate: Raw -> Result<T>): (r: Dict<T>)
    ensures |r| <= |raw|
  {
    if raw == [] then []
    else ParseStep(ParseAll(raw[..|raw| - 1], validate), raw[|raw| - 1], validate)
  }

  lemma ParseAllSnoc<T>(raw: Dict<Raw>, entry: (string, Raw), validate: Raw -> Result<T>)
    ensures ParseAll(raw + [entry], validate) == ParseStep(ParseAll(raw, validate), entry, validate)
  {
    assert (raw + [entry])[..|raw|] == raw;
  }

  /** `parse_chapters` */
  method ParseChapters(raw: Dict<Raw>) returns (parsed: Dict<Chapter>)
    ensures parsed == ParseAll(raw, ValidateChapter)
  {
    parsed := [];
    var i := 0;
    while i < |raw|
      invariant 0 <= i <= |raw|
      invariant parsed == ParseAll(raw[..i], ValidateChapter)
    {
      assert raw[..i + 1] == raw[..i] + [raw[i]];
      ParseAllSnoc(raw[..i], raw[i], ValidateChapter);
      var (filename, value) := raw[i];
      var key := ChapterKey(filename);
      var result := ValidateChapter(value);
      if result.Ok? {
        parsed := Put(parsed, key, result.value);
      }
      i := i + 1;
    }
    assert raw[..i] == raw;
  }

  /** The keys of the result are unique. */
  lemma {:induction false} ParseAllUnique<T>(raw: Dict<Raw>, validate: Raw -> Result<T>)
    ensures KeysUnique(ParseAll(raw, validate))
  {
    if raw != [] {
      ParseAllUnique(raw[..|raw| - 1], validate);
      var entry := raw[|raw| - 1];
      if validate(entry.1).Ok? {
        PutKeepsUnique(ParseAll(raw[..|raw| - 1], validate), ChapterKey(entry.0), validate(entry.1).value);
      }
    }
  }

  /** The entry validates and is filed under `k`. */
  predicate Yields<T>(entry: (string, Raw), validate: Raw -> Result<T>, k: string) {
    ChapterKey(entry.0) == k && validate(entry.1).Ok?
  }

  /** A key is in the result exactly when some entry with that key validates. */
  lemma {:induction false} ParseAllKeys<T>(raw: Dict<Raw>, validate: Raw -> Result<T>, k: string)
    ensures k in Keys(ParseAll(raw, validate)) <==> exists i :: 0 <= i < |raw| && Yields(raw[i], validate, k)
  {
    if raw != [] {
      var init := raw[..|raw| - 1];
      var entry := raw[|raw| - 1];
      ParseAllKeys(init, validate, k);
      if validate(entry.1).Ok? {
        GetPut(ParseAll(init, validate), ChapterKey(entry.0), validate(entry.1).value, k);
      }
      assert forall i :: 0 <= i < |init| ==> init[i] == raw[i];
      if exists i :: 0 <= i < |raw| && Yields(raw[i], validate, k) {
        var i :| 0 <= i < |raw| && Yields(raw[i], validate, k);
        assert i < |init| || i == |raw| - 1;
      }
    }
  }

  /** A key holds the chapter validated from the last valid entry with that
      key. */
  lemma {:induction false} ParseAllValue<T>(raw: Dict<Raw>, validate: Raw -> Result<T>, i: nat)
    requires i < |raw| && validate(raw[i].1).Ok?
    requires forall j :: i < j < |raw| ==> ChapterKey(raw[j].0) != ChapterKey(raw[i].0) || validate(raw[j].1).Err?
    ensures Get(ParseAll(raw, validate), ChapterKey(raw[i].0)) == Some(validate(raw[i].1).value)
  {
    var init := raw[..|raw| - 1];
    var entry := raw[|raw| - 1];
    var k := ChapterKey(raw[i].0);
    if validate(entry.1).Ok? {
      GetPut(ParseAll(init, validate), ChapterKey(entry.0), validate(entry.1).value, k);
    }
    if i < |raw| - 1 {
      assert init[i] == raw[i];
      forall j | i < j < |init| ensures ChapterKey(init[j].0) != k || validate(init[j].1).Err? {
        assert init[j] == raw[j];
      }
      ParseAllValue(init, validate, i);
    }
  }

  /** An entry that fails validation is skipped and the others are kept:
      the result is the one without it. */
  lemma {:induction false} ParseSkipsInvalid<T>(a: Dict<Raw>, filename: string, value: Raw, b: Dict<Raw>,
                                                  validate: Raw -> Result<T>)
    requires validate(value).Err?
    ensures ParseAll(a + [(filename, value)] + b, validate) == ParseAll(a + b, validate)
    decreases |b|
  {
    if b == [] {
      ParseAllSnoc(a, (filename, value), validate);
      assert a + b == a && a + [(filename, value)] + b == a + [(filename, value)];
    } else {
      var b', e := b[..|b| - 1], b[|b| - 1];
      ParseSkipsInvalid(a, filename, value, b', validate);
      ParseAllSnoc(a + [(filename, value)] + b', e, validate);
      ParseAllSnoc(a + b', e, validate);
      assert a + [(filename, value)] + b == (a + [(filename, value)] + b') + [e];
      assert a + b == (a + b') + [e];
    }
  }

  // ---------------------------------------------------------------------------
  // load_and_parse_all
  // ---------------------------------------------------------------------------

  /** How the whole load ends: the parsed chapters, or the process ending at
      the prompt. */
  datatype Outcome = Chapters(chapters: Dict<Chapter>) | Exited | InputClosed

  /** The run ends at the prompt exactly when the search does; otherwise
      the chapters come from the directory found, at most one per loaded
      file and never two under one key. */
  function LoadAndParseSpec(fs: FileSystem, read: Reader, cwd: string, scriptDir: string, inputs: seq<string>)
    : (r: Outcome)
    ensures r == Exited <==> Discover(fs, cwd, scriptDir, inputs) == Quit
    ensures r == InputClosed <==> Discover(fs, cwd, scriptDir, inputs) == EndOfInput
    ensures r.Chapters? ==> && Discover(fs, cwd, scriptDir, inputs).Found?
                            && |r.chapters| <= |LoadSpec(fs, read, Discover(fs, cwd, scriptDir, inputs).path)|
                            && KeysUnique(r.chapters)
  {
    match Discover(fs, cwd, scriptDir, inputs)
    case Quit => Exited
    case EndOfInput => InputClosed
    case Found(path) =>
      var raw := LoadSpec(fs, read, path);
      ParseAllUnique(raw, ValidateChapter);
      if raw == [] then Chapters([]) else Chapters(ParseAll(raw, ValidateChapter))
  }

  /** `load_and_parse_all` */
  method LoadAndParseAll(fs: FileSystem, read: Reader, cwd: string, scriptDir: string, inputs: seq<string>)
    returns (o: Outcome)
    ensures o == LoadAndParseSpec(fs, read, cwd, scriptDir, inputs)
  {
    var found := FindChaptersDirectory(fs, cwd, scriptDir, inputs);
    match found
    case Quit => return Exited;
    case EndOfInput => return InputClosed;
    case Found(path) =>
      var rawData := LoadChapterData(fs, read, path);
      if rawData == [] {
        return Chapters([]);
      }
      var parsed := ParseChapters(rawData);
      return Chapters(parsed);
  }

  /** Every chapter key comes from a file that was loaded and validated, in
      the directory the search found. */
  lemma LoadAndParseKeys(fs: FileSystem, read: Reader, cwd: string, scriptDir: string, inputs: seq<string>, k: string)
    requires LoadAndParseSpec(fs, read, cwd, scriptDir, inputs).Chapters?
    ensures var path := Discover(fs, cwd, scriptDir, inputs).path;
            var raw := LoadSpec(fs, read, path);
            (k in Keys(LoadAndParseSpec(fs, read, cwd, scriptDir, inputs).chapters))
              <==> (exists i :: 0 <= i < |raw| && Yields(raw[i], ValidateChapter, k))
  {
    var path := Discover(fs, cwd, scriptDir, inputs).path;
    ParseAllKeys(LoadSpec(fs, read, path), ValidateChapter, k);
  }
}
