/**
 * The project scaffolding script: it reads an indented tree, one entry
 * per line, and creates the directories and empty files it names under
 * the project root. It keeps a stack of parent directories, and it never
 * recreates or overwrites a path that already exists.
 *
 * A path is the sequence of its components below the project root, so the
 * root itself is the empty path.
 */
module ProjectTree {
  import opened Wrappers
  import opened Text

  type Path = seq<string>

  /** The line naming the project root, which the script skips. */
  const RootLine := "my-flask-app/"

  /** `\w`: ASCII letters and digits, '_', and CJK ideographs U+4E00 to U+9FFF. */
  predicate IsWordChar(c: char) { IsAsciiLetter(c) || IsDigit(c) || c == '_' || '\U{4E00}' <= c <= '\U{9FFF}' }

  /** What `[\w\.]` matches: the first character of an entry's name. */
  predicate IsNameStart(c: char) { IsWordChar(c) || c == '.' }

  /** `re.search(r'[\w\.]', s).start()`, None when nothing matches. */
  function FirstNameIndex(s: string): (r: Option<nat>)
    ensures r.Some? ==> r.value < |s| && IsNameStart(s[r.value])
    ensures r.Some? ==> forall i :: 0 <= i < r.value ==> !IsNameStart(s[i])
    ensures r.None? ==> forall i :: 0 <= i < |s| ==> !IsNameStart(s[i])
  {
    if s == [] then None
    else if IsNameStart(s[0]) then Some(0)
    else match FirstNameIndex(s[1..])
      case None => None
      case Some(i) => Some(i + 1)
  }

  /** The text before the first '#', without trailing whitespace. */
  function CleanLine(line: string): string {
    RStrip(Split(line, '#')[0])
  }

  /** A parsed line: its depth below the root (from its indentation), its name, and whether it names a directory. */
  datatype Entry = Entry(level: int, name: string, isDir: bool)

  /** Blank lines and the bare root line are skipped before the comment is looked at. */
  predicate Skipped(line: string) { Strip(line) == [] || Strip(line) == RootLine }

  /**
   * One line of the tree. Blank lines, the root line and lines with no name
   * character before the comment are skipped. The name starts at the first
   * name character. Every four columns of indentation are one level, and
   * four columns is level 0. A name ending in '/' is a directory.
   */
  function ParseLine(line: string): (e: Option<Entry>)
    ensures e.Some? ==> e.value.level >= -1 && e.value.name != [] && IsNameStart(e.value.name[0])
    ensures e.Some? ==> '#' !in e.value.name && e.value.name[|e.value.name| - 1] != '/'
  {
    if Skipped(line) then None
    else
      CleanLineHasNoHash(line);
      EntryIn(CleanLine(line))
  }

  /** The entry named in the text of a line before its comment, if any. */
  function EntryIn(clean: string): (e: Option<Entry>)
    requires '#' !in clean
    ensures e.None? <==> forall i :: 0 <= i < |clean| ==> !IsNameStart(clean[i])
    ensures e.Some? ==> e.value.level >= -1 && e.value.name != [] && IsNameStart(e.value.name[0])
    ensures e.Some? ==> '#' !in e.value.name && e.value.name[|e.value.name| - 1] != '/'
  {
    match FirstNameIndex(clean)
    case None => None
    case Some(start) => Some(EntryAt(clean, start))
  }

  /** The entry whose name starts at `start`: a trailing '/' marks a directory and is not part of the name. */
  function EntryAt(clean: string, start: nat): (e: Entry)
    requires start < |clean| && IsNameStart(clean[start]) && '#' !in clean
    ensures e.level >= -1 && e.name != [] && IsNameStart(e.name[0])
    ensures '#' !in e.name && e.name[|e.name| - 1] != '/'
  {
    var item := clean[start..];
    var name := TrimEnd(item, '/');
    assert item[0] == clean[start];
    assert forall i :: 0 <= i < |name| ==> name[i] == clean[start + i];
    Entry(start / 4 - 1, name, item[|item| - 1] == '/')
  }

  /** The comment is cut off at the first '#', so no '#' is left. */
  lemma CleanLineHasNoHash(line: string)
    ensures '#' !in CleanLine(line)
  {
    var head := Split(line, '#')[0];
    assert '#' !in head;
  }

  /** A line with a '#' in it is not skipped: neither blank nor the bare root line. */
  lemma HashNotSkipped(line: string, k: nat)
    requires k < |line| && line[k] == '#'
    ensures !Skipped(line)
  {
    var left := LStrip(line);
    var j := KeptByLStrip(line, k);
    KeptByRStrip(left, j);
    HashNotRootLine(Strip(line), j);
  }

  lemma HashNotRootLine(t: string, j: nat)
    requires j < |t| && t[j] == '#'
    ensures t != RootLine
  {
    assert '#' !in RootLine;
  }

  lemma OffNameNotRootLine(t: string)
    requires t != [] && !IsNameStart(t[0])
    ensures t != RootLine
  {
    assert IsNameStart(RootLine[0]);
  }

  /** `s.rstrip()` leaves a string that does not end in whitespace as it is. */
  lemma RStripKeeps(s: string)
    requires s != [] && !IsSpace(s[|s| - 1])
    ensures RStrip(s) == s
  {
  }

  /** The comment of a line does not change how its entry is parsed, once the line is not skipped. */
  lemma CommentIgnored(text: string, comment: string)
    requires '#' !in text && !Skipped(text)
    ensures ParseLine(text + "#" + comment) == ParseLine(text)
  {
    var line := text + "#" + comment;
    SplitAtFirst(text, '#', comment);
    SplitWithoutSeparator(text, '#');
    assert CleanLine(line) == CleanLine(text);
    HashNotSkipped(line, |text|);
  }

  /** Name characters are not whitespace. */
  lemma NameIsNotSpace(c: char)
    requires IsNameStart(c)
    ensures !IsSpace(c)
  {
  }

  /**
   * A name indented by 4 × (k + 1) columns of tree drawing parses at level
   * k, as a directory exactly when it ends in '/'. Tree drawing here means
   * characters that are neither name characters nor '#'.
   */
  lemma IndentedEntry(k: nat, indent: string, name: string)
    requires |indent| == 4 * (k + 1)
    requires forall i :: 0 <= i < |indent| ==> !IsNameStart(indent[i]) && indent[i] != '#'
    requires name != [] && IsNameStart(name[0]) && '#' !in name && !IsSpace(name[|name| - 1])
    requires name != RootLine
    ensures ParseLine(indent + name) == Some(Entry(k, TrimEnd(name, '/'), name[|name| - 1] == '/'))
  {
    IndentedClean(indent, name);
    IndentedNotSkipped(indent, name);
    IndentedStart(indent, name);
    IndentedEntryAt(k, indent, name);
  }

  lemma IndentedEntryAt(k: nat, indent: string, name: string)
    requires |indent| == 4 * (k + 1)
    requires forall i :: 0 <= i < |indent| ==> !IsNameStart(indent[i]) && indent[i] != '#'
    requires name != [] && IsNameStart(name[0]) && '#' !in name && !IsSpace(name[|name| - 1])
    ensures '#' !in indent + name && IsNameStart((indent + name)[|indent|])
    ensures EntryAt(indent + name, |indent|) == Entry(k, TrimEnd(name, '/'), name[|name| - 1] == '/')
  {
    var line := indent + name;
    IndentedClean(indent, name);
    assert line[|indent|] == name[0];
    var e := EntryAt(line, |indent|);
    assert line[|indent|..] == name;
    assert e.name == TrimEnd(name, '/');
    assert e.isDir == (name[|name| - 1] == '/');
    FourColumnsALevel(|indent|, k);
  }

  lemma FourColumnsALevel(n: nat, k: nat)
    requires n == 4 * (k + 1)
    ensures n / 4 - 1 == k
  {
  }

  /** Without a comment or trailing whitespace, the whole line is the text the entry is read from. */
  lemma IndentedClean(indent: string, name: string)
    requires forall i :: 0 <= i < |indent| ==> indent[i] != '#'
    requires name != [] && '#' !in name && !IsSpace(name[|name| - 1])
    ensures '#' !in indent + name && CleanLine(indent + name) == indent + name
  {
    var line := indent + name;
    assert '#' !in line by {
      assert forall i :: 0 <= i < |line| ==> line[i] == (if i < |indent| then indent[i] else name[i - |indent|]);
    }
    SplitWithoutSeparator(line, '#');
    assert line[|line| - 1] == name[|name| - 1];
    RStripKeeps(line);
  }

  /** The name starts right after the indentation. */
  lemma IndentedStart(indent: string, name: string)
    requires forall i :: 0 <= i < |indent| ==> !IsNameStart(indent[i])
    requires name != [] && IsNameStart(name[0])
    ensures FirstNameIndex(indent + name) == Some(|indent|)
  {
    var line := indent + name;
    var start := FirstNameIndex(line);
    assert line[|indent|] == name[0];
  }

  /** A line made of an indentation and a name other than the root is not skipped. */
  lemma IndentedNotSkipped(indent: string, name: string)
    requires forall i :: 0 <= i < |indent| ==> !IsNameStart(indent[i])
    requires name != [] && IsNameStart(name[0]) && !IsSpace(name[|name| - 1])
    requires name != RootLine
    ensures !Skipped(indent + name)
  {
    NameIsNotSpace(name[0]);
    var lo := IndentedStrip(indent, name);
    SuffixNotRootLine(indent, name, lo, Strip(indent + name));
  }

  /** Stripping such a line removes at most the indentation and nothing at the end. */
  lemma IndentedStrip(indent: string, name: string) returns (lo: nat)
    requires name != [] && !IsSpace(name[0]) && !IsSpace(name[|name| - 1])
    ensures lo <= |indent| && Strip(indent + name) == (indent + name)[lo..]
  {
    var line := indent + name;
    assert line[|indent|] == name[0];
    assert line[|line| - 1] == name[|name| - 1];
    var left := LStrip(line);
    var j := KeptByLStrip(line, |indent|);
    lo := |line| - |left|;
    LastOfSuffix(line, left);
    RStripKeeps(left);
  }

  lemma LastOfSuffix(s: string, t: string)
    requires |t| <= |s| && t == s[|s| - |t|..] && t != []
    ensures t[|t| - 1] == s[|s| - 1]
  {
  }

  lemma SuffixNotRootLine(indent: string, name: string, lo: nat, t: string)
    requires forall i :: 0 <= i < |indent| ==> !IsNameStart(indent[i])
    requires name != [] && name != RootLine
    requires lo <= |indent| && t == (indent + name)[lo..]
    ensures t != [] && t != RootLine
  {
    if lo < |indent| {
      assert t[0] == indent[lo];
      OffNameNotRootLine(t);
    } else {
      assert t == name;
    }
  }

  /**
   * The root line is skipped only without a comment: followed by one it is
   * taken for a directory at level -1, and the script raises on it.
   */
  lemma CommentedRootLine(comment: string)
    ensures ParseLine(RootLine + " #" + comment) == Some(Entry(-1, "my-flask-app", true))
  {
    var line := RootLine + " #" + comment;
    RootLineClean(comment);
    HashNotSkipped(line, |RootLine| + 1);
    RootLineEntry();
  }

  lemma RootLineClean(comment: string)
    ensures CleanLine(RootLine + " #" + comment) == RootLine
  {
    var text := RootLine + " ";
    assert RootLine + " #" + comment == text + "#" + comment;
    SplitAtFirst(text, '#', comment);
    assert text[..|text| - 1] == RootLine;
    RStripKeeps(RootLine);
  }

  lemma RootLineEntry()
    ensures '#' !in RootLine && EntryIn(RootLine) == Some(Entry(-1, "my-flask-app", true))
  {
    assert FirstNameIndex(RootLine) == Some(0);
    assert TrimEnd(RootLine, '/') == "my-flask-app" by {
      assert RootLine[..|RootLine| - 1] == "my-flask-app";
    }
  }

  // ----- the file system and the path stack -----

  /** The file system under the project root: its directories, and its files with their contents. */
  datatype Fs = Fs(dirs: set<Path>, files: map<Path, string>)

  /** A well-formed tree: the root is a directory, no path is both, and every path hangs under a directory. */
  predicate FsValid(fs: Fs) {
    [] in fs.dirs
    && (forall p :: p in fs.dirs ==> p !in fs.files)
    && (forall p, k :: p in fs.dirs && 0 <= k <= |p| ==> p[..k] in fs.dirs)
    && (forall f :: f in fs.files ==> |f| > 0 && f[..|f| - 1] in fs.dirs)
  }

  /** `os.path.exists`. */
  predicate Exists(fs: Fs, p: Path) { p in fs.dirs || p in fs.files }

  /** `os.makedirs(p)` fails because a file stands on the way to `p` or at `p`. */
  predicate Blocked(fs: Fs, p: Path) { exists k :: 0 < k <= |p| && p[..k] in fs.files }

  function Prefixes(p: Path): set<Path> { set k | 0 <= k <= |p| :: p[..k] }

  /** `os.makedirs(p)` that does not fail: every missing directory on the way to `p` is created. */
  function MakeDirs(fs: Fs, p: Path): Fs { fs.(dirs := fs.dirs + Prefixes(p)) }

  /** The stack holds the root and then one directory per level, each inside the one below it. */
  predicate Chain(stack: seq<Path>) {
    forall k :: 0 <= k < |stack| ==> |stack[k]| == k && (0 < k ==> stack[k][..k - 1] == stack[k - 1])
  }

  datatype State = State(fs: Fs, stack: seq<Path>)

  function Min(a: int, b: int): int { if a < b then a else b }

  /** A directory line: `os.makedirs` unless the path exists; None where a file is in the way. */
  function MakeDirEntry(fs: Fs, full: Path): Option<Fs> {
    if Exists(fs, full) then Some(fs)
    else if Blocked(fs, full) then None
    else Some(MakeDirs(fs, full))
  }

  /**
   * A file line: `os.makedirs(parent, exist_ok=True)`, then an empty file
   * unless the path exists; None where a file is in the way of the parent.
   */
  function MakeFileEntry(fs: Fs, parent: Path, name: string): Option<Fs> {
    if Blocked(fs, parent) then None
    else
      var made := MakeDirs(fs, parent);
      var full := parent + [name];
      if Exists(made, full) then Some(made) else Some(made.(files := made.files[full := ""]))
  }

  /** How many directories stay on the stack below an entry: one per level, counting the root. */
  function Depth(e: Entry): nat { if e.level < 0 then 0 else e.level + 1 }

  /**
   * One line of the script: skipped lines change nothing. None where the
   * script raises.
   */
  function StepSpec(s: State, line: string): Option<State> {
    match ParseLine(line)
    case None => Some(s)
    case Some(e) => Place(s, e)
  }

  /**
   * One entry. The stack is popped to the entry's level, and the entry goes
   * under the directory on top. A directory is created unless the path
   * exists, and is pushed. A file is created empty unless the path exists.
   * None where the script raises: the stack is emptied (a name in the first
   * four columns), or a file stands where a directory is needed.
   */
  function Place(s: State, e: Entry): Option<State> {
    var popped := s.stack[..Min(|s.stack|, Depth(e))];
    if popped == [] then None
    else
      var parent := popped[|popped| - 1];
      if e.isDir then
        match MakeDirEntry(s.fs, parent + [e.name])
        case None => None
        case Some(fs) => Some(State(fs, popped + [parent + [e.name]]))
      else
        match MakeFileEntry(s.fs, parent, e.name)
        case None => None
        case Some(fs) => Some(State(fs, popped))
  }

  /** The outcome of the whole script: the file system it leaves, and the line it raised on. */
  datatype RunResult = RunResult(fs: Fs, crashedAt: Option<nat>)

  function RunFrom(s: State, lines: seq<string>, i: nat): RunResult
    requires i <= |lines|
    decreases |lines| - i
  {
    if i == |lines| then RunResult(s.fs, None)
    else match StepSpec(s, lines[i])
      case None => RunResult(s.fs, Some(i))
      case Some(t) => RunFrom(t, lines, i + 1)
  }

  /** Nothing that existed is removed, no file's contents change, and every new file is empty. */
  predicate Preserves(a: Fs, b: Fs) {
    a.dirs <= b.dirs
    && (forall f :: f in a.files ==> f in b.files && b.files[f] == a.files[f])
    && (forall f :: f in b.files && f !in a.files ==> b.files[f] == "")
  }

  lemma PrefixesOfPrefixes(p: Path, q: Path, k: nat)
    requires q in Prefixes(p) && k <= |q|
    ensures q[..k] in Prefixes(p)
  {
    var j :| 0 <= j <= |p| && q == p[..j];
    assert q[..k] == p[..k];
  }

  /** Creating the missing directories on an unobstructed way keeps the tree well formed, and the path is then a directory. */
  lemma MakeDirsKeepsFs(fs: Fs, p: Path)
    requires FsValid(fs) && !Blocked(fs, p)
    ensures FsValid(MakeDirs(fs, p)) && Preserves(fs, MakeDirs(fs, p)) && p in MakeDirs(fs, p).dirs
  {
    var after := MakeDirs(fs, p);
    assert p == p[..|p|];
    forall q | q in Prefixes(p)
      ensures q !in fs.files
    {
      var j :| 0 <= j <= |p| && q == p[..j];
      if j == 0 {
        assert q == [];
      } else {
        assert !(p[..j] in fs.files);
      }
    }
    forall q, k | q in after.dirs && 0 <= k <= |q|
      ensures q[..k] in after.dirs
    {
      if q in Prefixes(p) {
        PrefixesOfPrefixes(p, q, k);
      }
    }
  }

  /** A directory line keeps the tree well formed, overwrites nothing, and leaves its path in place. */
  lemma MakeDirEntryKeepsFs(fs: Fs, full: Path)
    requires FsValid(fs) && MakeDirEntry(fs, full).Some?
    ensures var after := MakeDirEntry(fs, full).value;
      FsValid(after) && Preserves(fs, after) && Exists(after, full)
  {
    if !Exists(fs, full) {
      MakeDirsKeepsFs(fs, full);
    }
  }

  /** A file line keeps the tree well formed, overwrites nothing, and leaves its parent a directory and its path in place. */
  lemma MakeFileEntryKeepsFs(fs: Fs, parent: Path, name: string)
    requires FsValid(fs) && MakeFileEntry(fs, parent, name).Some?
    ensures var after := MakeFileEntry(fs, parent, name).value;
      FsValid(after) && Preserves(fs, after) && parent in after.dirs && Exists(after, parent + [name])
  {
    MakeDirsKeepsFs(fs, parent);
    var made := MakeDirs(fs, parent);
    var full := parent + [name];
    if !Exists(made, full) {
      assert full[..|full| - 1] == parent;
      var after := made.(files := made.files[full := ""]);
      forall q, k | q in after.dirs && 0 <= k <= |q|
        ensures q[..k] in after.dirs
      {
      }
      assert FsValid(after);
    }
  }

  /** Each entry keeps the tree well formed and overwrites nothing. */
  lemma PlaceKeepsFs(s: State, e: Entry)
    requires FsValid(s.fs) && Place(s, e).Some?
    ensures FsValid(Place(s, e).value.fs) && Preserves(s.fs, Place(s, e).value.fs)
  {
    var popped := s.stack[..Min(|s.stack|, Depth(e))];
    var parent := popped[|popped| - 1];
    if e.isDir {
      MakeDirEntryKeepsFs(s.fs, parent + [e.name]);
    } else {
      MakeFileEntryKeepsFs(s.fs, parent, e.name);
    }
  }

  /** Each step keeps the tree well formed and overwrites nothing. */
  lemma StepKeepsFs(s: State, line: string)
    requires FsValid(s.fs) && StepSpec(s, line).Some?
    ensures FsValid(StepSpec(s, line).value.fs) && Preserves(s.fs, StepSpec(s, line).value.fs)
  {
    if ParseLine(line).Some? {
      PlaceKeepsFs(s, ParseLine(line).value);
    }
  }

  /** Each entry keeps the stack a chain of nested directories with the root at the bottom. */
  lemma PlaceKeepsChain(s: State, e: Entry)
    requires Chain(s.stack) && Place(s, e).Some?
    ensures Chain(Place(s, e).value.stack) && |Place(s, e).value.stack| > 0
  {
    var popped := s.stack[..Min(|s.stack|, Depth(e))];
    var parent := popped[|popped| - 1];
    var full := parent + [e.name];
    assert |parent| == |popped| - 1;
    assert full[..|popped| - 1] == parent;
  }

  /**
   * An entry of level L goes under the L-th directory of the stack when
   * the stack is that deep, so each level of indentation is one directory
   * deeper; its path exists afterwards, and a directory is pushed.
   */
  lemma EntryParent(s: State, e: Entry)
    requires FsValid(s.fs) && 0 <= e.level < |s.stack| && Place(s, e).Some?
    ensures var full := s.stack[e.level] + [e.name];
      Exists(Place(s, e).value.fs, full)
      && (e.isDir ==> Place(s, e).value.stack == s.stack[..e.level + 1] + [full])
      && (!e.isDir ==> Place(s, e).value.stack == s.stack[..e.level + 1])
  {
    var parent := s.stack[e.level];
    if e.isDir {
      MakeDirEntryKeepsFs(s.fs, parent + [e.name]);
    } else {
      MakeFileEntryKeepsFs(s.fs, parent, e.name);
    }
  }

  /** An entry that starts in the first four columns makes the script raise. */
  lemma ShallowEntryRaises(s: State, e: Entry)
    requires e.level < 0
    ensures Place(s, e).None?
  {
  }

  /** The whole script keeps the tree well formed and overwrites nothing, up to the line it raises on. */
  lemma {:induction false} RunKeepsFs(s: State, lines: seq<string>, i: nat)
    requires i <= |lines| && FsValid(s.fs)
    ensures FsValid(RunFrom(s, lines, i).fs) && Preserves(s.fs, RunFrom(s, lines, i).fs)
    decreases |lines| - i
  {
    if i < |lines| && StepSpec(s, lines[i]).Some? {
      var t := StepSpec(s, lines[i]).value;
      StepKeepsFs(s, lines[i]);
      RunKeepsFs(t, lines, i + 1);
    }
  }

  /** The script raises on the line it reports and on none before it. */
  lemma {:induction false} RunCrashLine(s: State, lines: seq<string>, i: nat)
    requires i <= |lines|
    ensures var c := RunFrom(s, lines, i).crashedAt;
      c.Some? ==> i <= c.value < |lines| && StepSpec(s, lines[i]).Some? == (c.value > i)
    decreases |lines| - i
  {
    if i < |lines| && StepSpec(s, lines[i]).Some? {
      RunCrashLine(StepSpec(s, lines[i]).value, lines, i + 1);
    }
  }

  /** In a well-formed tree, nothing is in the way of a directory that exists. */
  lemma DirNotBlocked(fs: Fs, p: Path)
    requires FsValid(fs) && p in fs.dirs
    ensures !Blocked(fs, p) && MakeDirs(fs, p) == fs
  {
    forall k | 0 < k <= |p|
      ensures p[..k] !in fs.files
    {
      assert p[..k] in fs.dirs;
    }
    assert Prefixes(p) <= fs.dirs;
  }

  /**
   * Replaying the rest of a script that finished on a tree it had already
   * built gives the same stack at every line and changes nothing.
   */
  lemma {:induction false} Replay(s: State, lines: seq<string>, i: nat, last: Fs)
    requires i <= |lines| && FsValid(s.fs) && FsValid(last)
    requires RunFrom(s, lines, i) == RunResult(last, None)
    ensures RunFrom(State(last, s.stack), lines, i) == RunResult(last, None)
    decreases |lines| - i
  {
    if i < |lines| {
      var t := StepSpec(s, lines[i]).value;
      StepKeepsFs(s, lines[i]);
      RunKeepsFs(t, lines, i + 1);
      ReplayStep(s, lines[i], last);
      Replay(t, lines, i + 1, last);
    }
  }

  /** One line replayed on the finished tree makes the same stack and no change. */
  lemma ReplayStep(s: State, line: string, last: Fs)
    requires FsValid(s.fs) && FsValid(last) && StepSpec(s, line).Some?
    requires Preserves(StepSpec(s, line).value.fs, last)
    ensures StepSpec(State(last, s.stack), line) == Some(State(last, StepSpec(s, line).value.stack))
  {
    if ParseLine(line).Some? {
      ReplayEntry(s, ParseLine(line).value, last);
    }
  }

  lemma ReplayEntry(s: State, e: Entry, last: Fs)
    requires FsValid(s.fs) && FsValid(last) && Place(s, e).Some?
    requires Preserves(Place(s, e).value.fs, last)
    ensures Place(State(last, s.stack), e) == Some(State(last, Place(s, e).value.stack))
  {
    var popped := s.stack[..Min(|s.stack|, Depth(e))];
    var parent := popped[|popped| - 1];
    if e.isDir {
      MakeDirEntryKeepsFs(s.fs, parent + [e.name]);
    } else {
      MakeFileEntryKeepsFs(s.fs, parent, e.name);
      DirNotBlocked(last, parent);
    }
  }

  /** Running the script a second time on what it built changes nothing and raises nowhere. */
  lemma RunTwice(fs: Fs, lines: seq<string>)
    requires FsValid(fs) && RunFrom(State(fs, [[]]), lines, 0).crashedAt.None?
    ensures var built := RunFrom(State(fs, [[]]), lines, 0).fs;
      RunFrom(State(built, [[]]), lines, 0) == RunResult(built, None)
  {
    RunKeepsFs(State(fs, [[]]), lines, 0);
    Replay(State(fs, [[]]), lines, 0, RunFrom(State(fs, [[]]), lines, 0).fs);
  }

  /** The script's state: the file system and the stack of parent directories. */
  class Builder {
    var dirs: set<Path>
    var files: map<Path, string>
    var stack: seq<Path>

    function Current(): State
      reads this
    {
      State(Fs(dirs, files), stack)
    }

    /** The script starts with the project root alone on the stack. */
    constructor(fs: Fs)
      requires FsValid(fs)
      ensures Current() == State(fs, [[]]) && Chain(stack)
    {
      dirs := fs.dirs;
      files := fs.files;
      stack := [[]];
    }

    /** `while len(path_stack) > depth: path_stack.pop()`. */
    method PopTo(depth: nat)
      modifies this`stack
      ensures stack == old(stack)[..Min(|old(stack)|, depth)]
    {
      while |stack| > depth
        invariant |stack| >= Min(|old(stack)|, depth)
        invariant stack == old(stack)[..|stack|]
        decreases |stack|
      {
        stack := stack[..|stack| - 1];
      }
    }

    /** One iteration of the loop over lines; false where the script raises. */
    method Step(line: string) returns (ok: bool)
      modifies this
      ensures ok <==> StepSpec(old(Current()), line).Some?
      ensures ok ==> Current() == StepSpec(old(Current()), line).value
      ensures !ok ==> dirs == old(dirs) && files == old(files)
    {
      var entry := ParseLine(line);
      if entry.None? {
        return true;
      }
      ok := PlaceEntry(entry.value);
    }

    /** The body of the loop for a line that names an entry. */
    method PlaceEntry(e: Entry) returns (ok: bool)
      modifies this
      ensures ok <==> Place(old(Current()), e).Some?
      ensures ok ==> Current() == Place(old(Current()), e).value
      ensures !ok ==> dirs == old(dirs) && files == old(files)
    {
      PopTo(Depth(e));
      if stack == [] {
        return false;
      }
      var parent := stack[|stack| - 1];
      var full := parent + [e.name];
      if e.isDir {
        if !(full in dirs || full in files) {
          if Blocked(Fs(dirs, files), full) {
            return false;
          }
          dirs := dirs + Prefixes(full);
        }
        stack := stack + [full];
      } else {
        if Blocked(Fs(dirs, files), parent) {
          return false;
        }
        dirs := dirs + Prefixes(parent);
        if !(full in dirs || full in files) {
          files := files[full := ""];
        }
      }
      ok := true;
    }

    /** `create_project_structure`: every line in order, stopping at the first that raises. */
    method Run(lines: seq<string>) returns (crashedAt: Option<nat>)
      modifies this
      ensures RunResult(Fs(dirs, files), crashedAt) == RunFrom(old(Current()), lines, 0)
    {
      var i := 0;
      while i < |lines|
        invariant 0 <= i <= |lines|
        invariant RunFrom(Current(), lines, i) == RunFrom(old(Current()), lines, 0)
      {
        var ok := Step(lines[i]);
        if !ok {
          return Some(i);
        }
        i := i + 1;
      }
      return None;
    }
  }
}
