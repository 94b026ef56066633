/**
 * The `rbext` extension-developer command (reviewboard/cmdline/rbext.py): option
 * normalisation for `rbext create`, the files it templates, argv handling and exit codes.
 * Filesystem writes, console output, argparse and the test runner are not modelled;
 * their outcomes are parameters.
 */
module RbExt {
  import opened Wrappers
  import Text
  import Version

  const ExtensionSuffix := "Extension"
  const ReplaceMe := "<REPLACE ME>"
  const DefaultReadmeBody := "Describe your extension."

  /** A character of `[A-Za-z0-9_]`. */
  predicate IsWordChar(c: char) {
    Text.IsAlnum(c) || c == '_'
  }

  /** The current word, if any, as a one-element list. */
  function Flush(cur: string): (ws: seq<string>)
    ensures cur == "" ==> ws == []
    ensures cur != "" ==> ws == [cur]
  {
    if cur == "" then [] else [cur]
  }

  /**
   * The words `re.sub(r'[^A-Za-z0-9]+', ' ', s).split()` produces: the maximal runs of
   * ASCII letters and digits, continuing the partial word `cur`.
   */
  function WordsFrom(s: string, cur: string): (ws: seq<string>)
    requires forall i :: 0 <= i < |cur| ==> Text.IsAlnum(cur[i])
    ensures forall k :: 0 <= k < |ws| ==> ws[k] != "" && forall i :: 0 <= i < |ws[k]| ==> Text.IsAlnum(ws[k][i])
    decreases |s|
  {
    if |s| == 0 then Flush(cur)
    else if Text.IsAlnum(s[0]) then WordsFrom(s[1..], cur + [s[0]])
    else Flush(cur) + WordsFrom(s[1..], "")
  }

  function Words(s: string): seq<string> {
    WordsFrom(s, "")
  }

  function ToUpper(c: char): (u: char)
    ensures Text.IsAlnum(c) ==> Text.IsAlnum(u)
    ensures Text.IsLetter(c) ==> Text.IsUpper(u)
  {
    if Text.IsLower(c) then (c as int - 32) as char else c
  }

  function ToLower(c: char): (l: char)
    ensures Text.IsAlnum(c) ==> Text.IsAlnum(l)
  {
    if Text.IsUpper(c) then (c as int + 32) as char else c
  }

  /** `str.capitalize()` on an ASCII word: first character upper-cased, the rest lower-cased. */
  function Capitalize(w: string): (r: string)
    ensures |r| == |w|
    ensures |w| > 0 ==> r[0] == ToUpper(w[0])
    ensures forall i :: 1 <= i < |w| ==> r[i] == ToLower(w[i])
  {
    if |w| == 0 then "" else [ToUpper(w[0])] + seq(|w| - 1, i requires 0 <= i < |w| - 1 => ToLower(w[i + 1]))
  }

  /** The capitalised words, concatenated. */
  function CamelCase(ws: seq<string>): (r: string)
    requires forall k :: 0 <= k < |ws| ==> forall i :: 0 <= i < |ws[k]| ==> Text.IsAlnum(ws[k][i])
    ensures forall i :: 0 <= i < |r| ==> Text.IsAlnum(r[i])
    ensures |ws| > 0 && |ws[0]| > 0 ==> |r| > 0 && r[0] == ToUpper(ws[0][0])
  {
    if |ws| == 0 then ""
    else
      var head := Capitalize(ws[0]);
      assert forall i :: 0 <= i < |head| ==> Text.IsAlnum(head[i]) by {
        forall i | 0 <= i < |head| ensures Text.IsAlnum(head[i]) {
          if i > 0 { assert head[i] == ToLower(ws[0][i]); }
        }
      }
      head + CamelCase(ws[1..])
  }

  /**
   * `_normalize_class_name`: the name's words in CamelCase, with "Extension" appended
   * unless already there.
   */
  function NormalizeClassName(name: string): (r: string)
    ensures Text.EndsWith(r, ExtensionSuffix)
    ensures forall i :: 0 <= i < |r| ==> Text.IsAlnum(r[i])
    ensures Text.StartsWith(r, CamelCase(Words(name)))
  {
    var camel := CamelCase(Words(name));
    if Text.EndsWith(camel, ExtensionSuffix) then camel
    else
      var r := camel + ExtensionSuffix;
      assert r[|r| - |ExtensionSuffix|..] == ExtensionSuffix;
      r
  }

  /**
   * What `re.match(r'[A-Za-z][A-Za-z0-9_]+Extension$', s)` accepts: a letter, at least one
   * more word character, then "Extension" at the very end.
   */
  predicate ClassNamePattern(s: string) {
    |s| >= 1 + 1 + |ExtensionSuffix| && Text.IsLetter(s[0]) &&
    (forall i :: 0 <= i < |s| ==> IsWordChar(s[i])) &&
    Text.EndsWith(s, ExtensionSuffix)
  }

  /** What `re.match(r'[A-Za-z][A-Za-z0-9._-]*', s)` accepts: anything starting with a letter. */
  predicate PackageNamePattern(s: string) {
    |s| > 0 && Text.IsLetter(s[0])
  }

  /** The pattern needs a character between the leading letter and the suffix. */
  lemma ClassNamePatternEdges()
    ensures !ClassNamePattern("AExtension")
    ensures !ClassNamePattern("Extension")
    ensures ClassNamePattern("MyExtension")
    ensures PackageNamePattern("my package!")
  {
    assert "MyExtension"[11 - 9..] == ExtensionSuffix;
  }

  /**
   * The class name suggested for a name whose first word starts with a letter passes the
   * class-name check whenever it is long enough to.
   */
  lemma SuggestedClassNameAccepted(name: string)
    requires Words(name) != [] && Text.IsLetter(Words(name)[0][0])
    requires |NormalizeClassName(name)| >= 1 + 1 + |ExtensionSuffix|
    ensures ClassNamePattern(NormalizeClassName(name))
  {
    var r := NormalizeClassName(name);
    var camel := CamelCase(Words(name));
    assert camel[0] == r[0];
  }

  /** The error for a supplied package name that fails the check. */
  function PackageNameError(packageName: string, normalized: string): string {
    "\"" + packageName + "\" is not a valid package name. Try --package-name=\"" + normalized + "\""
  }

  /** The error for a supplied class name that fails the check. */
  function ClassNameError(className: string, normalized: string): string {
    "\"" + className + "\" is not a valid class name. Try --class-name=\"" + normalized + "\""
  }

  /** The name, package name and class name `rbext create` goes on with. */
  datatype ExtensionNames = ExtensionNames(name: string, packageName: string, className: string)

  /**
   * `_process_options`: the stripped name; a missing package or class name derived from it;
   * a supplied one stripped and checked, the package name first. Empty stands for missing.
   * `normalizePackage` is the packaging library's name normalisation.
   */
  function ProcessedNames(name: string, packageName: string, className: string,
                          normalizePackage: string -> string): (r: Result<ExtensionNames, string>)
    ensures r.Success? ==> r.value.name == Text.Strip(name)
    ensures r.Success? && packageName == "" ==> r.value.packageName == normalizePackage(Text.Strip(name))
    ensures r.Success? && packageName != "" ==> r.value.packageName == Text.Strip(packageName) && PackageNamePattern(r.value.packageName)
    ensures r.Success? && className == "" ==> r.value.className == NormalizeClassName(Text.Strip(name))
    ensures r.Success? && className != "" ==> r.value.className == Text.Strip(className) && ClassNamePattern(r.value.className)
  {
    var n := Text.Strip(name);
    var p := if packageName == "" then normalizePackage(n) else Text.Strip(packageName);
    if packageName != "" && !PackageNamePattern(p) then Failure(PackageNameError(p, normalizePackage(p)))
    else
      var c := if className == "" then NormalizeClassName(n) else Text.Strip(className);
      if className != "" && !ClassNamePattern(c) then Failure(ClassNameError(c, NormalizeClassName(c)))
      else Success(ExtensionNames(n, p, c))
  }

  /** Option processing fails exactly when a supplied name fails its check, package name first. */
  lemma ProcessedNamesFailures(name: string, packageName: string, className: string, normalizePackage: string -> string)
    ensures var r := ProcessedNames(name, packageName, className, normalizePackage);
      var p := Text.Strip(packageName);
      var c := Text.Strip(className);
      (r.Failure? <==> (packageName != "" && !PackageNamePattern(p)) || (className != "" && !ClassNamePattern(c))) &&
      (packageName != "" && !PackageNamePattern(p) ==> r == Failure(PackageNameError(p, normalizePackage(p)))) &&
      ((packageName == "" || PackageNamePattern(p)) && className != "" && !ClassNamePattern(c) ==>
        r == Failure(ClassNameError(c, NormalizeClassName(c))))
  {
  }

  /** The parsed options of `rbext create` that `_process_options` rewrites in place. */
  class CreateOptions {
    var name: string
    var packageName: string
    var className: string

    constructor (name: string, packageName: string, className: string)
      ensures this.name == name && this.packageName == packageName && this.className == className
    {
      this.name := name;
      this.packageName := packageName;
      this.className := className;
    }

    /** `_process_options`: on success the three names are written back; a failure raises. */
    method ProcessOptions(normalizePackage: string -> string) returns (r: Result<(), string>)
      modifies this
      ensures var expected := ProcessedNames(old(name), old(packageName), old(className), normalizePackage);
        (expected.Failure? ==> r == Failure(expected.error) && name == old(name) &&
                               packageName == old(packageName) && className == old(className)) &&
        (expected.Success? ==> r.Success? && name == expected.value.name &&
                               packageName == expected.value.packageName && className == expected.value.className)
    {
      var n := Text.Strip(name);
      var p := packageName;
      var c := className;
      if p == "" {
        p := normalizePackage(n);
      } else {
        p := Text.Strip(p);
        if !PackageNamePattern(p) {
          return Failure(PackageNameError(p, normalizePackage(p)));
        }
      }
      if c == "" {
        c := NormalizeClassName(n);
      } else {
        c := Text.Strip(c);
        if !ClassNamePattern(c) {
          return Failure(ClassNameError(c, NormalizeClassName(c)));
        }
      }
      name, packageName, className := n, p, c;
      r := Success(());
    }
  }

  /** `parse_options` hides the first "--" and everything after it from argparse. */
  function TruncateAtDoubleDash(argv: seq<string>): (r: seq<string>)
    ensures r <= argv
    ensures "--" !in r
    ensures "--" !in argv <==> r == argv
    ensures "--" in argv ==> argv[|r|] == "--"
  {
    if |argv| == 0 then []
    else if argv[0] == "--" then []
    else
      var rest := TruncateAtDoubleDash(argv[1..]);
      assert argv == [argv[0]] + argv[1..];
      [argv[0]] + rest
  }

  /** The README body: the non-empty summary and description, a blank line apart, or a placeholder. */
  function ReadmeBody(summary: string, description: string): (r: string)
    ensures r != ""
    ensures summary == "" && description == "" ==> r == DefaultReadmeBody
    ensures summary != "" ==> Text.StartsWith(r, summary)
    ensures description != "" ==> Text.EndsWith(r, description)
    ensures summary != "" && description != "" ==> r == summary + "\n\n" + description
  {
    var parts := (if summary != "" then [summary] else []) + (if description != "" then [description] else []);
    var joined := Text.Join(parts, "\n\n");
    if joined == "" then DefaultReadmeBody
    else if summary != "" && description != "" then
      assert parts == [summary, description];
      assert parts[1..] == [description];
      assert Text.Join(parts[1..], "\n\n") == description;
      assert joined == summary + "\n\n" + description;
      joined
    else if summary != "" then
      assert joined == summary;
      joined
    else
      assert parts == [description];
      assert joined == description;
      joined
  }

  /** `_create_readme`'s lines (before dedenting): the name, its '=' underline, a blank line and the body. */
  function ReadmeLines(name: string, summary: string, description: string): (lines: seq<string>)
    ensures |lines| == 4 && lines[0] == name && lines[2] == ""
    ensures |lines[1]| == |name| && forall i :: 0 <= i < |lines[1]| ==> lines[1][i] == '='
    ensures lines[3] == ReadmeBody(summary, description)
  {
    [name, Text.Repeat('=', |name|), "", ReadmeBody(summary, description)]
  }

  /** The values `_create_pyproject_toml` fills into its template. */
  datatype PyprojectValues = PyprojectValues(
    requiredReviewBoard: string,
    projectName: string,
    projectVersion: string,
    description: string,
    authorName: string,
    authorEmail: string,
    entryPointName: string,
    entryPointTarget: string,
    testPath: string)

  /** `_create_pyproject_toml`: empty author, e-mail and summary become "<REPLACE ME>". */
  function PyprojectToml(author: string, authorEmail: string, className: string, packageName: string,
                         summary: string, version: string): (r: PyprojectValues)
    ensures r.authorName != "" && r.authorEmail != "" && r.description != ""
    ensures (author == "" ==> r.authorName == ReplaceMe) && (author != "" ==> r.authorName == author)
    ensures (authorEmail == "" ==> r.authorEmail == ReplaceMe) && (authorEmail != "" ==> r.authorEmail == authorEmail)
    ensures (summary == "" ==> r.description == ReplaceMe) && (summary != "" ==> r.description == summary)
    ensures r.projectName == packageName && r.entryPointName == packageName && r.testPath == packageName
    ensures r.projectVersion == version
    ensures r.requiredReviewBoard == "reviewboard~=" + Version.PackageVersion(Version.Current)
    ensures Text.StartsWith(r.entryPointTarget, packageName + ".extension:") && Text.EndsWith(r.entryPointTarget, className)
  {
    var target := packageName + ".extension:" + className;
    assert target[|target| - |className|..] == className;
    PyprojectValues(
      "reviewboard~=" + Version.PackageVersion(Version.Current),
      packageName, version,
      if summary == "" then ReplaceMe else summary,
      if author == "" then ReplaceMe else author,
      if authorEmail == "" then ReplaceMe else authorEmail,
      packageName, target, packageName)
  }

  /** The entry point names the extension module of the package and the extension class. */
  lemma EntryPointParsesBack(author: string, authorEmail: string, className: string, packageName: string,
                             summary: string, version: string)
    requires ':' !in packageName && ':' !in className
    ensures Text.Split(PyprojectToml(author, authorEmail, className, packageName, summary, version).entryPointTarget, ':')
      == [packageName + ".extension", className]
  {
    var moduleName := packageName + ".extension";
    assert ':' !in ".extension";
    assert ':' !in moduleName;
    Text.SplitTwo(moduleName, className, ':');
    assert moduleName + [':'] + className == packageName + ".extension:" + className;
  }

  /** Looking up the `--extension-class` given to `rbext test`. */
  datatype ClassLookup = ClassFound | ClassMissing | ModuleMissing

  /** What a command did: returned an exit code, raised an exception, or exited the process. */
  datatype CommandOutcome = Returned(code: int) | Raised(message: string) | Exited(code: int)

  /** `rsplit('.', 1)` unpacked into two names; `None` when there is no '.' (a ValueError). */
  function SplitModuleAndClass(path: string): (r: Option<(string, string)>)
    ensures r.None? <==> '.' !in path
    ensures r.Some? ==> r.value.0 + "." + r.value.1 == path && '.' !in r.value.1
    decreases |path|
  {
    if |path| == 0 then None
    else if path[|path| - 1] == '.' then Some((path[..|path| - 1], ""))
    else
      match SplitModuleAndClass(path[..|path| - 1])
      case None =>
        assert path == path[..|path| - 1] + [path[|path| - 1]];
        None
      case Some((m, c)) =>
        assert path == path[..|path| - 1] + [path[|path| - 1]];
        Some((m, c + [path[|path| - 1]]))
  }

  /**
   * The outcome of `TestCommand.main`: 1 when the requested extension class cannot be
   * imported, else 1 iff the test runner reports failures.
   */
  function TestCommandOutcome(extensionClass: string, lookup: (string, string) -> ClassLookup, failures: nat): (r: CommandOutcome)
    ensures extensionClass == "" ==> (r == Returned(1) <==> failures > 0) && (r == Returned(0) <==> failures == 0)
    ensures extensionClass != "" && '.' !in extensionClass ==> r.Raised?
    ensures extensionClass != "" && '.' in extensionClass ==>
      var (moduleName, className) := SplitModuleAndClass(extensionClass).value;
      (!lookup(moduleName, className).ClassFound? ==> r == Returned(1)) &&
      (lookup(moduleName, className).ClassFound? ==> (r == Returned(1) <==> failures > 0) && (r == Returned(0) <==> failures == 0))
    ensures r.Returned? ==> r.code == 0 || r.code == 1
    ensures r == Returned(0) ==> failures == 0
  {
    if extensionClass == "" then
      if failures > 0 then Returned(1) else Returned(0)
    else
      match SplitModuleAndClass(extensionClass)
      case None => Raised("not enough values to unpack")
      case Some((moduleName, className)) =>
        match lookup(moduleName, className)
        case ClassMissing => Returned(1)
        case ModuleMissing => Returned(1)
        case ClassFound => if failures > 0 then Returned(1) else Returned(0)
  }

  /** The process-wide state `RBExt.run` touches: `sys.argv`. */
  class RBExt {
    var sysArgv: seq<string>

    constructor (sysArgv: seq<string>)
      ensures this.sysArgv == sysArgv
    {
      this.sysArgv := sysArgv;
    }

    /**
     * `RBExt.run`: argparse sees the arguments up to "--"; the command runs with `sys.argv`
     * set to all of them; any exception becomes exit code 1; `sys.argv` is restored.
     */
    method Run(argv: seq<string>, hasCommand: seq<string> -> bool, command: seq<string> -> CommandOutcome)
      returns (exitCode: int)
      modifies this
      ensures sysArgv == old(sysArgv)
      ensures !hasCommand(TruncateAtDoubleDash(argv)) ==> exitCode == 1
      ensures hasCommand(TruncateAtDoubleDash(argv)) ==>
        match command(argv)
        case Returned(code) => exitCode == code
        case Raised(_) => exitCode == 1
        case Exited(code) => exitCode == code
    {
      var parsed := TruncateAtDoubleDash(argv);
      if !hasCommand(parsed) {
        return 1;
      }
      var oldArgv := sysArgv;
      sysArgv := argv;
      var outcome := command(sysArgv);
      match outcome {
        case Returned(code) => exitCode := code;
        case Raised(_) => exitCode := 1;
        case Exited(code) => exitCode := code;
      }
      sysArgv := oldArgv;
    }
  }
}
