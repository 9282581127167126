// The build step that minifies the SkSL modules: for each module, the dependency
// list from a fixed table, then two runs of sksl-minify (optimized and unoptimized),
// stopping with exit status 1 at an unknown module or a failing run (gn/minify_sksl.py).
module MinifyDriver {
  import opened Wrappers

  /** The index of the last `c` in `p`, or -1 (str.rfind). */
  function LastIndex(p: string, c: char): (r: int)
    ensures -1 <= r < |p|
  {
    if |p| == 0 then -1 else if p[|p| - 1] == c then |p| - 1 else LastIndex(p[..|p| - 1], c)
  }

  /**
   * os.path.splitext(p)[0] on POSIX: the text before the last '.' of the last
   * component, unless that component is only dots up to it (a leading-dot name).
   */
  function StripExtension(p: string): string {
    p[..StemLength(p)]
  }

  /** Where the extension starts: the last '.' of the last component, or the end. */
  function StemLength(p: string): (n: nat)
    ensures n <= |p|
  {
    var sepIndex := LastIndex(p, '/');
    var dotIndex := LastIndex(p, '.');
    if dotIndex > sepIndex && !AllAre(p[sepIndex + 1..dotIndex], '.') then dotIndex else |p|
  }

  /** Whether every character of `s` is `c`. */
  predicate AllAre(s: string, c: char) {
    |s| == 0 || (s[0] == c && AllAre(s[1..], c))
  }

  /** The text with trailing '/' removed (str.rstrip('/')). */
  function StripTrailingSlashes(s: string): (r: string)
    ensures |r| <= |s|
  {
    if |s| == 0 || s[|s| - 1] != '/' then s else StripTrailingSlashes(s[..|s| - 1])
  }

  /** os.path.split on POSIX: the head without trailing slashes (unless it is all slashes) and the tail. */
  function SplitPath(p: string): (string, string) {
    var i := LastIndex(p, '/') + 1;
    var head := p[..i];
    (if |head| > 0 && !AllAre(head, '/') then StripTrailingSlashes(head) else head, p[i..])
  }

  /** The last `c` is a `c`, and none comes after it. */
  lemma {:induction false} LastIndexFound(p: string, c: char)
    ensures var r := LastIndex(p, c);
      (r >= 0 ==> p[r] == c) && forall j :: r < j < |p| ==> p[j] != c
    decreases |p|
  {
    if |p| > 0 && p[|p| - 1] != c {
      LastIndexFound(p[..|p| - 1], c);
    }
  }

  /** Appending text without `c` keeps the last `c`; appending text with one moves it into the new part. */
  lemma {:induction false} LastIndexAppend(a: string, b: string, c: char)
    ensures (forall j :: 0 <= j < |b| ==> b[j] != c) ==> LastIndex(a + b, c) == LastIndex(a, c)
    ensures |b| > 0 && b[|b| - 1] == c ==> LastIndex(a + b, c) == |a| + |b| - 1
    decreases |b|
  {
    if |b| > 0 {
      assert (a + b)[..|a + b| - 1] == a + b[..|b| - 1];
      LastIndexAppend(a, b[..|b| - 1], c);
    } else {
      assert a + b == a;
    }
  }

  /** A module file `dir/name.ext` splits into its directory and its bare name. */
  lemma PartsOf(dir: string, name: string, ext: string)
    requires |dir| > 0 && dir[|dir| - 1] != '/'
    requires |name| > 0 && forall j :: 0 <= j < |name| ==> name[j] != '/' && name[j] != '.'
    requires forall j :: 0 <= j < |ext| ==> ext[j] != '/' && ext[j] != '.'
    ensures SplitPath(StripExtension(dir + "/" + name + "." + ext)) == (dir, name)
  {
    StripExtensionOf(dir + "/", name, ext);
    assert dir + "/" + name + "." + ext == (dir + "/") + name + "." + ext;
    SplitPathOf(dir, name);
  }

  /** The extension after the last '.' goes, when a name without dots precedes it in the last component. */
  lemma StripExtensionOf(dir: string, name: string, ext: string)
    requires |name| > 0 && forall j :: 0 <= j < |name| ==> name[j] != '/' && name[j] != '.'
    requires forall j :: 0 <= j < |ext| ==> ext[j] != '/' && ext[j] != '.'
    ensures StripExtension(dir + name + "." + ext) == dir + name
  {
    var stem := dir + name;
    var p := stem + "." + ext;
    assert LastIndex(p, '.') == |stem| by {
      LastIndexAppend(stem + ".", ext, '.');
      LastIndexAppend(stem, ".", '.');
    }
    var sep := LastIndex(p, '/');
    assert sep < |dir| by {
      var tail := name + "." + ext;
      assert p == dir + tail;
      NoSlashIn(name, ext);
      LastIndexAppend(dir, tail, '/');
    }
    assert p[sep + 1..|stem|][|dir| - sep - 1] == name[0];
    NotAllAre(p[sep + 1..|stem|], '.', |dir| - sep - 1);
    assert p[..|stem|] == stem;
  }

  lemma NoSlashIn(name: string, ext: string)
    requires forall j :: 0 <= j < |name| ==> name[j] != '/'
    requires forall j :: 0 <= j < |ext| ==> ext[j] != '/'
    ensures forall j :: 0 <= j < |name + "." + ext| ==> (name + "." + ext)[j] != '/'
  {
    var tail := name + "." + ext;
    assert forall j :: 0 <= j < |name| ==> tail[j] == name[j];
    assert forall j :: |name| < j < |tail| ==> tail[j] == ext[j - |name| - 1];
  }

  /** `dir/name` splits at its last slash when the directory does not end in one. */
  lemma SplitPathOf(dir: string, name: string)
    requires |dir| > 0 && dir[|dir| - 1] != '/'
    requires forall j :: 0 <= j < |name| ==> name[j] != '/'
    ensures SplitPath(dir + "/" + name) == (dir, name)
  {
    var stem := dir + "/" + name;
    assert stem == (dir + "/") + name;
    LastIndexAppend(dir + "/", name, '/');
    LastIndexAppend(dir, "/", '/');
    assert LastIndex(stem, '/') == |dir|;
    assert stem[..|dir| + 1] == dir + "/";
    assert stem[|dir| + 1..] == name;
    assert (dir + "/")[..|dir|] == dir;
    assert StripTrailingSlashes(dir + "/") == dir;
    assert !AllAre(dir + "/", '/') by {
      NotAllAre(dir + "/", '/', |dir| - 1);
    }
  }

  /** A character other than `c` makes the text not all `c`. */
  lemma {:induction false} NotAllAre(s: string, c: char, k: nat)
    requires k < |s| && s[k] != c
    ensures !AllAre(s, c)
    decreases k
  {
    if k > 0 {
      NotAllAre(s[1..], c, k - 1);
    }
  }

  /** os.path.join of two parts on POSIX. */
  function JoinPath(a: string, b: string): string {
    if |b| > 0 && b[0] == '/' then b
    else if |a| == 0 || a[|a| - 1] == '/' then a + b
    else a + "/" + b
  }

  /** The dependency table: which modules' names a module's minified names must avoid. */
  const Dependencies: map<string, seq<string>> := map[
    "sksl_compute" := ["sksl_gpu", "sksl_shared"],
    "sksl_gpu" := ["sksl_shared"],
    "sksl_frag" := ["sksl_gpu", "sksl_shared"],
    "sksl_vert" := ["sksl_gpu", "sksl_shared"],
    "sksl_graphite_frag" := ["sksl_frag", "sksl_gpu", "sksl_shared"],
    "sksl_graphite_vert" := ["sksl_vert", "sksl_gpu", "sksl_shared"],
    "sksl_public" := ["sksl_shared"],
    "sksl_rt_shader" := ["sksl_public", "sksl_shared"],
    "sksl_shared" := []
  ]

  /**
   * The table is closed: every dependency has its own entry, and a module lists
   * every dependency of its dependencies, so each run sees all the modules below it.
   */
  lemma DependenciesClosed()
    ensures forall m, d :: m in Dependencies && d in Dependencies[m] ==> d in Dependencies
    ensures forall m, d, e :: m in Dependencies && d in Dependencies[m] && d in Dependencies && e in Dependencies[d] ==>
      e in Dependencies[m]
  {
    assert Dependencies.Keys == {"sksl_compute", "sksl_gpu", "sksl_frag", "sksl_vert", "sksl_graphite_frag",
      "sksl_graphite_vert", "sksl_public", "sksl_rt_shader", "sksl_shared"};
  }

  /** What the script does, in order, outside computing strings. */
  datatype Action =
    | MakeDir(path: string)
    | RunTool(args: seq<string>)
    | Print(text: string)
    | PrintToolOutput(args: seq<string>)

  /** The module list: the module itself, then each dependency's file beside it, in table order. */
  function ModuleList(file: string, moduleDir: string, deps: seq<string>): (r: seq<string>)
    ensures |r| == |deps| + 1 && r[0] == file
  {
    if |deps| == 0 then [file]
    else ModuleList(file, moduleDir, deps[..|deps| - 1]) + [DependencyFile(moduleDir, deps[|deps| - 1])]
  }

  /** A dependency's source file, beside the module's own. */
  function DependencyFile(moduleDir: string, dep: string): string {
    JoinPath(moduleDir, dep) + ".sksl"
  }

  /** The list holds the module first and then each dependency's file, in table order. */
  lemma {:induction false} ModuleListElements(file: string, moduleDir: string, deps: seq<string>)
    ensures forall k :: 0 <= k < |deps| ==> ModuleList(file, moduleDir, deps)[k + 1] == DependencyFile(moduleDir, deps[k])
    decreases |deps|
  {
    if |deps| > 0 {
      ModuleListElements(file, moduleDir, deps[..|deps| - 1]);
    }
  }

  /** The optimized run: the tool, the output file, then the module list. */
  function OptimizedArgs(tool: string, target: string, moduleList: seq<string>): (r: seq<string>)
    ensures |r| == |moduleList| + 2 && r[0] == tool && r[1] == target + ".minified.sksl" && r[2..] == moduleList
  {
    [tool, target + ".minified.sksl"] + moduleList
  }

  /** The unoptimized run: the tool, the flag, the output file, then the module list. */
  function UnoptimizedArgs(tool: string, target: string, moduleList: seq<string>): (r: seq<string>)
    ensures |r| == |moduleList| + 3 && r[0] == tool && r[1] == "--unoptimized" &&
      r[2] == target + ".unoptimized.sksl" && r[3..] == moduleList
  {
    [tool, "--unoptimized", target + ".unoptimized.sksl"] + moduleList
  }

  /** The message for a module missing from the table. */
  function UnknownModuleMessage(moduleName: string): string {
    "### Error compiling " + moduleName + ": dependency list must be specified"
  }

  /** The message printed before a failing run's output. */
  function FailedMessage(file: string): string {
    "### Error compiling " + file + ":"
  }

  /** What one module does: its actions, the exit status if it stops the script, and whether the directory exists after. */
  datatype Step = Step(actions: seq<Action>, exit: Option<int>, dirExists: bool)

  /** The module's paths: the directory and name of the file without its extension. */
  function Parts(file: string): (string, string) {
    SplitPath(StripExtension(file))
  }

  /**
   * The module after the directory check: the table lookup and the two runs,
   * stopping with status 1 at an unknown name or a failing run;
   * `failing` holds the argument lists whose run fails.
   */
  function ModuleBody(tool: string, targetDir: string, file: string, failing: set<seq<string>>, table: map<string, seq<string>>): (r: (seq<Action>, Option<int>))
    ensures forall k :: 0 <= k < |r.0| ==> !r.0[k].MakeDir?
    ensures r.1.Some? ==> r.1 == Some(1)
  {
    var (moduleDir, moduleName) := Parts(file);
    var target := JoinPath(targetDir, moduleName);
    if moduleName !in table then
      ([Print(UnknownModuleMessage(moduleName))], Some(1))
    else
      var moduleList := ModuleList(file, moduleDir, table[moduleName]);
      Runs(OptimizedArgs(tool, target, moduleList), UnoptimizedArgs(tool, target, moduleList), FailedMessage(file), failing)
  }

  /** The two runs: the optimized one, then the unoptimized one if the first succeeded; a failure prints and stops with 1. */
  function Runs(opt: seq<string>, unopt: seq<string>, failed: string, failing: set<seq<string>>): (r: (seq<Action>, Option<int>))
    ensures forall k :: 0 <= k < |r.0| ==> !r.0[k].MakeDir?
    ensures |r.0| >= 2 && r.0[0] == RunTool(opt) && (opt !in failing ==> r.0[1] == RunTool(unopt))
    ensures r.1.None? <==> opt !in failing && unopt !in failing
    ensures r.1.Some? ==> r.1 == Some(1) && r.0[|r.0| - 2] == Print(failed)
  {
    if opt in failing then ([RunTool(opt), Print(failed), PrintToolOutput(opt)], Some(1))
    else if unopt in failing then ([RunTool(opt), RunTool(unopt), Print(failed), PrintToolOutput(unopt)], Some(1))
    else ([RunTool(opt), RunTool(unopt)], None)
  }

  /** One turn of the loop: the directory created when it is missing, then the module itself. */
  function ModuleStep(tool: string, targetDir: string, file: string, dirExists: bool, failing: set<seq<string>>, table: map<string, seq<string>>): (r: Step)
    ensures r.dirExists
  {
    var body := ModuleBody(tool, targetDir, file, failing, table);
    Step((if dirExists then [] else [MakeDir(targetDir)]) + body.0, body.1, true)
  }

  /**
   * Each module's step: only the first can find the directory missing, since
   * every step leaves it in place.
   */
  function Steps(tool: string, targetDir: string, modules: seq<string>, dirExists: bool, failing: set<seq<string>>, table: map<string, seq<string>>): (r: seq<Step>)
    ensures |r| == |modules|
  {
    seq(|modules|, k requires 0 <= k < |modules| => ModuleStep(tool, targetDir, modules[k], dirExists || k > 0, failing, table))
  }

  /** The steps from `i` on, run in order up to the first that stops: the actions and the exit status. */
  function Fold(steps: seq<Step>, i: nat): (seq<Action>, int)
    requires i <= |steps|
    decreases |steps| - i
  {
    if i == |steps| then ([], 0)
    else if steps[i].exit.Some? then (steps[i].actions, steps[i].exit.value)
    else
      var rest := Fold(steps, i + 1);
      (steps[i].actions + rest.0, rest.1)
  }

  /** The whole script: its actions and its exit status. */
  function Script(tool: string, targetDir: string, modules: seq<string>, dirExists: bool, failing: set<seq<string>>, table: map<string, seq<string>>): (seq<Action>, int) {
    Fold(Steps(tool, targetDir, modules, dirExists, failing, table), 0)
  }

  /** The exit status is 0 exactly when no step stops, and 1 otherwise. */
  lemma {:induction false} FoldStatus(steps: seq<Step>, i: nat)
    requires i <= |steps|
    requires forall k :: i <= k < |steps| ==> steps[k].exit.None? || steps[k].exit == Some(1)
    ensures Fold(steps, i).1 == 0 || Fold(steps, i).1 == 1
    ensures Fold(steps, i).1 == 0 <==> forall k :: i <= k < |steps| ==> steps[k].exit.None?
    decreases |steps| - i
  {
    if i < |steps| && steps[i].exit.None? {
      FoldStatus(steps, i + 1);
    }
  }

  /** Only the first step's directory creation can reach the actions. */
  lemma {:induction false} FoldMakeDirs(steps: seq<Step>, i: nat)
    requires i <= |steps|
    requires forall k :: i < k < |steps| ==> CountMakeDir(steps[k].actions) == 0
    ensures CountMakeDir(Fold(steps, i).0) <= if i < |steps| then CountMakeDir(steps[i].actions) else 0
    decreases |steps| - i
  {
    if i < |steps| && steps[i].exit.None? {
      FoldMakeDirs(steps, i + 1);
      CountMakeDirAppend(steps[i].actions, Fold(steps, i + 1).0);
    }
  }

  /** The script ends with 0 exactly when every module runs both builds, and with 1 otherwise. */
  lemma ScriptStatus(tool: string, targetDir: string, modules: seq<string>, dirExists: bool, failing: set<seq<string>>, table: map<string, seq<string>>)
    ensures var status := Script(tool, targetDir, modules, dirExists, failing, table).1;
      (status == 0 || status == 1) &&
      (status == 0 <==> forall k :: 0 <= k < |modules| ==> ModuleBody(tool, targetDir, modules[k], failing, table).1.None?)
  {
    var steps := Steps(tool, targetDir, modules, dirExists, failing, table);
    assert forall k :: 0 <= k < |modules| ==> steps[k].exit == ModuleBody(tool, targetDir, modules[k], failing, table).1;
    FoldStatus(steps, 0);
  }

  function CountMakeDir(actions: seq<Action>): nat {
    if |actions| == 0 then 0 else CountMakeDir(actions[..|actions| - 1]) + (if actions[|actions| - 1].MakeDir? then 1 else 0)
  }

  lemma CountMakeDirAppend(a: seq<Action>, b: seq<Action>)
    ensures CountMakeDir(a + b) == CountMakeDir(a) + CountMakeDir(b)
    decreases |b|
  {
    if |b| > 0 {
      assert (a + b)[..|a + b| - 1] == a + b[..|b| - 1];
      CountMakeDirAppend(a, b[..|b| - 1]);
    } else {
      assert a + b == a;
    }
  }

  /** The output directory is created at most once, and only when it was absent. */
  lemma MakeDirAtMostOnce(tool: string, targetDir: string, modules: seq<string>, dirExists: bool, failing: set<seq<string>>, table: map<string, seq<string>>)
    ensures var n := CountMakeDir(Script(tool, targetDir, modules, dirExists, failing, table).0);
      n <= 1 && (dirExists ==> n == 0)
  {
    var steps := Steps(tool, targetDir, modules, dirExists, failing, table);
    forall k | 0 <= k < |modules|
      ensures CountMakeDir(steps[k].actions) == if dirExists || k > 0 then 0 else 1
    {
      StepMakeDirs(tool, targetDir, modules[k], dirExists || k > 0, failing, table);
    }
    FoldMakeDirs(steps, 0);
  }

  /** One module creates the directory exactly when it was absent. */
  lemma StepMakeDirs(tool: string, targetDir: string, file: string, dirExists: bool, failing: set<seq<string>>, table: map<string, seq<string>>)
    ensures CountMakeDir(ModuleStep(tool, targetDir, file, dirExists, failing, table).actions) == if dirExists then 0 else 1
  {
    var body := ModuleBody(tool, targetDir, file, failing, table).0;
    var mk: seq<Action> := if dirExists then [] else [MakeDir(targetDir)];
    NoMakeDir(body);
    CountMakeDirAppend(mk, body);
    if !dirExists {
      assert mk[..0] == [];
    }
  }

  lemma {:induction false} NoMakeDir(actions: seq<Action>)
    requires forall k :: 0 <= k < |actions| ==> !actions[k].MakeDir?
    ensures CountMakeDir(actions) == 0
    decreases |actions|
  {
    if |actions| > 0 {
      NoMakeDir(actions[..|actions| - 1]);
    }
  }

  /** A module missing from the table stops the script with status 1 before any tool run for it. */
  lemma UnknownModuleStops(tool: string, targetDir: string, file: string, failing: set<seq<string>>, table: map<string, seq<string>>)
    requires Parts(file).1 !in table
    ensures var body := ModuleBody(tool, targetDir, file, failing, table);
      body.1 == Some(1) && forall k :: 0 <= k < |body.0| ==> !body.0[k].RunTool?
  {
  }

  /**
   * A known module runs the optimized build first and the unoptimized one only
   * after it succeeds, and goes on exactly when neither fails.
   */
  lemma KnownModuleRuns(tool: string, targetDir: string, file: string, failing: set<seq<string>>, table: map<string, seq<string>>)
    requires Parts(file).1 in table
    ensures var body := ModuleBody(tool, targetDir, file, failing, table);
      var (moduleDir, moduleName) := Parts(file);
      var target := JoinPath(targetDir, moduleName);
      var moduleList := ModuleList(file, moduleDir, table[moduleName]);
      var opt := OptimizedArgs(tool, target, moduleList);
      var unopt := UnoptimizedArgs(tool, target, moduleList);
      |body.0| >= 2 && body.0[0] == RunTool(opt) &&
      (opt !in failing ==> body.0[1] == RunTool(unopt)) &&
      (body.1.None? <==> opt !in failing && unopt !in failing)
  {
  }

  /**
   * The script: each module in turn, the directory made when missing, and exit
   * status 1 at the first failure, else 0.
   */
  method MinifyModules(tool: string, targetDir: string, modules: seq<string>, dirExists: bool, failing: set<seq<string>>, table: map<string, seq<string>>)
    returns (actions: seq<Action>, status: int)
    ensures (actions, status) == Script(tool, targetDir, modules, dirExists, failing, table)
  {
    ghost var steps := Steps(tool, targetDir, modules, dirExists, failing, table);
    actions := [];
    var i := 0;
    assert Fold(steps, 0).0 == actions + Fold(steps, 0).0;
    while i < |modules|
      invariant 0 <= i <= |modules|
      invariant Fold(steps, 0).0 == actions + Fold(steps, i).0
      invariant Fold(steps, 0).1 == Fold(steps, i).1
    {
      var exit;
      actions, exit := Turn(tool, targetDir, modules, dirExists, failing, table, i, actions);
      if exit.Some? {
        return actions, exit.value;
      }
      i := i + 1;
    }
    assert actions + [] == actions;
    status := 0;
  }

  /** One turn of the loop: module `i`'s step appended to the actions so far. */
  method Turn(tool: string, targetDir: string, modules: seq<string>, dirExists: bool, failing: set<seq<string>>, table: map<string, seq<string>>,
              i: nat, actions: seq<Action>) returns (next: seq<Action>, exit: Option<int>)
    requires i < |modules|
    ensures var steps := Steps(tool, targetDir, modules, dirExists, failing, table);
      next == actions + steps[i].actions && exit == steps[i].exit
    ensures var steps := Steps(tool, targetDir, modules, dirExists, failing, table);
      exit.Some? ==> Fold(steps, i) == (steps[i].actions, exit.value)
    ensures var steps := Steps(tool, targetDir, modules, dirExists, failing, table);
      exit.None? ==> actions + Fold(steps, i).0 == next + Fold(steps, i + 1).0 && Fold(steps, i).1 == Fold(steps, i + 1).1
  {
    ghost var steps := Steps(tool, targetDir, modules, dirExists, failing, table);
    var stepActions;
    stepActions, exit := ProcessModule(tool, targetDir, modules[i], dirExists || i > 0, failing, table);
    assert stepActions == steps[i].actions && exit == steps[i].exit;
    next := actions + stepActions;
    if exit.None? {
      AppendAssoc(actions, stepActions, Fold(steps, i + 1).0);
    }
  }

  lemma AppendAssoc<T>(a: seq<T>, b: seq<T>, c: seq<T>)
    ensures a + (b + c) == (a + b) + c
  {
  }

  /**
   * The command line: the tool, the output directory, then the module files,
   * run against the fixed dependency table; the script needs its first two
   * arguments and fails on indexing without them.
   */
  method MinifySksl(argv: seq<string>, dirExists: bool, failing: set<seq<string>>) returns (actions: seq<Action>, status: int)
    requires |argv| >= 3
    ensures (actions, status) == Script(argv[1], argv[2], argv[3..], dirExists, failing, Dependencies)
  {
    actions, status := MinifyModules(argv[1], argv[2], argv[3..], dirExists, failing, Dependencies);
  }

  /** One module: the directory check, then the module itself. */
  method ProcessModule(tool: string, targetDir: string, file: string, dirExists: bool, failing: set<seq<string>>, table: map<string, seq<string>>)
    returns (actions: seq<Action>, exit: Option<int>)
    ensures var step := ModuleStep(tool, targetDir, file, dirExists, failing, table);
      actions == step.actions && exit == step.exit
  {
    actions := [];
    if !dirExists {
      actions := actions + [MakeDir(targetDir)];
    }
    var bodyActions;
    bodyActions, exit := ProcessBody(tool, targetDir, file, failing, table);
    actions := actions + bodyActions;
  }

  /** The dependency loop: the module, then each dependency's file in table order. */
  method BuildModuleList(file: string, moduleDir: string, deps: seq<string>) returns (moduleList: seq<string>)
    ensures moduleList == ModuleList(file, moduleDir, deps)
  {
    moduleList := [file];
    var k := 0;
    while k < |deps|
      invariant 0 <= k <= |deps| && moduleList == ModuleList(file, moduleDir, deps[..k])
    {
      assert deps[..k + 1][..k] == deps[..k];
      moduleList := moduleList + [DependencyFile(moduleDir, deps[k])];
      k := k + 1;
    }
    assert deps[..k] == deps;
  }

  /** The table lookup and the two runs of the tool. */
  method ProcessBody(tool: string, targetDir: string, file: string, failing: set<seq<string>>, table: map<string, seq<string>>)
    returns (actions: seq<Action>, exit: Option<int>)
    ensures (actions, exit) == ModuleBody(tool, targetDir, file, failing, table)
  {
    var (moduleDir, moduleName) := Parts(file);
    var target := JoinPath(targetDir, moduleName);
    if moduleName !in table {
      return [Print(UnknownModuleMessage(moduleName))], Some(1);
    }
    var moduleList := BuildModuleList(file, moduleDir, table[moduleName]);
    var opt := [tool, target + ".minified.sksl"] + moduleList;
    var failed := Print(FailedMessage(file));
    if opt in failing {
      return [RunTool(opt), failed, PrintToolOutput(opt)], Some(1);
    }
    var unopt := [tool, "--unoptimized", target + ".unoptimized.sksl"] + moduleList;
    if unopt in failing {
      return [RunTool(opt), RunTool(unopt), failed, PrintToolOutput(unopt)], Some(1);
    }
    actions := [RunTool(opt), RunTool(unopt)];
    exit := None;
    assert opt == OptimizedArgs(tool, target, moduleList) && unopt == UnoptimizedArgs(tool, target, moduleList);
  }
}
