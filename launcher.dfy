/**
 * `slaunch/main.py`: the launcher's own argument scan, the choice of the app
 * to run, and the name, version, update and library-version rules of
 * `launch_app`. Manifests are given as values; downloading, copying, conda,
 * pip and the launched process are not modelled.
 */
module Launcher {
  import opened Base
  import opened Text
  import opened PyValues
  import opened Deploy

  const AppVersionFlag := "--app-version"
  const AppUpdateFlag := "--slaunch-app-update"
  const LibsUpdateFlag := "--slaunch-libs-update"
  const UpdateFlag := "--slaunch-update"
  const ResetFlag := "--slaunch-full-reset"

  const IndexOutOfRange := "IndexError: list index out of range"

  /** An argument the launcher consumes itself. */
  predicate Special(arg: string) {
    arg == AppVersionFlag || arg == AppUpdateFlag || arg == LibsUpdateFlag || arg == UpdateFlag || arg == ResetFlag
  }

  /** What scanning (part of) the arguments yields: the last version given, the three flags, and the arguments passed on. */
  datatype Scanned = Scanned(version: Option<string>, appUpdate: bool, libsUpdate: bool, reset: bool, processed: seq<string>)

  const NoEffect := Scanned(None, false, false, false, [])

  /** The effect of scanning `a` and then `b`: a later version wins, flags accumulate, passed-on arguments keep their order. */
  function Then(a: Scanned, b: Scanned): Scanned {
    Scanned(if b.version.Some? then b.version else a.version,
            a.appUpdate || b.appUpdate, a.libsUpdate || b.libsUpdate, a.reset || b.reset,
            a.processed + b.processed)
  }

  lemma ThenAssociative(a: Scanned, b: Scanned, c: Scanned)
    ensures Then(Then(a, b), c) == Then(a, Then(b, c))
  {
    assert (a.processed + b.processed) + c.processed == a.processed + (b.processed + c.processed);
  }

  lemma ThenNoEffect(a: Scanned)
    ensures Then(a, NoEffect) == a && Then(NoEffect, a) == a
  {
    assert a.processed + [] == a.processed;
    assert [] + a.processed == a.processed;
  }

  /** The effect of one argument other than `--app-version` (lines 420-431). */
  function Token(arg: string): Scanned {
    if arg == AppUpdateFlag then NoEffect.(appUpdate := true)
    else if arg == LibsUpdateFlag then NoEffect.(libsUpdate := true)
    else if arg == UpdateFlag then NoEffect.(appUpdate := true, libsUpdate := true)
    else if arg == ResetFlag then NoEffect.(reset := true)
    else NoEffect.(processed := [arg])
  }

  /** The scan of lines 408-431, argument by argument; `--app-version` with nothing after it raises `IndexError`. */
  function Scan(args: seq<string>): Result<Scanned, string>
    decreases |args|
  {
    if args == [] then Ok(NoEffect)
    else if args[0] == AppVersionFlag then
      if |args| < 2 then Err(IndexOutOfRange)
      else
        var rest :- Scan(args[2..]);
        Ok(Then(NoEffect.(version := Some(Strip(args[1]))), rest))
    else
      var rest :- Scan(args[1..]);
      Ok(Then(Token(args[0]), rest))
  }

  /** Scanning a concatenation: a scan of the first part that succeeds composes with the scan of the rest. */
  lemma {:induction false} ScanConcat(a: seq<string>, b: seq<string>)
    requires Scan(a).Ok?
    ensures Scan(a + b) == if Scan(b).Ok? then Ok(Then(Scan(a).value, Scan(b).value)) else Scan(b)
    decreases |a|
  {
    if a == [] {
      assert a + b == b;
      if Scan(b).Ok? {
        ThenNoEffect(Scan(b).value);
      }
    } else if a[0] == AppVersionFlag {
      assert (a + b)[2..] == a[2..] + b;
      ScanConcat(a[2..], b);
      if Scan(b).Ok? {
        ThenAssociative(NoEffect.(version := Some(Strip(a[1]))), Scan(a[2..]).value, Scan(b).value);
      }
    } else {
      assert (a + b)[1..] == a[1..] + b;
      ScanConcat(a[1..], b);
      if Scan(b).Ok? {
        ThenAssociative(Token(a[0]), Scan(a[1..]).value, Scan(b).value);
      }
    }
  }

  /** Arguments the launcher does not know pass through in order, and nothing is set. */
  lemma {:induction false} ScanPlain(args: seq<string>)
    requires forall i :: 0 <= i < |args| ==> !Special(args[i])
    ensures Scan(args) == Ok(NoEffect.(processed := args))
    decreases |args|
  {
    if args != [] {
      ScanPlain(args[1..]);
      assert [args[0]] + args[1..] == args;
    }
  }

  /** The launcher never passes one of its own flags on, and each passed-on argument is one it was given. */
  lemma {:induction false} ScanProcessed(args: seq<string>)
    requires Scan(args).Ok?
    ensures forall k :: 0 <= k < |Scan(args).value.processed| ==>
              !Special(Scan(args).value.processed[k]) && Scan(args).value.processed[k] in args
    decreases |args|
  {
    if args != [] {
      if args[0] == AppVersionFlag {
        ScanProcessed(args[2..]);
        assert forall x :: x in args[2..] ==> x in args;
      } else {
        ScanProcessed(args[1..]);
        assert forall x :: x in args[1..] ==> x in args;
      }
    }
  }

  /** The version given last wins, stripped. */
  lemma LastVersionWins(a: seq<string>, v: string, b: seq<string>)
    requires Scan(a).Ok? && Scan(b).Ok? && Scan(b).value.version.None?
    ensures Scan(a + [AppVersionFlag, v] + b).Ok?
    ensures Scan(a + [AppVersionFlag, v] + b).value.version == Some(Strip(v))
  {
    var mid := [AppVersionFlag, v];
    assert mid[2..] == [];
    assert Scan(mid) == Ok(Then(NoEffect.(version := Some(Strip(v))), NoEffect));
    ThenNoEffect(NoEffect.(version := Some(Strip(v))));
    ScanConcat(a, mid);
    ScanConcat(a + mid, b);
  }

  /** `--slaunch-full-reset` anywhere a scan reaches sets the reset flag. */
  lemma ResetAnywhere(a: seq<string>, b: seq<string>)
    requires Scan(a).Ok? && Scan(b).Ok?
    ensures Scan(a + [ResetFlag] + b).Ok? && Scan(a + [ResetFlag] + b).value.reset
  {
    var mid := [ResetFlag];
    assert mid[1..] == [];
    ThenNoEffect(Token(ResetFlag));
    ScanConcat(a, mid);
    ScanConcat(a + mid, b);
  }

  /** The loop of lines 413-431. */
  method ScanArgs(args: seq<string>) returns (r: Result<Scanned, string>)
    ensures r == Scan(args)
  {
    var version: Option<string> := None;
    var update := false;
    var libsUpdate := false;
    var reset := false;
    var processed: seq<string> := [];
    var i := 0;
    ThenNoEffect(if Scan(args).Ok? then Scan(args).value else NoEffect);
    while i < |args|
      invariant 0 <= i <= |args|
      invariant var acc := Scanned(version, update, libsUpdate, reset, processed);
        Scan(args) == if Scan(args[i..]).Ok? then Ok(Then(acc, Scan(args[i..]).value)) else Scan(args[i..])
      decreases |args| - i
    {
      ghost var acc := Scanned(version, update, libsUpdate, reset, processed);
      var arg := args[i];
      if arg == AppVersionFlag {
        if i + 1 >= |args| {
          return Err(IndexOutOfRange);
        }
        assert args[i..][2..] == args[i + 2..];
        version := Some(Strip(args[i + 1]));
        if Scan(args[i + 2..]).Ok? {
          ThenAssociative(acc, NoEffect.(version := version), Scan(args[i + 2..]).value);
          assert acc.processed + [] == acc.processed;
        }
        i := i + 2;
        continue;
      } else if arg == AppUpdateFlag {
        update := true;
      } else if arg == LibsUpdateFlag {
        libsUpdate := true;
      } else if arg == UpdateFlag {
        update := true;
        libsUpdate := true;
      } else if arg == ResetFlag {
        reset := true;
      } else {
        processed := processed + [arg];
      }
      assert args[i..][1..] == args[i + 1..];
      if Scan(args[i + 1..]).Ok? {
        ThenAssociative(acc, Token(arg), Scan(args[i + 1..]).value);
        assert acc.processed + [] == acc.processed;
      }
      i := i + 1;
    }
    assert args[i..] == [];
    ThenNoEffect(Scanned(version, update, libsUpdate, reset, processed));
    r := Ok(Scanned(version, update, libsUpdate, reset, processed));
  }

  // ------------------------------------------------ choosing the app

  /** The index of the last `c` in `s`, or -1. */
  function LastIndexOfChar(s: string, c: char): (i: int)
    ensures -1 <= i < |s|
    ensures i >= 0 ==> s[i] == c
    ensures forall k :: i < k < |s| ==> s[k] != c
  {
    if s == [] then -1
    else if s[|s| - 1] == c then |s| - 1
    else LastIndexOfChar(s[..|s| - 1], c)
  }

  /** The last component that is neither empty nor `.`, as POSIX `pathlib` normalises a path. */
  function LastComponent(parts: seq<string>): string {
    if parts == [] then ""
    else if parts[|parts| - 1] == "" || parts[|parts| - 1] == "." then LastComponent(parts[..|parts| - 1])
    else parts[|parts| - 1]
  }

  /** `PurePosixPath(p).name`. */
  function PathName(p: string): string {
    LastComponent(Split(p, '/'))
  }

  /** `PurePath.stem` of a final component: the name without its last suffix, where a leading or trailing dot starts none. */
  function Stem(name: string): string {
    var i := LastIndexOfChar(name, '.');
    if 0 < i < |name| - 1 then name[..i] else name
  }

  /** A path ending in a plain file name names that file. */
  lemma PathNameOfFile(dir: string, file: string)
    requires '/' !in file && file != "" && file != "."
    ensures PathName(dir + "/" + file) == file
  {
    SplitConcat(dir, '/', file);
    assert dir + "/" + file == dir + ['/'] + file;
    SplitWithoutSeparator(file, '/');
  }

  /** The stem of `base.ext` is `base` when neither part has a dot and both are non-empty. */
  lemma StemOfSuffixed(base: string, ext: string)
    requires base != "" && ext != "" && '.' !in base && '.' !in ext
    ensures Stem(base + "." + ext) == base
  {
    var name := base + "." + ext;
    assert name[|base|] == '.';
    var i := LastIndexOfChar(name, '.');
    assert i == |base|;
    assert name[..|base|] == base;
  }

  /** A name without a dot is its own stem. */
  lemma StemWithoutDot(name: string)
    requires '.' !in name
    ensures Stem(name) == name
  {
  }

  /**
   * Lines 434-441: the app is named by the invoked program's lower-cased stem
   * when the manifest lists it, otherwise by the next argument; the rest are
   * the app's arguments. Too few arguments end the launcher (exit status 1).
   */
  function SelectApp(processed: seq<string>, apps: Manifest): (r: Result<(string, seq<string>), string>)
    ensures processed == [] ==> r == Err(IndexOutOfRange)
    ensures r.Ok? <==> processed != [] && (Lower(Stem(PathName(processed[0]))) in apps || |processed| > 1)
    ensures (r.Ok? && Lower(Stem(PathName(processed[0]))) in apps)
              ==> r.value == (Lower(Stem(PathName(processed[0]))), processed[1..])
    ensures r.Ok? && Lower(Stem(PathName(processed[0]))) !in apps ==> r.value == (processed[1], processed[2..])
  {
    if processed == [] then Err(IndexOutOfRange)
    else
      var appName := Lower(Stem(PathName(processed[0])));
      if appName in apps then Ok((appName, processed[1..]))
      else if |processed| > 1 then Ok((processed[1], processed[2..]))
      else Err("Insufficient Arguments to determine app name and run")
  }

  /** A launcher invoked through a link named after an app runs that app with every remaining argument. */
  lemma LinkNamesApp(dir: string, link: string, ext: string, rest: seq<string>, apps: Manifest)
    requires link != "" && ext != "" && '/' !in link + "." + ext && '.' !in link && '.' !in ext
    requires Lower(link) in apps
    ensures SelectApp([dir + "/" + link + "." + ext] + rest, apps) == Ok((Lower(link), rest))
  {
    assert dir + "/" + link + "." + ext == dir + "/" + (link + "." + ext);
    assert link + "." + ext != "." by {
      assert |link + "." + ext| >= 3;
    }
    PathNameOfFile(dir, link + "." + ext);
    StemOfSuffixed(link, ext);
    assert ([dir + "/" + link + "." + ext] + rest)[1..] == rest;
  }

  // ------------------------------------------------ launch_app

  /** Lines 270-280: the name, lower-cased, must be non-empty and listed. */
  function LaunchName(name: string, apps: Manifest): (r: Result<string, string>)
    ensures r.Ok? <==> name != "" && Lower(name) in apps
    ensures r.Ok? ==> r.value == Lower(name)
  {
    if name == "" then Err("ValueError: name is required")
    else if Lower(name) !in apps then Err("ValueError: " + Lower(name) + " is not a recognized application")
    else Ok(Lower(name))
  }

  /**
   * Line 285: `current`, else `latest`. The fallback is an argument of `get`,
   * so `latest` is looked up, and must exist, even when `current` is present.
   */
  function DefaultVersion(entry: Entry): Result<Value, string> {
    if Latest !in entry then Err(Missing(Latest))
    else Ok(if Current in entry then entry[Current] else entry[Latest])
  }

  /** What `launch_app` settles on before touching the file system. */
  datatype Plan = Plan(name: string, version: Value, appUpdate: bool, libsUpdate: bool, reset: bool)

  /** Lines 270-293. */
  function LaunchPlan(name: string, apps: Manifest, version: Option<string>, appUpdate: bool, libsUpdate: bool, reset: bool)
    : Result<Plan, string>
  {
    var n :- LaunchName(name, apps);
    var v :- if version.None? then DefaultVersion(apps[n]) else Ok(Str(version.value));
    Ok(Plan(n, v, appUpdate || reset, libsUpdate || reset, reset))
  }

  /**
   * The plan: a listed, non-empty name; an explicit version as given, otherwise
   * the entry's `current`, else its `latest`; a reset forces both updates and
   * otherwise the updates are as requested.
   */
  lemma LaunchPlanRules(name: string, apps: Manifest, version: Option<string>, appUpdate: bool, libsUpdate: bool, reset: bool)
    ensures var r := LaunchPlan(name, apps, version, appUpdate, libsUpdate, reset);
      && (r.Ok? <==> name != "" && Lower(name) in apps && (version.Some? || Latest in apps[Lower(name)]))
      && (r.Ok? ==>
          && r.value.name == Lower(name)
          && (version.Some? ==> r.value.version == Str(version.value))
          && (version.None? && Current in apps[Lower(name)] ==> r.value.version == apps[Lower(name)][Current])
          && (version.None? && Current !in apps[Lower(name)] ==> r.value.version == apps[Lower(name)][Latest])
          && (reset ==> r.value.appUpdate && r.value.libsUpdate)
          && (!reset ==> r.value.appUpdate == appUpdate && r.value.libsUpdate == libsUpdate))
  {
  }

  /** An entry with a `current` but no `latest` cannot be launched without an explicit version. */
  lemma CurrentWithoutLatest(name: string, apps: Manifest)
    requires name != "" && Lower(name) in apps
    requires Current in apps[Lower(name)] && Latest !in apps[Lower(name)]
    ensures LaunchPlan(name, apps, None, false, false, false) == Err(Missing(Latest))
  {
  }

  // ------------------------------------------------ library versions

  /** `d.get('current', d.get('latest', None))`. */
  function CurrentOrLatest(d: Entry): Value {
    if Current in d then d[Current] else if Latest in d then d[Latest] else Null
  }

  /** Line 340: without `lib_versions`, every library of the libraries manifest at its current-or-latest version. */
  function DefaultLibraries(libsItems: seq<(string, Entry)>): (r: seq<(string, Value)>)
    ensures |r| == |libsItems|
    ensures forall i :: 0 <= i < |r| ==> r[i] == (libsItems[i].0, CurrentOrLatest(libsItems[i].1))
  {
    if libsItems == [] then []
    else DefaultLibraries(libsItems[..|libsItems| - 1]) + [(libsItems[|libsItems| - 1].0, CurrentOrLatest(libsItems[|libsItems| - 1].1))]
  }

  /** Lines 348-350 for one library: a falsy version is replaced by the manifest's current-or-latest. */
  function LibraryVersion(lib: string, ver: Value, libs: Manifest): Result<Value, string> {
    if Truthy(ver) then Ok(ver)
    else if lib !in libs then Err("KeyError: '" + lib + "'")
    else Ok(CurrentOrLatest(libs[lib]))
  }

  /** The versions the loop of lines 345-352 settles on, in order; the first unlisted library with a falsy version raises. */
  function LibraryVersions(libraries: seq<(string, Value)>, libs: Manifest): Result<seq<(string, Value)>, string> {
    if libraries == [] then Ok([])
    else
      var init :- LibraryVersions(libraries[..|libraries| - 1], libs);
      var last := libraries[|libraries| - 1];
      var v :- LibraryVersion(last.0, last.1, libs);
      Ok(init + [(last.0, v)])
  }

  /**
   * The resolved list names the same libraries in the same order; each keeps
   * a truthy version and otherwise takes the manifest's current-or-latest,
   * and resolution fails exactly when a library with a falsy version is not
   * in the libraries manifest.
   */
  lemma {:induction false} LibraryVersionsRules(libraries: seq<(string, Value)>, libs: Manifest)
    ensures var r := LibraryVersions(libraries, libs);
      && (r.Ok? <==> forall i :: 0 <= i < |libraries| ==> Truthy(libraries[i].1) || libraries[i].0 in libs)
      && (r.Ok? ==> |r.value| == |libraries|
                    && forall i :: 0 <= i < |libraries| ==>
                         (r.value[i].0 == libraries[i].0
                          && r.value[i].1 == if Truthy(libraries[i].1) then libraries[i].1
                                             else CurrentOrLatest(libs[libraries[i].0])))
  {
    if libraries != [] {
      var init := libraries[..|libraries| - 1];
      LibraryVersionsRules(init, libs);
      assert forall i :: 0 <= i < |init| ==> init[i] == libraries[i];
    }
  }

  /** The default list always resolves, to itself, when it was built from the libraries manifest. */
  lemma DefaultLibrariesResolve(libsItems: seq<(string, Entry)>, libs: Manifest)
    requires forall i :: 0 <= i < |libsItems| ==> libsItems[i].0 in libs && libs[libsItems[i].0] == libsItems[i].1
    ensures LibraryVersions(DefaultLibraries(libsItems), libs) == Ok(DefaultLibraries(libsItems))
  {
    var d := DefaultLibraries(libsItems);
    LibraryVersionsRules(d, libs);
    var r := LibraryVersions(d, libs).value;
    assert forall i :: 0 <= i < |d| ==> r[i] == d[i];
  }

  /** The loop of lines 344-352, without the library checks and the import paths it builds. */
  method ResolveLibraries(libraries: seq<(string, Value)>, libs: Manifest) returns (r: Result<seq<(string, Value)>, string>)
    ensures r == LibraryVersions(libraries, libs)
  {
    var resolved: seq<(string, Value)> := [];
    var i := 0;
    while i < |libraries|
      invariant 0 <= i <= |libraries|
      invariant LibraryVersions(libraries[..i], libs) == Ok(resolved)
    {
      assert libraries[..i + 1][..i] == libraries[..i];
      var (lib, ver) := libraries[i];
      if !Truthy(ver) {
        if lib !in libs {
          LibraryVersionsPrefixErr(libraries, libs, i + 1);
          return Err("KeyError: '" + lib + "'");
        }
        ver := CurrentOrLatest(libs[lib]);
      }
      resolved := resolved + [(lib, ver)];
      i := i + 1;
    }
    assert libraries[..i] == libraries;
    r := Ok(resolved);
  }

  /** Once a prefix of the libraries fails to resolve, the whole list fails with the same error. */
  lemma {:induction false} LibraryVersionsPrefixErr(libraries: seq<(string, Value)>, libs: Manifest, n: nat)
    requires n <= |libraries| && LibraryVersions(libraries[..n], libs).Err?
    ensures LibraryVersions(libraries, libs) == LibraryVersions(libraries[..n], libs)
    decreases |libraries| - n
  {
    if n < |libraries| {
      assert libraries[..n + 1][..n] == libraries[..n];
      LibraryVersionsPrefixErr(libraries, libs, n + 1);
    } else {
      assert libraries[..n] == libraries;
    }
  }

  // ------------------------------------------------ main

  /** `main(*args)` up to the call of `launch_app`: the plan and the app's arguments. */
  function MainPlan(args: seq<string>, apps: Manifest): Result<(Plan, seq<string>), string> {
    var s :- Scan(args);
    var (app, appArgs) :- SelectApp(s.processed, apps);
    var plan :- LaunchPlan(app, apps, s.version, s.appUpdate, s.libsUpdate, s.reset);
    Ok((plan, appArgs))
  }

  /** The scan of `<self> --slaunch-full-reset <app>`. */
  lemma ResetScan(self: string, app: string)
    requires !Special(self) && !Special(app)
    ensures Scan([self, ResetFlag, app]) == Ok(NoEffect.(reset := true, processed := [self, app]))
  {
    ScanPlain([self]);
    ScanPlain([app]);
    var mid := [ResetFlag];
    assert mid[1..] == [];
    assert ResetFlag[10] != AppUpdateFlag[10];
    assert Token(ResetFlag) == NoEffect.(reset := true);
    ThenNoEffect(Token(ResetFlag));
    ScanConcat([self], mid);
    ScanConcat([self] + mid, [app]);
    assert [self] + mid + [app] == [self, ResetFlag, app];
    assert [self] + [] + [app] == [self, app];
  }

  /**
   * `slaunch --slaunch-full-reset <app>` run under its own name resets and
   * updates that app, at its default version, with no app arguments.
   */
  lemma ResetLaunch(self: string, app: string, apps: Manifest)
    requires !Special(self) && !Special(app)
    requires Lower(Stem(PathName(self))) !in apps
    requires app != "" && Lower(app) in apps && Latest in apps[Lower(app)]
    ensures MainPlan([self, ResetFlag, app], apps).Ok?
    ensures var (plan, appArgs) := MainPlan([self, ResetFlag, app], apps).value;
      plan.name == Lower(app) && plan.reset && plan.appUpdate && plan.libsUpdate && appArgs == []
      && plan.version == DefaultVersion(apps[Lower(app)]).value
  {
    ResetScan(self, app);
    var processed := [self, app];
    assert processed[1] == app && processed[2..] == [];
    assert SelectApp(processed, apps) == Ok((app, []));
  }
}
