/**
 * The `mainflags` check: library code must not register flags on the
 * process-wide flag set. For each file it finds the local name under which
 * package `flag` is imported, then reports every outermost call `alias.M(...)`
 * whose `M` is not one of the read-only operations on the allow-list.
 */
module MainFlags {
  import opened Syntax
  import ImportOrder

  /** The operations that are safe to call on the global flag set. */
  const AllowedFlagFunctions: set<string> := {
    "Arg", "Args", "NArg", "NArgs", "Parse", "Parsed", "PrintDefaults",
    "Set", "UnquoteUsage", "Visit", "VisitAll", "Lookup", "NewFlagSet"
  }

  /** The import path literal that identifies package flag, quotes included. */
  const FlagPath: string := "\"flag\""

  const DotImportMessage: string := "package flag should not be dot-imported"
  const GlobalFlagsetSuffix: string := " should not be used on the global flagset"

  /** A finding: the package path, the file name, a position and the message. */
  datatype Problem = Problem(pkg: string, file: string, pos: Pos, message: string)

  /** The message for a disallowed call `alias.member(...)`. */
  function CallMessage(alias: string, member: string): string
  {
    alias + "." + member + GlobalFlagsetSuffix
  }

  // ---------------------------------------------------------------------------
  // Import resolution

  /** How package flag is visible in a file. */
  datatype Resolution = NotVisible | VisibleAs(alias: string) | DotImported(pos: Pos)

  /** What one import of package flag makes visible. */
  function Classify(imp: Import): (r: Resolution)
    ensures r != NotVisible
    ensures r.DotImported? ==> r.pos == imp.pos
    ensures r.VisibleAs? ==> r.alias != "."
  {
    var alias := if imp.name.Some? then imp.name.value else "flag";
    if alias == "." then DotImported(imp.pos) else VisibleAs(alias)
  }

  /** The resolution fixed by the first import of package flag, if any. */
  function Resolve(imports: seq<Import>): (r: Resolution)
    decreases |imports|
    ensures r.VisibleAs? ==> r.alias != "."
  {
    if imports == [] then NotVisible
    else if imports[0].path == FlagPath then Classify(imports[0])
    else Resolve(imports[1..])
  }

  /** Whatever is visible comes from one of the file's imports of package flag. */
  lemma {:induction false} ResolvedByFlagImport(imports: seq<Import>)
    ensures Resolve(imports) != NotVisible ==>
      exists imp :: imp in imports && imp.path == FlagPath && Resolve(imports) == Classify(imp)
    decreases |imports|
  {
    if imports != [] && imports[0].path != FlagPath {
      ResolvedByFlagImport(imports[1..]);
      if Resolve(imports) != NotVisible {
        var imp :| imp in imports[1..] && imp.path == FlagPath && Resolve(imports[1..]) == Classify(imp);
        assert imp in imports;
      }
    }
  }

  /**
   * `processImports`: walks the imports in order; at the first import of
   * package flag it reports a dot-import (and disables the scan) or returns
   * the local name.
   */
  method ProcessImports(pkgPath: string, file: File) returns (importsFlag: bool, alias: string, problems: seq<Problem>)
    ensures match Resolve(file.imports)
      case NotVisible => !importsFlag && alias == "" && problems == []
      case VisibleAs(a) => importsFlag && alias == a && problems == []
      case DotImported(pos) =>
        !importsFlag && alias == "" && problems == [Problem(pkgPath, file.name, pos, DotImportMessage)]
  {
    var i := 0;
    while i < |file.imports|
      invariant 0 <= i <= |file.imports|
      invariant Resolve(file.imports[i..]) == Resolve(file.imports)
    {
      var imp := file.imports[i];
      if imp.path != FlagPath {
        assert file.imports[i..][1..] == file.imports[i + 1..];
        i := i + 1;
        continue;
      }
      alias := "flag";
      if imp.name.Some? {
        alias := imp.name.value;
      }
      if alias == "." {
        problems := [Problem(pkgPath, file.name, imp.pos, DotImportMessage)];
        return false, "", problems;
      }
      return true, alias, [];
    }
    return false, "", [];
  }

  /** Package flag stays invisible exactly when no import has its path. */
  lemma {:induction false} NotVisibleIffNoFlagImport(imports: seq<Import>)
    ensures Resolve(imports) == NotVisible <==> forall i :: 0 <= i < |imports| ==> imports[i].path != FlagPath
    decreases |imports|
  {
    if imports != [] && imports[0].path != FlagPath {
      NotVisibleIffNoFlagImport(imports[1..]);
      assert forall i :: 1 <= i < |imports| ==> imports[i] == imports[1..][i - 1];
    }
  }

  /** Only the first import of package flag counts; later ones are ignored. */
  lemma {:induction false} FirstFlagImportWins(imports: seq<Import>, k: nat)
    requires k < |imports| && imports[k].path == FlagPath
    requires forall i :: 0 <= i < k ==> imports[i].path != FlagPath
    ensures Resolve(imports) == Classify(imports[k])
    decreases k
  {
    if k > 0 {
      FirstFlagImportWins(imports[1..], k - 1);
    }
  }

  /** An unnamed import is visible as `flag`, a named one under its name, `.` excepted. */
  lemma ClassifyNames(imp: Import)
    ensures imp.name == None ==> Classify(imp) == VisibleAs("flag")
    ensures imp.name.Some? && imp.name.value != "." ==> Classify(imp) == VisibleAs(imp.name.value)
    ensures imp.name == Some(".") ==> Classify(imp) == DotImported(imp.pos)
    ensures imp.name == Some("_") ==> Classify(imp) == VisibleAs("_")
  {
  }

  // ---------------------------------------------------------------------------
  // Call classification

  /**
   * `checkCall`: the message and `false` for a disallowed call on the global
   * flag set, `""` and `true` for every other call.
   */
  function CheckCall(call: Node, flagpkg: string): (r: (string, bool))
    requires call.Call?
    ensures r.1 ==> r.0 == ""
    ensures !r.1 ==> call.fun.Selector? && r.0 == CallMessage(flagpkg, call.fun.sel)
  {
    match call.fun
    case Selector(x, sel) =>
      if !x.Ident? then ("", true)
      else if x.name != flagpkg then ("", true)
      else if sel in AllowedFlagFunctions then ("", true)
      else (CallMessage(flagpkg, sel), false)
    case _ => ("", true)
  }

  /** An allow-listed operation on the alias is never reported. */
  lemma CheckCallAllowed(alias: string, member: string, args: seq<Node>, pos: Pos)
    requires member in AllowedFlagFunctions
    ensures CheckCall(Call(Selector(Ident(alias), member), args, pos), alias) == ("", true)
  {
  }

  /** Any other operation on the alias is reported with the exact message. */
  lemma CheckCallDisallowed(alias: string, member: string, args: seq<Node>, pos: Pos)
    requires member !in AllowedFlagFunctions
    ensures CheckCall(Call(Selector(Ident(alias), member), args, pos), alias)
      == (alias + "." + member + " should not be used on the global flagset", false)
  {
  }

  /** A callee that is not `alias.M` is never a violation. */
  lemma CheckCallIgnoresOthers(call: Node, alias: string)
    requires call.Call?
    requires !call.fun.Selector? || !call.fun.x.Ident? || call.fun.x.name != alias
    ensures CheckCall(call, alias) == ("", true)
  {
  }

  // ---------------------------------------------------------------------------
  // The traversal

  /**
   * The `ast.Inspect` walk of `doPackage`: nodes in pre-order; at every call
   * the call is classified and the walk does not descend into it.
   */
  function Inspect(n: Node, alias: string, pkg: string, file: string): (r: seq<Problem>)
    decreases n
    ensures forall i :: 0 <= i < |r| ==> r[i].pkg == pkg && r[i].file == file
  {
    match n
    case Call(_, _, pos) =>
      var (msg, ok) := CheckCall(n, alias);
      if ok then [] else [Problem(pkg, file, pos, msg)]
    case Selector(x, _) => Inspect(x, alias, pkg, file)
    case Ident(_) => []
    case Other(children) => InspectAll(children, alias, pkg, file)
  }

  function InspectAll(ns: seq<Node>, alias: string, pkg: string, file: string): (r: seq<Problem>)
    decreases ns
    ensures forall i :: 0 <= i < |r| ==> r[i].pkg == pkg && r[i].file == file
  {
    if ns == [] then [] else Inspect(ns[0], alias, pkg, file) + InspectAll(ns[1..], alias, pkg, file)
  }

  /** The call nodes that the walk visits: the outermost calls, in pre-order. */
  function OuterCalls(n: Node): (cs: seq<Node>)
    decreases n
    ensures forall i :: 0 <= i < |cs| ==> cs[i].Call?
  {
    match n
    case Call(_, _, _) => [n]
    case Selector(x, _) => OuterCalls(x)
    case Ident(_) => []
    case Other(children) => OuterCallsAll(children)
  }

  function OuterCallsAll(ns: seq<Node>): (cs: seq<Node>)
    decreases ns
    ensures forall i :: 0 <= i < |cs| ==> cs[i].Call?
  {
    if ns == [] then [] else OuterCalls(ns[0]) + OuterCallsAll(ns[1..])
  }

  /** The calls among `cs` that `CheckCall` reports, in order. */
  function Violations(cs: seq<Node>, alias: string): (vs: seq<Node>)
    requires forall i :: 0 <= i < |cs| ==> cs[i].Call?
    ensures |vs| <= |cs|
    ensures forall i :: 0 <= i < |vs| ==> vs[i].Call?
  {
    if cs == [] then []
    else (if CheckCall(cs[0], alias).1 then [] else [cs[0]]) + Violations(cs[1..], alias)
  }

  /** `Violations` keeps exactly the calls of `cs` that `CheckCall` reports. */
  lemma {:induction false} ViolationsExactly(cs: seq<Node>, alias: string)
    requires forall i :: 0 <= i < |cs| ==> cs[i].Call?
    ensures forall c :: c in Violations(cs, alias) <==> c in cs && c.Call? && !CheckCall(c, alias).1
    decreases |cs|
  {
    if cs != [] {
      ViolationsExactly(cs[1..], alias);
      var head := if CheckCall(cs[0], alias).1 then [] else [cs[0]];
      assert Violations(cs, alias) == head + Violations(cs[1..], alias);
      assert cs == [cs[0]] + cs[1..];
    }
  }

  /** One problem per reported call, at the call's position. */
  function ProblemsAt(vs: seq<Node>, alias: string, pkg: string, file: string): (ps: seq<Problem>)
    requires forall i :: 0 <= i < |vs| ==> vs[i].Call?
    ensures |ps| == |vs|
  {
    if vs == [] then []
    else [Problem(pkg, file, vs[0].pos, CheckCall(vs[0], alias).0)] + ProblemsAt(vs[1..], alias, pkg, file)
  }

  lemma {:induction false} ViolationsAppend(a: seq<Node>, b: seq<Node>, alias: string)
    requires forall i :: 0 <= i < |a| ==> a[i].Call?
    requires forall i :: 0 <= i < |b| ==> b[i].Call?
    ensures Violations(a + b, alias) == Violations(a, alias) + Violations(b, alias)
    decreases |a|
  {
    if a == [] {
      assert a + b == b;
    } else {
      assert (a + b)[0] == a[0] && (a + b)[1..] == a[1..] + b;
      ViolationsAppend(a[1..], b, alias);
      var head := if CheckCall(a[0], alias).1 then [] else [a[0]];
      AppendAssociative(head, Violations(a[1..], alias), Violations(b, alias));
    }
  }

  lemma {:induction false} ProblemsAtAppend(a: seq<Node>, b: seq<Node>, alias: string, pkg: string, file: string)
    requires forall i :: 0 <= i < |a| ==> a[i].Call?
    requires forall i :: 0 <= i < |b| ==> b[i].Call?
    ensures ProblemsAt(a + b, alias, pkg, file) == ProblemsAt(a, alias, pkg, file) + ProblemsAt(b, alias, pkg, file)
    decreases |a|
  {
    if a == [] {
      assert a + b == b;
    } else {
      assert (a + b)[0] == a[0] && (a + b)[1..] == a[1..] + b;
      ProblemsAtAppend(a[1..], b, alias, pkg, file);
      AppendAssociative([Problem(pkg, file, a[0].pos, CheckCall(a[0], alias).0)],
        ProblemsAt(a[1..], alias, pkg, file), ProblemsAt(b, alias, pkg, file));
    }
  }

  /**
   * The walk reports exactly the violating calls among the outermost calls,
   * in pre-order, one problem each, at the call's position.
   */
  lemma {:induction false} InspectReportsOuterViolations(n: Node, alias: string, pkg: string, file: string)
    ensures Inspect(n, alias, pkg, file) == ProblemsAt(Violations(OuterCalls(n), alias), alias, pkg, file)
    decreases n
  {
    match n
    case Call(_, _, _) =>
    case Selector(x, _) => InspectReportsOuterViolations(x, alias, pkg, file);
    case Ident(_) =>
    case Other(children) => InspectAllReportsOuterViolations(children, alias, pkg, file);
  }

  lemma {:induction false} InspectAllReportsOuterViolations(ns: seq<Node>, alias: string, pkg: string, file: string)
    ensures InspectAll(ns, alias, pkg, file) == ProblemsAt(Violations(OuterCallsAll(ns), alias), alias, pkg, file)
    decreases ns
  {
    if ns != [] {
      InspectReportsOuterViolations(ns[0], alias, pkg, file);
      InspectAllReportsOuterViolations(ns[1..], alias, pkg, file);
      var c0, cs := OuterCalls(ns[0]), OuterCallsAll(ns[1..]);
      ViolationsAppend(c0, cs, alias);
      ProblemsAtAppend(Violations(c0, alias), Violations(cs, alias), alias, pkg, file);
    }
  }

  /** At most one problem per visited call. */
  lemma AtMostOnePerCall(n: Node, alias: string, pkg: string, file: string)
    ensures |Inspect(n, alias, pkg, file)| <= |OuterCalls(n)|
  {
    InspectReportsOuterViolations(n, alias, pkg, file);
  }

  /** A subtree without calls, such as the selector in `*flag.FlagSet`, yields nothing. */
  lemma {:induction false} NoCallNoProblem(n: Node, alias: string, pkg: string, file: string)
    requires OuterCalls(n) == []
    ensures Inspect(n, alias, pkg, file) == []
  {
    InspectReportsOuterViolations(n, alias, pkg, file);
  }

  /** A call's arguments are never looked at: at most one problem per call, whatever they hold. */
  lemma CallArgumentsNotScanned(fun: Node, args: seq<Node>, args': seq<Node>, pos: Pos, alias: string, pkg: string, file: string)
    ensures Inspect(Call(fun, args, pos), alias, pkg, file) == Inspect(Call(fun, args', pos), alias, pkg, file)
    ensures |Inspect(Call(fun, args, pos), alias, pkg, file)| <= 1
  {
  }

  // ---------------------------------------------------------------------------
  // Alias invariance

  /** `p` with its message prefix `a` replaced by `b`. */
  function Reprefix(p: Problem, a: string, b: string): Problem
  {
    if |a| <= |p.message| then p.(message := b + p.message[|a|..]) else p
  }

  function ReprefixAll(ps: seq<Problem>, a: string, b: string): (r: seq<Problem>)
    ensures |r| == |ps|
  {
    if ps == [] then [] else [Reprefix(ps[0], a, b)] + ReprefixAll(ps[1..], a, b)
  }

  lemma {:induction false} ReprefixAllAppend(x: seq<Problem>, y: seq<Problem>, a: string, b: string)
    ensures ReprefixAll(x + y, a, b) == ReprefixAll(x, a, b) + ReprefixAll(y, a, b)
    decreases |x|
  {
    if x == [] {
      assert x + y == y;
    } else {
      assert (x + y)[0] == x[0] && (x + y)[1..] == x[1..] + y;
      ReprefixAllAppend(x[1..], y, a, b);
      AppendAssociative([Reprefix(x[0], a, b)], ReprefixAll(x[1..], a, b), ReprefixAll(y, a, b));
    }
  }

  /**
   * Renaming the alias from `a` to a name `b` the tree does not use changes
   * nothing but the message prefix: same problems, same positions.
   */
  lemma {:induction false} RenameChangesOnlyPrefix(n: Node, a: string, b: string, pkg: string, file: string)
    requires !Mentions(n, b)
    ensures Inspect(Rename(n, a, b), b, pkg, file) == ReprefixAll(Inspect(n, a, pkg, file), a, b)
    decreases n
  {
    match n
    case Call(fun, args, pos) =>
      CheckCallRename(n, a, b);
    case Selector(x, _) => RenameChangesOnlyPrefix(x, a, b, pkg, file);
    case Ident(_) =>
    case Other(children) => RenameAllChangesOnlyPrefix(children, a, b, pkg, file);
  }

  /** Renaming an unused name in a call leaves its verdict alone and moves the message prefix. */
  lemma CheckCallRename(call: Node, a: string, b: string)
    requires call.Call? && !Mentions(call, b)
    ensures Rename(call, a, b).Call?
    ensures CheckCall(Rename(call, a, b), b).1 == CheckCall(call, a).1
    ensures !CheckCall(call, a).1 ==>
      |a| <= |CheckCall(call, a).0| && CheckCall(Rename(call, a, b), b).0 == b + CheckCall(call, a).0[|a|..]
  {
    assert Rename(call, a, b).fun == Rename(call.fun, a, b);
    assert !Mentions(call.fun, b);
    match call.fun
    case Selector(x, sel) =>
      assert Rename(call.fun, a, b) == Selector(Rename(x, a, b), sel);
      if x.Ident? && x.name == a {
        RenameAliasCall(call, x, sel, a, b);
      } else {
        RenameOtherCall(call, x, sel, a, b);
      }
    case _ =>
      assert !Rename(call.fun, a, b).Selector?;
  }

  /** A call `a.sel(...)` on the alias becomes `b.sel(...)`. */
  lemma RenameAliasCall(call: Node, x: Node, sel: string, a: string, b: string)
    requires call.Call? && call.fun == Selector(x, sel) && x == Ident(a)
    requires Rename(call, a, b).fun == Selector(Ident(b), sel)
    ensures CheckCall(Rename(call, a, b), b).1 == CheckCall(call, a).1
    ensures !CheckCall(call, a).1 ==>
      |a| <= |CheckCall(call, a).0| && CheckCall(Rename(call, a, b), b).0 == b + CheckCall(call, a).0[|a|..]
  {
    var r := CheckCall(call, a);
    if !r.1 {
      assert r.0 == a + ("." + sel + GlobalFlagsetSuffix);
      assert r.0[|a|..] == "." + sel + GlobalFlagsetSuffix;
    }
  }

  /** A selector on anything but the alias stays a selector on something other than `b`. */
  lemma RenameOtherCall(call: Node, x: Node, sel: string, a: string, b: string)
    requires call.Call? && call.fun == Selector(x, sel) && !(x.Ident? && x.name == a)
    requires !Mentions(x, b) && Rename(call, a, b).fun == Selector(Rename(x, a, b), sel)
    ensures CheckCall(Rename(call, a, b), b).1 && CheckCall(call, a).1
  {
    if x.Ident? {
      assert x.name != b && Rename(x, a, b) == x;
    } else {
      assert !Rename(x, a, b).Ident?;
    }
  }

  lemma {:induction false} RenameAllChangesOnlyPrefix(ns: seq<Node>, a: string, b: string, pkg: string, file: string)
    requires !MentionsAny(ns, b)
    ensures InspectAll(RenameAll(ns, a, b), b, pkg, file) == ReprefixAll(InspectAll(ns, a, pkg, file), a, b)
    decreases ns
  {
    if ns != [] {
      var rs := RenameAll(ns, a, b);
      assert rs[0] == Rename(ns[0], a, b) && rs[1..] == RenameAll(ns[1..], a, b);
      RenameChangesOnlyPrefix(ns[0], a, b, pkg, file);
      RenameAllChangesOnlyPrefix(ns[1..], a, b, pkg, file);
      ReprefixAllAppend(Inspect(ns[0], a, pkg, file), InspectAll(ns[1..], a, pkg, file), a, b);
    }
  }

  // ---------------------------------------------------------------------------
  // One package

  /** What one file contributes: its dot-import problem, or the walk's problems under its alias. */
  function FileProblems(pkgPath: string, file: File): seq<Problem>
  {
    match Resolve(file.imports)
    case NotVisible => []
    case DotImported(pos) => [Problem(pkgPath, file.name, pos, DotImportMessage)]
    case VisibleAs(alias) => Inspect(file.root, alias, pkgPath, file.name)
  }

  /** The problems of `files`, file after file. */
  function FilesProblems(pkgPath: string, files: seq<File>): seq<Problem>
    decreases |files|
  {
    if files == [] then []
    else FilesProblems(pkgPath, files[..|files| - 1]) + FileProblems(pkgPath, files[|files| - 1])
  }

  /** `doPackage`: resolves the imports of each file and walks those that import flag. */
  method DoPackage(pkg: Package) returns (problems: seq<Problem>)
    ensures problems == FilesProblems(pkg.pkgPath, pkg.syntax)
  {
    problems := [];
    var i := 0;
    while i < |pkg.syntax|
      invariant 0 <= i <= |pkg.syntax|
      invariant problems == FilesProblems(pkg.pkgPath, pkg.syntax[..i])
    {
      var file := pkg.syntax[i];
      var importsFlag, alias, p := ProcessImports(pkg.pkgPath, file);
      problems := problems + p;
      if importsFlag {
        problems := problems + Inspect(file.root, alias, pkg.pkgPath, file.name);
      }
      assert pkg.syntax[..i + 1][..i] == pkg.syntax[..i];
      i := i + 1;
    }
    assert pkg.syntax[..i] == pkg.syntax;
  }

  /** Files are resolved and scanned independently: the problems of two runs of files concatenate. */
  lemma {:induction false} FilesProblemsAppend(pkgPath: string, fs: seq<File>, gs: seq<File>)
    ensures FilesProblems(pkgPath, fs + gs) == FilesProblems(pkgPath, fs) + FilesProblems(pkgPath, gs)
    decreases |gs|
  {
    if gs == [] {
      assert fs + gs == fs;
      assert FilesProblems(pkgPath, fs) + [] == FilesProblems(pkgPath, fs);
    } else {
      var init, last := gs[..|gs| - 1], gs[|gs| - 1];
      assert (fs + gs)[..|fs + gs| - 1] == fs + init;
      assert (fs + gs)[|fs + gs| - 1] == last;
      FilesProblemsAppend(pkgPath, fs, init);
      AppendAssociative(FilesProblems(pkgPath, fs), FilesProblems(pkgPath, init), FileProblems(pkgPath, last));
    }
  }

  /**
   * A file that dot-imports flag yields exactly the one dot-import problem,
   * however many disallowed calls it holds.
   */
  lemma DotImportOnlyProblem(pkgPath: string, file: File, k: nat)
    requires k < |file.imports| && file.imports[k].path == FlagPath && file.imports[k].name == Some(".")
    requires forall i :: 0 <= i < k ==> file.imports[i].path != FlagPath
    ensures FileProblems(pkgPath, file) == [Problem(pkgPath, file.name, file.imports[k].pos, DotImportMessage)]
  {
    FirstFlagImportWins(file.imports, k);
  }

  /** A file that does not import flag yields nothing. */
  lemma NoFlagImportNoProblem(pkgPath: string, file: File)
    requires forall i :: 0 <= i < |file.imports| ==> file.imports[i].path != FlagPath
    ensures FileProblems(pkgPath, file) == []
  {
    NotVisibleIffNoFlagImport(file.imports);
  }

  /**
   * `import "flag"` and `import ff "flag"` over the same code, with `flag`
   * renamed to `ff`, find the same calls; only the prefix differs.
   */
  lemma AliasInvariance(pkgPath: string, name: string, pos: Pos, root: Node, ff: string)
    requires ff != "." && !Mentions(root, ff)
    ensures FileProblems(pkgPath, File(name, [Import(Some(ff), FlagPath, pos)], Rename(root, "flag", ff)))
         == ReprefixAll(FileProblems(pkgPath, File(name, [Import(None, FlagPath, pos)], root)), "flag", ff)
  {
    RenameChangesOnlyPrefix(root, "flag", ff, pkgPath, name);
  }

  // ---------------------------------------------------------------------------
  // The run

  /** What a package contributes to the run: nothing for package main. */
  function PackageProblems(pkg: Package): seq<Problem>
  {
    if pkg.name == "main" then [] else FilesProblems(pkg.pkgPath, pkg.syntax)
  }

  /** The problems of the packages in order, package after package. */
  function CollectProblems(pkgs: seq<Package>): seq<Problem>
    decreases |pkgs|
  {
    if pkgs == [] then []
    else CollectProblems(pkgs[..|pkgs| - 1]) + PackageProblems(pkgs[|pkgs| - 1])
  }

  /**
   * The body of `main` after loading: sorts the packages in `ImportOrder`,
   * skips package main, concatenates the problems, and chooses the outcome.
   */
  method Run(pkgs: array<Package>) returns (problems: seq<Problem>, code: int)
    modifies pkgs
    ensures ImportOrder.SortedByPath(pkgs[..]) && multiset(pkgs[..]) == multiset(old(pkgs[..]))
    ensures problems == CollectProblems(pkgs[..])
    ensures code == (if problems == [] then 0 else 2)
  {
    ImportOrder.Sort(pkgs);
    var sorted := pkgs[..];
    problems := [];
    var i := 0;
    while i < |sorted|
      invariant 0 <= i <= |sorted|
      invariant problems == CollectProblems(sorted[..i])
      invariant pkgs[..] == sorted
    {
      if sorted[i].name != "main" {
        var p := DoPackage(sorted[i]);
        problems := problems + p;
      }
      assert sorted[..i + 1][..i] == sorted[..i] && sorted[..i + 1][i] == sorted[i];
      i := i + 1;
    }
    assert sorted[..i] == sorted;
    if |problems| == 0 {
      code := 0;
      return;
    }
    code := 2;
  }

  /** The run's problems are the packages' problems, concatenated in package order. */
  lemma {:induction false} CollectProblemsAppend(ps: seq<Package>, qs: seq<Package>)
    ensures CollectProblems(ps + qs) == CollectProblems(ps) + CollectProblems(qs)
    decreases |qs|
  {
    if qs == [] {
      assert ps + qs == ps;
      assert CollectProblems(ps) + [] == CollectProblems(ps);
    } else {
      var init, last := qs[..|qs| - 1], qs[|qs| - 1];
      assert (ps + qs)[..|ps + qs| - 1] == ps + init;
      assert (ps + qs)[|ps + qs| - 1] == last;
      CollectProblemsAppend(ps, init);
      var a, b, c := CollectProblems(ps), CollectProblems(init), PackageProblems(last);
      assert CollectProblems(ps + qs) == a + b + c;
      assert CollectProblems(qs) == b + c;
      AppendAssociative(a, b, c);
    }
  }

  lemma AppendAssociative<T>(a: seq<T>, b: seq<T>, c: seq<T>)
    ensures (a + b) + c == a + (b + c)
  {
  }

  /** A run finds nothing exactly when every package contributes nothing. */
  lemma NoProblemsIffEveryPackageClean(pkgs: seq<Package>)
    ensures CollectProblems(pkgs) == [] <==> forall i :: 0 <= i < |pkgs| ==> PackageProblems(pkgs[i]) == []
  {
    if CollectProblems(pkgs) == [] {
      forall i | 0 <= i < |pkgs|
        ensures PackageProblems(pkgs[i]) == []
      {
        CleanWhenNoProblems(pkgs, i);
      }
    }
    if forall i :: 0 <= i < |pkgs| ==> PackageProblems(pkgs[i]) == [] {
      NoProblemsWhenClean(pkgs);
    }
  }

  lemma {:induction false} CleanWhenNoProblems(pkgs: seq<Package>, i: nat)
    requires i < |pkgs| && CollectProblems(pkgs) == []
    ensures PackageProblems(pkgs[i]) == []
    decreases |pkgs|
  {
    var init, last := pkgs[..|pkgs| - 1], pkgs[|pkgs| - 1];
    assert CollectProblems(pkgs) == CollectProblems(init) + PackageProblems(last);
    EmptyConcat(CollectProblems(init), PackageProblems(last));
    if i < |init| {
      CleanWhenNoProblems(init, i);
      assert init[i] == pkgs[i];
    } else {
      assert pkgs[i] == last;
    }
  }

  lemma EmptyConcat<T>(a: seq<T>, b: seq<T>)
    requires a + b == []
    ensures a == [] && b == []
  {
    assert |a + b| == |a| + |b|;
  }

  lemma {:induction false} NoProblemsWhenClean(pkgs: seq<Package>)
    requires forall i :: 0 <= i < |pkgs| ==> PackageProblems(pkgs[i]) == []
    ensures CollectProblems(pkgs) == []
    decreases |pkgs|
  {
    if pkgs != [] {
      var init := pkgs[..|pkgs| - 1];
      assert forall i :: 0 <= i < |init| ==> init[i] == pkgs[i];
      NoProblemsWhenClean(init);
      assert PackageProblems(pkgs[|pkgs| - 1]) == [];
    }
  }

  /** A run of packages all named main contributes nothing, whatever their files hold. */
  lemma AllMainPackagesClean(pkgs: seq<Package>)
    requires forall i :: 0 <= i < |pkgs| ==> pkgs[i].name == "main"
    ensures CollectProblems(pkgs) == []
  {
    NoProblemsIffEveryPackageClean(pkgs);
  }

  /** A package named main, wherever it stands in the run, changes nothing. */
  lemma MainPackagesExempt(ps: seq<Package>, m: Package, qs: seq<Package>)
    requires m.name == "main"
    ensures CollectProblems(ps + [m] + qs) == CollectProblems(ps + qs)
  {
    CollectProblemsAppend(ps + [m], qs);
    CollectProblemsAppend(ps, [m]);
    CollectProblemsAppend(ps, qs);
    assert CollectProblems([m]) == CollectProblems([m][..0]) + PackageProblems(m) == [];
    assert CollectProblems(ps) + [] == CollectProblems(ps);
  }

  /** Whether the run succeeds does not depend on the order of the packages. */
  lemma OutcomeIndependentOfOrder(ps: seq<Package>, qs: seq<Package>)
    requires multiset(ps) == multiset(qs)
    ensures (CollectProblems(ps) == []) == (CollectProblems(qs) == [])
  {
    NoProblemsIffEveryPackageClean(ps);
    NoProblemsIffEveryPackageClean(qs);
    forall i | 0 <= i < |qs| && CollectProblems(ps) == []
      ensures PackageProblems(qs[i]) == []
    {
      assert qs[i] in multiset(ps);
    }
    forall i | 0 <= i < |ps| && CollectProblems(qs) == []
      ensures PackageProblems(ps[i]) == []
    {
      assert ps[i] in multiset(qs);
    }
  }
}
