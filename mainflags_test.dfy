/**
 * The repository's test cases, stated over the model: each `testdata`
 * package, written as a syntax tree, is given to `Run`, and the two
 * `ImportOrder` lists are sorted with `Sort`.
 */
module MainFlagsTests {
  import opened Syntax
  import opened MainFlags
  import ImportOrder

  function FlagImport(): Import { Import(None, FlagPath, 20) }
  function FmtImport(): Import { Import(None, "\"fmt\"", 30) }

  /** A literal or any other leaf without calls. */
  function Lit(): Node { Other([]) }

  /** `recv.member(args...)` at `pos`. */
  function MethodCall(recv: string, member: string, args: seq<Node>, pos: Pos): Node
  {
    Call(Selector(Ident(recv), member), args, pos)
  }

  /** `var name = alias.Int(...)` at `pos`. */
  function IntVar(alias: string, name: string, pos: Pos): Node
  {
    Other([Ident(name), MethodCall(alias, "Int", [Lit(), Lit(), Lit()], pos)])
  }

  /** testdata/flagvars: three `flag.Int` package variables. */
  function FlagVars(): Package
  {
    Package("flagvars", "mainflags/testdata/flagvars",
      [File("a.go", [FlagImport()],
        Other([Other([IntVar("flag", "one", 100), IntVar("flag", "two", 200), IntVar("flag", "three", 300)])]))])
  }

  /** testdata/flagalias: the same under `import ff "flag"`. */
  function FlagAlias(): Package
  {
    Package("flagalias", "mainflags/testdata/flagalias",
      [File("a.go", [Import(Some("ff"), FlagPath, 20)],
        Other([Other([IntVar("ff", "one", 100), IntVar("ff", "two", 200), IntVar("ff", "three", 300)])]))])
  }

  /** testdata/flagset: `AddFlags(fs *flag.FlagSet)` registering on `fs` only. */
  function FlagSet(): Package
  {
    var field := (f: string) => Other([Selector(Ident("cfg"), f)]);
    var body := Other([
      MethodCall("fs", "StringVar", [field("A"), Lit(), Lit(), Lit()], 400),
      MethodCall("fs", "StringVar", [field("B"), Lit(), Lit(), Lit()], 500),
      MethodCall("fs", "StringVar", [field("C"), Lit(), Lit(), Lit()], 600)]);
    Package("flagset", "mainflags/testdata/flagset",
      [File("a.go", [FlagImport()],
        Other([
          Other([Ident("Config"), Other([Other([Ident("A"), Ident("string")])])]),
          Other([Ident("cfg"), Other([Other([Ident("Config")])])]),
          Other([Ident("AddFlags"), Other([Ident("fs"), Other([Selector(Ident("flag"), "FlagSet")])]), body])]))])
  }

  /** testdata/main: `flag.Int` at top level and in `func main`, in package main. */
  function MainPkg(): Package
  {
    var mainBody := Other([
      Other([Ident("four"), MethodCall("flag", "Int", [Lit(), Lit(), Lit()], 400)]),
      MethodCall("flag", "Parse", [], 500),
      MethodCall("fmt", "Println", [Other([Ident("four")])], 600)]);
    Package("main", "mainflags/testdata/main",
      [File("a.go", [FlagImport(), FmtImport()],
        Other([
          Other([IntVar("flag", "one", 100), IntVar("flag", "two", 200), IntVar("flag", "three", 300)]),
          Other([Ident("main"), mainBody])]))])
  }

  /** testdata/scopedflags: one `flag.String` and an allowed `flag.Parse` in a function. */
  function ScopedFlags(): Package
  {
    var body := Other([
      Other([Ident("one"), MethodCall("flag", "String", [Lit(), Lit(), Lit()], 100)]),
      MethodCall("flag", "Parse", [], 200),
      MethodCall("fmt", "Println", [Other([Ident("one")])], 300)]);
    Package("scopedflags", "mainflags/testdata/scopedflags",
      [File("a.go", [FlagImport(), FmtImport()], Other([Other([Ident("x"), body])]))])
  }

  /** A dot-import of flag beside a disallowed call in the same file. */
  function DotImport(): Package
  {
    Package("dotimport", "mainflags/testdata/dotimport",
      [File("a.go", [Import(Some("."), FlagPath, 20)],
        Other([IntVar("flag", "one", 100), Other([Ident("two"), Call(Ident("Int"), [Lit(), Lit(), Lit()], 200)])]))])
  }

  /** A package that does not import flag at all. */
  function NoFlags(): Package
  {
    Package("noflags", "mainflags/testdata/noflags",
      [File("a.go", [FmtImport()], Other([MethodCall("fmt", "Println", [Lit()], 100)]))])
  }

  lemma SingletonPermutation(s: seq<Package>, x: Package)
    requires multiset(s) == multiset([x])
    ensures s == [x]
  {
    assert |s| == |multiset(s)| == 1;
    assert s[0] in multiset(s);
  }

  /** `run` on one package, as TestRun does. */
  method RunOne(pkg: Package) returns (problems: seq<Problem>, code: int)
    ensures problems == PackageProblems(pkg)
    ensures code == (if problems == [] then 0 else 2)
  {
    var a := new Package[1];
    a[0] := pkg;
    assert a[..] == [pkg];
    problems, code := Run(a);
    SingletonPermutation(a[..], pkg);
    assert CollectProblems([pkg])[..0] == [];
  }

  lemma OneFile(pkg: Package)
    requires |pkg.syntax| == 1
    ensures FilesProblems(pkg.pkgPath, pkg.syntax) == FileProblems(pkg.pkgPath, pkg.syntax[0])
  {
    assert pkg.syntax[..0] == [];
  }

  lemma InspectAll1(x: Node, alias: string, pkg: string, file: string)
    ensures InspectAll([x], alias, pkg, file) == Inspect(x, alias, pkg, file)
  {
    assert [x][1..] == [];
  }

  lemma InspectAll2(x: Node, y: Node, alias: string, pkg: string, file: string)
    ensures InspectAll([x, y], alias, pkg, file) == Inspect(x, alias, pkg, file) + Inspect(y, alias, pkg, file)
  {
    assert [x, y][1..] == [y];
    InspectAll1(y, alias, pkg, file);
  }

  lemma InspectAll3(x: Node, y: Node, z: Node, alias: string, pkg: string, file: string)
    ensures InspectAll([x, y, z], alias, pkg, file)
      == Inspect(x, alias, pkg, file) + Inspect(y, alias, pkg, file) + Inspect(z, alias, pkg, file)
  {
    assert [x, y, z][1..] == [y, z];
    InspectAll2(y, z, alias, pkg, file);
  }

  lemma IntVarReported(alias: string, name: string, pos: Pos, pkg: string, file: string)
    ensures Inspect(IntVar(alias, name, pos), alias, pkg, file) == [Problem(pkg, file, pos, CallMessage(alias, "Int"))]
  {
    var c := MethodCall(alias, "Int", [Lit(), Lit(), Lit()], pos);
    assert "Int" !in AllowedFlagFunctions;
    assert CheckCall(c, alias) == (CallMessage(alias, "Int"), false);
    assert Inspect(c, alias, pkg, file) == [Problem(pkg, file, pos, CallMessage(alias, "Int"))];
    var ns := [Ident(name), c];
    assert ns[1..] == [c] && ns[1..][1..] == [];
    assert InspectAll(ns[1..], alias, pkg, file) == Inspect(c, alias, pkg, file);
    assert Inspect(ns[0], alias, pkg, file) == [];
    assert IntVar(alias, name, pos) == Other(ns);
  }

  lemma ThreeIntVars(alias: string, pkg: string, file: string)
    ensures InspectAll([IntVar(alias, "one", 100), IntVar(alias, "two", 200), IntVar(alias, "three", 300)], alias, pkg, file)
      == [Problem(pkg, file, 100, CallMessage(alias, "Int")), Problem(pkg, file, 200, CallMessage(alias, "Int")),
          Problem(pkg, file, 300, CallMessage(alias, "Int"))]
  {
    IntVarReported(alias, "one", 100, pkg, file);
    IntVarReported(alias, "two", 200, pkg, file);
    IntVarReported(alias, "three", 300, pkg, file);
    InspectAll3(IntVar(alias, "one", 100), IntVar(alias, "two", 200), IntVar(alias, "three", 300), alias, pkg, file);
  }

  method TestFlagVars() returns (problems: seq<Problem>, code: int)
    ensures code == 2 && |problems| == 3
    ensures forall i :: 0 <= i < |problems| ==> problems[i].message == CallMessage("flag", "Int")
  {
    problems, code := RunOne(FlagVars());
    OneFile(FlagVars());
    ThreeIntVars("flag", FlagVars().pkgPath, "a.go");
  }

  method TestFlagAlias() returns (problems: seq<Problem>, code: int)
    ensures code == 2 && |problems| == 3
    ensures forall i :: 0 <= i < |problems| ==> problems[i].message == CallMessage("ff", "Int")
  {
    problems, code := RunOne(FlagAlias());
    OneFile(FlagAlias());
    ThreeIntVars("ff", FlagAlias().pkgPath, "a.go");
  }

  method TestFlagSet() returns (problems: seq<Problem>, code: int)
    ensures code == 0 && problems == []
  {
    problems, code := RunOne(FlagSet());
    OneFile(FlagSet());
    NoViolationInFlagSet();
  }

  lemma NoViolationInFlagSet()
    ensures FileProblems(FlagSet().pkgPath, FlagSet().syntax[0]) == []
  {
    var f, path := FlagSet().syntax[0], FlagSet().pkgPath;
    assert Resolve(f.imports) == VisibleAs("flag");
    var ds := f.root.children;
    assert Inspect(ds[0], "flag", path, "a.go") == [];
    assert Inspect(ds[1], "flag", path, "a.go") == [];
    var fn := ds[2].children;
    assert Inspect(fn[0], "flag", path, "a.go") == [];
    assert Inspect(fn[1], "flag", path, "a.go") == [];
    var stmts := fn[2].children;
    assert Inspect(stmts[0], "flag", path, "a.go") == [];
    assert Inspect(stmts[1], "flag", path, "a.go") == [];
    assert Inspect(stmts[2], "flag", path, "a.go") == [];
    InspectAll3(stmts[0], stmts[1], stmts[2], "flag", path, "a.go");
    InspectAll3(fn[0], fn[1], fn[2], "flag", path, "a.go");
    InspectAll3(ds[0], ds[1], ds[2], "flag", path, "a.go");
  }

  method TestMain() returns (problems: seq<Problem>, code: int)
    ensures code == 0 && problems == []
  {
    problems, code := RunOne(MainPkg());
  }

  method TestScopedFlags() returns (problems: seq<Problem>, code: int)
    ensures code == 2
    ensures problems == [Problem("mainflags/testdata/scopedflags", "a.go", 100, CallMessage("flag", "String"))]
  {
    problems, code := RunOne(ScopedFlags());
    OneFile(ScopedFlags());
    var f := ScopedFlags().syntax[0];
    assert Resolve(f.imports) == VisibleAs("flag");
    var body := f.root.children[0].children[1].children;
    var path := ScopedFlags().pkgPath;
    assert Inspect(body[0], "flag", path, "a.go") == [Problem(path, "a.go", 100, CallMessage("flag", "String"))];
    assert Inspect(body[1], "flag", path, "a.go") == [];
    assert Inspect(body[2], "flag", path, "a.go") == [];
    InspectAll3(body[0], body[1], body[2], "flag", path, "a.go");
    var x := f.root.children[0];
    InspectAll2(x.children[0], x.children[1], "flag", path, "a.go");
    InspectAll1(x, "flag", path, "a.go");
  }

  method TestDotImport() returns (problems: seq<Problem>, code: int)
    ensures code == 2
    ensures problems == [Problem("mainflags/testdata/dotimport", "a.go", 20, "package flag should not be dot-imported")]
  {
    problems, code := RunOne(DotImport());
    OneFile(DotImport());
  }

  method TestNoFlags() returns (problems: seq<Problem>, code: int)
    ensures code == 0 && problems == []
  {
    problems, code := RunOne(NoFlags());
    OneFile(NoFlags());
  }

  // ---------------------------------------------------------------------------
  // TestImportOrder

  function PathsOf(s: seq<Package>): (r: seq<string>)
    ensures |r| == |s| && forall i :: 0 <= i < |s| ==> r[i] == s[i].pkgPath
  {
    if s == [] then [] else [s[0].pkgPath] + PathsOf(s[1..])
  }

  function PackagesOf(paths: seq<string>): (r: seq<Package>)
    ensures |r| == |paths| && forall i :: 0 <= i < |paths| ==> r[i] == Package("", paths[i], [])
  {
    if paths == [] then [] else [Package("", paths[0], [])] + PackagesOf(paths[1..])
  }

  /** Sorts packages that carry only the given paths and returns the paths in their new order. */
  method SortPaths(paths: seq<string>) returns (sorted: seq<Package>)
    ensures ImportOrder.SortedByPath(sorted)
    ensures multiset(sorted) == multiset(PackagesOf(paths))
  {
    var pkgs := PackagesOf(paths);
    var a := new Package[|pkgs|](i requires 0 <= i < |pkgs| => pkgs[i]);
    assert a[..] == pkgs;
    ImportOrder.Sort(a);
    sorted := a[..];
  }

  /** A strictly increasing chain is sorted and has distinct paths. */
  lemma {:induction false} ChainSorted(s: seq<Package>)
    requires forall i :: 0 <= i < |s| - 1 ==> ImportOrder.Less(s[i].pkgPath, s[i + 1].pkgPath)
    ensures forall i, j :: 0 <= i < j < |s| ==> ImportOrder.Less(s[i].pkgPath, s[j].pkgPath)
    ensures ImportOrder.SortedByPath(s)
    ensures forall i, j :: 0 <= i < j < |s| ==> s[i].pkgPath != s[j].pkgPath
    decreases |s|
  {
    if s != [] {
      var t := s[1..];
      ChainSorted(t);
      forall i, j | 0 <= i < j < |s|
        ensures ImportOrder.Less(s[i].pkgPath, s[j].pkgPath)
      {
        if i > 0 {
          assert s[i] == t[i - 1] && s[j] == t[j - 1];
        } else if j > 1 {
          assert s[1] == t[0] && s[j] == t[j - 1];
          ImportOrder.LessTransitive(s[0].pkgPath, s[1].pkgPath, s[j].pkgPath);
        }
      }
      forall i, j | 0 <= i < j < |s|
        ensures !ImportOrder.Less(s[j].pkgPath, s[i].pkgPath) && s[i].pkgPath != s[j].pkgPath
      {
        ImportOrder.LessAsymmetric(s[i].pkgPath, s[j].pkgPath);
        ImportOrder.LessIrreflexive(s[i].pkgPath);
      }
    }
  }

  const StdlibIn: seq<string> := ["math/rand", "io", "crypto/rand"]
  const StdlibOut: seq<string> := ["crypto/rand", "io", "math/rand"]
  const MixedIn: seq<string> :=
    ["strings", "github.com/stretchr/testify", "gopkg.in/yaml.v3", "flag", "google.golang.org/grpc"]
  const MixedOut: seq<string> :=
    ["flag", "strings", "github.com/stretchr/testify", "google.golang.org/grpc", "gopkg.in/yaml.v3"]

  lemma CryptoBeforeIo()
    ensures ImportOrder.Less("crypto/rand", "io")
  {
    ImportOrder.NoDotIsStandard("crypto/rand");
    ImportOrder.NoDotIsStandard("io");
    ImportOrder.LexLessAt("crypto/rand", "io", 0);
  }

  lemma IoBeforeMath()
    ensures ImportOrder.Less("io", "math/rand")
  {
    ImportOrder.NoDotIsStandard("io");
    ImportOrder.NoDotIsStandard("math/rand");
    ImportOrder.LexLessAt("io", "math/rand", 0);
  }

  lemma ThreeInOrder(a: string, b: string, c: string)
    requires ImportOrder.Less(a, b) && ImportOrder.Less(b, c)
    ensures ImportOrder.SortedByPath(PackagesOf([a, b, c]))
    ensures forall i, j :: 0 <= i < j < 3 ==> PackagesOf([a, b, c])[i].pkgPath != PackagesOf([a, b, c])[j].pkgPath
  {
    ChainSorted(PackagesOf([a, b, c]));
  }

  lemma ReversedPermutation(a: string, b: string, c: string)
    ensures multiset(PackagesOf([c, b, a])) == multiset(PackagesOf([a, b, c]))
  {
    var p := PackagesOf([a, b, c]);
    assert PackagesOf([c, b, a]) == [p[2], p[1], p[0]];
    assert p == [p[0], p[1], p[2]];
    assert [p[2], p[1], p[0]] == [p[2]] + [p[1]] + [p[0]];
    assert [p[0], p[1], p[2]] == [p[0]] + [p[1]] + [p[2]];
  }

  method TestImportOrderStdlib() returns (out: seq<string>)
    ensures out == ["crypto/rand", "io", "math/rand"]
  {
    var sorted := SortPaths(StdlibIn);
    CryptoBeforeIo();
    IoBeforeMath();
    ThreeInOrder(StdlibOut[0], StdlibOut[1], StdlibOut[2]);
    ReversedPermutation(StdlibOut[0], StdlibOut[1], StdlibOut[2]);
    SortsTo(sorted, StdlibIn, StdlibOut);
    out := PathsOf(sorted);
  }

  lemma GithubIsThirdParty()
    ensures !ImportOrder.IsStandard("github.com/stretchr/testify")
  {
    var p := "github.com/stretchr/testify";
    assert p[..6] == "github" && p[6] == '.';
    ImportOrder.DotInFirstSegment(p, 6);
  }

  lemma GoogleIsThirdParty()
    ensures !ImportOrder.IsStandard("google.golang.org/grpc")
  {
    var q := "google.golang.org/grpc";
    assert q[..6] == "google" && q[6] == '.';
    ImportOrder.DotInFirstSegment(q, 6);
  }

  lemma GopkgIsThirdParty()
    ensures !ImportOrder.IsStandard("gopkg.in/yaml.v3")
  {
    var r := "gopkg.in/yaml.v3";
    assert r[..5] == "gopkg" && r[5] == '.';
    ImportOrder.DotInFirstSegment(r, 5);
  }

  lemma FlagBeforeStrings()
    ensures ImportOrder.Less("flag", "strings")
  {
    ImportOrder.NoDotIsStandard("flag");
    ImportOrder.NoDotIsStandard("strings");
    ImportOrder.LexLessAt("flag", "strings", 0);
  }

  lemma StringsBeforeGithub()
    ensures ImportOrder.Less("strings", "github.com/stretchr/testify")
  {
    ImportOrder.NoDotIsStandard("strings");
    GithubIsThirdParty();
  }

  lemma GithubBeforeGoogleLex()
    ensures ImportOrder.LexLess("github.com/stretchr/testify", "google.golang.org/grpc")
  {
    var p, q := "github.com/stretchr/testify", "google.golang.org/grpc";
    assert p[..1] == [p[0]] && q[..1] == [q[0]];
    ImportOrder.LexLessAt(p, q, 1);
  }

  lemma GithubBeforeGoogle()
    ensures ImportOrder.Less("github.com/stretchr/testify", "google.golang.org/grpc")
  {
    GithubIsThirdParty();
    GoogleIsThirdParty();
    GithubBeforeGoogleLex();
  }

  lemma GoogleBeforeGopkgLex()
    ensures ImportOrder.LexLess("google.golang.org/grpc", "gopkg.in/yaml.v3")
  {
    var q, r := "google.golang.org/grpc", "gopkg.in/yaml.v3";
    assert q[..2] == [q[0], q[1]] && r[..2] == [r[0], r[1]];
    ImportOrder.LexLessAt(q, r, 2);
  }

  lemma GoogleBeforeGopkg()
    ensures ImportOrder.Less("google.golang.org/grpc", "gopkg.in/yaml.v3")
  {
    GoogleIsThirdParty();
    GopkgIsThirdParty();
    GoogleBeforeGopkgLex();
  }

  lemma FiveInOrder(a: string, b: string, c: string, d: string, e: string)
    requires ImportOrder.Less(a, b) && ImportOrder.Less(b, c) && ImportOrder.Less(c, d) && ImportOrder.Less(d, e)
    ensures ImportOrder.SortedByPath(PackagesOf([a, b, c, d, e]))
    ensures forall i, j :: 0 <= i < j < 5 ==> PackagesOf([a, b, c, d, e])[i].pkgPath != PackagesOf([a, b, c, d, e])[j].pkgPath
  {
    ChainSorted(PackagesOf([a, b, c, d, e]));
  }

  /** A sorted permutation of `in_` must be `out` when `out` is itself sorted with distinct paths. */
  lemma SortsTo(sorted: seq<Package>, in_: seq<string>, out: seq<string>)
    requires ImportOrder.SortedByPath(sorted) && multiset(sorted) == multiset(PackagesOf(in_))
    requires multiset(PackagesOf(in_)) == multiset(PackagesOf(out))
    requires ImportOrder.SortedByPath(PackagesOf(out))
    requires forall i, j :: 0 <= i < j < |out| ==> PackagesOf(out)[i].pkgPath != PackagesOf(out)[j].pkgPath
    ensures PathsOf(sorted) == out
  {
    ImportOrder.SortedUnique(PackagesOf(out), sorted);
    PathsOfPackagesOf(out);
  }

  lemma PathsOfPackagesOf(paths: seq<string>)
    ensures PathsOf(PackagesOf(paths)) == paths
  {
    var r := PathsOf(PackagesOf(paths));
    assert |r| == |paths| && forall i :: 0 <= i < |r| ==> r[i] == paths[i];
  }

  /** The multiset of a five-element sequence, element by element. */
  lemma FiveElements<T>(a: T, b: T, c: T, d: T, e: T)
    ensures multiset([a, b, c, d, e]) == multiset{a} + multiset{b} + multiset{c} + multiset{d} + multiset{e}
  {
    assert [a, b, c, d, e] == [a, b, c, d] + [e];
    assert [a, b, c, d] == [a, b, c] + [d];
    assert [a, b, c] == [a, b] + [c];
    assert [a, b] == [a] + [b];
  }

  lemma MixedPermutation(a: string, b: string, c: string, d: string, e: string)
    ensures multiset(PackagesOf([b, c, e, a, d])) == multiset(PackagesOf([a, b, c, d, e]))
  {
    var p := PackagesOf([a, b, c, d, e]);
    assert PackagesOf([b, c, e, a, d]) == [p[1], p[2], p[4], p[0], p[3]];
    assert p == [p[0], p[1], p[2], p[3], p[4]];
    FiveElements(p[1], p[2], p[4], p[0], p[3]);
    FiveElements(p[0], p[1], p[2], p[3], p[4]);
  }

  method TestImportOrderMixed() returns (out: seq<string>)
    ensures out == ["flag", "strings", "github.com/stretchr/testify", "google.golang.org/grpc", "gopkg.in/yaml.v3"]
  {
    var sorted := SortPaths(MixedIn);
    FlagBeforeStrings();
    StringsBeforeGithub();
    GithubBeforeGoogle();
    GoogleBeforeGopkg();
    FiveInOrder(MixedOut[0], MixedOut[1], MixedOut[2], MixedOut[3], MixedOut[4]);
    MixedPermutation(MixedOut[0], MixedOut[1], MixedOut[2], MixedOut[3], MixedOut[4]);
    SortsTo(sorted, MixedIn, MixedOut);
    out := PathsOf(sorted);
  }
}
