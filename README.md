# mainflags in Dafny

`mainflags` is a Go linter. It reports library code that registers flags on
the process-wide flag set of package `flag`, such as `flag.Int(...)` in a
package other than `main`. This project models its detection core, which
lives in `mainflags.go`:

- **Import resolution** (`processImports`). The first import whose path literal is
  exactly `"flag"` fixes the local name of package flag in that file. An unnamed import
  gives `flag`, a named one gives its name. A `.` import is reported as one dot-import
  problem, and that file is not scanned.
- **Call classification** (`checkCall`). A call `alias.M(...)` on the resolved alias is a
  violation unless `M` is one of the 13 allow-listed operations. A violation carries the
  message `<alias>.<M> should not be used on the global flagset`.
- **The walk** (`doPackage`'s `ast.Inspect`). Each file's syntax tree is visited in
  pre-order. At every call the walk classifies the call and stops descending, so calls
  nested in a call's arguments are never seen.
- **The run** (the body of `main` after loading). The packages are sorted with
  `ImportOrder`, packages named `main` are skipped, and the problems are concatenated in
  package order. The exit code is 0 when nothing was found and 2 otherwise.
- **`ImportOrder`**. Standard-library paths (first `/`-segment without a `.`) come before
  third-party paths, and each group is in plain string order. `Swap` exchanges two
  packages in place, and `Sort` is an in-place insertion sort that uses only `Less` and
  `Swap`.

Files:

- `syntax.dfy` (module `Syntax`) is a small closed stand-in for `go/ast`:
  - call, selector, identifier, and `Other` for every other node kind with its children;
  - imports, files and loaded packages;
  - positions are abstract naturals.
- `import_order.dfy` (module `ImportOrder`) holds `Less`, `Swap` and `Sort` over an
  `array<Package>`. `Sort` is proved to leave the array sorted and a permutation of the
  input. It also holds the order's properties: irreflexive, transitive, total on distinct
  paths, standard library first, string order within a group, and uniqueness of a sorted
  order.
- `mainflags.dfy` (module `MainFlags`) holds the rest:
  - the allow-list, `CheckCall` and the per-file resolution `Resolve`;
  - `ProcessImports`, `DoPackage` and `Run` as methods with loops, each proved against a
    specification function (`Resolve`, `FilesProblems`, `CollectProblems`);
  - the lemmas about those functions.
- `mainflags_test.dfy` (module `MainFlagsTests`) restates the repository's tests:
  - `TestRun`'s table, with each `testdata` package written as a syntax tree;
  - `TestImportOrder`'s two lists.

  Each case is a method whose `ensures` is the expected outcome.

Go's string `<` compares bytes. Dafny's `<` on sequences means "proper prefix", so
`LexLess` spells out the lexicographic order on characters. That order agrees with the
byte order of UTF-8.

## Model

| member | source | states |
|---|---|---|
| MainFlags.Classify | mainflags.go:236-250 | One import of `"flag"` always makes package flag visible or dot-imported, never invisible. A dot-import sits at the import's position. A visible alias is never `.`. |
| MainFlags.Resolve | mainflags.go:231-255 | The resolved alias is never `.`, because a `.` name is always turned into a dot-import. |
| MainFlags.ResolvedByFlagImport | mainflags.go:231-253 | A visible or dot-imported verdict is the classification of one of the file's imports whose path literal is `"flag"`. |
| MainFlags.ProcessImports | mainflags.go:230-256 | Walking the imports in order gives exactly `Resolve`'s verdict. The result is no flag import ⇒ `(false, "", [])`; visible as `a` ⇒ `(true, a, [])`; dot-import ⇒ `(false, "", [one dot-import problem at the import])`. |
| MainFlags.NotVisibleIffNoFlagImport | mainflags.go:231-255 | Package flag is invisible in a file if and only if no import has the path literal `"flag"`. |
| MainFlags.FirstFlagImportWins | mainflags.go:231-253 | When import `k` is the first with path `"flag"`, it alone decides the resolution. Later `"flag"` imports are ignored. |
| MainFlags.ClassifyNames | mainflags.go:236-252 | An unnamed import is visible as `flag`. A named import is visible under its name, `_` included. The name `.` is a dot-import at the import's position. |
| MainFlags.CheckCall | mainflags.go:260-285 | An OK call has the empty message. A reported call has a selector callee, and its message is `CallMessage(alias, sel)`. |
| MainFlags.CheckCallAllowed | mainflags.go:31-45 | `alias.M(...)` with `M` on the 13-name allow-list is OK, with the empty message. |
| MainFlags.CheckCallDisallowed | mainflags.go:279-284 | `alias.M(...)` with `M` off the allow-list is reported with exactly `alias + "." + M + " should not be used on the global flagset"`. |
| MainFlags.CheckCallIgnoresOthers | mainflags.go:261-277 | Each of these is OK with the empty message: a callee that is not a selector, a selector whose base is not an identifier, and an identifier other than the alias. |
| MainFlags.ViolationsExactly | mainflags.go:198-206 | The reported calls are exactly the visited calls that `CheckCall` rejects (both directions). |
| MainFlags.Inspect | mainflags.go:187-213 | Every problem of the walk carries the package and file being scanned. |
| MainFlags.InspectAll | mainflags.go:187-213 | The same for a sequence of sibling nodes. |
| MainFlags.InspectReportsOuterViolations | mainflags.go:187-213 | The walk yields one problem per rejected outermost call, in pre-order, at the call's position and with `CheckCall`'s message, and nothing else. |
| MainFlags.InspectAllReportsOuterViolations | mainflags.go:187-213 | The same for a sequence of sibling nodes, visited left to right. |
| MainFlags.AtMostOnePerCall | mainflags.go:198-212 | A subtree yields no more problems than it has outermost calls. |
| MainFlags.NoCallNoProblem | mainflags.go:188-196 | A subtree without calls yields no problem. An example is the selector in the parameter type `*flag.FlagSet`. |
| MainFlags.CallArgumentsNotScanned | mainflags.go:208-212 | A call's problems do not depend on its arguments, so nested calls such as `flag.StringVar(flag.String(...), ...)` are missed. A call yields at most one problem. |
| MainFlags.ViolationsAppend | mainflags.go:187-213 | Classifying two runs of calls separately and concatenating gives the classification of the whole run. |
| MainFlags.CheckCallRename | mainflags.go:260-285 | If a call does not mention the name `b`, renaming `a` to `b` in it keeps `CheckCall`'s verdict. Only the message prefix moves from `a` to `b`. |
| MainFlags.RenameChangesOnlyPrefix | mainflags.go:187-213 | If `b` does not occur in a tree, walking it with `a` renamed to `b` under alias `b` gives the same problems at the same positions. Each message's prefix `a` becomes `b`. |
| MainFlags.RenameAllChangesOnlyPrefix | mainflags.go:187-213 | The same for a sequence of sibling nodes. |
| MainFlags.AliasInvariance | testdata/flagalias/a.go:3-8 | For the same code, `import ff "flag"` (with `flag.` spelled `ff.`) and `import "flag"` give the same problems, differing only in the message prefix. |
| MainFlags.DoPackage | mainflags.go:167-222 | `doPackage`'s loop over the files yields `FilesProblems`: per file, either its dot-import problem or its walk's problems under the file's own alias, file after file. |
| MainFlags.FilesProblemsAppend | mainflags.go:173-214 | Files are resolved and scanned independently, so the problems of two runs of files concatenate. |
| MainFlags.DotImportOnlyProblem | mainflags.go:241-250 | A file whose first `"flag"` import is named `.` yields exactly one problem: `package flag should not be dot-imported`, at the import. It yields nothing from its calls, however many bad calls it holds. |
| MainFlags.NoFlagImportNoProblem | mainflags.go:178-180 | A file that does not import flag yields no problem. |
| MainFlags.Run | mainflags.go:111-134 | The packages end up sorted by `ImportOrder.Less`, as a permutation of the input. The problems are `CollectProblems` of that order, with packages named `main` contributing nothing. The code is 0 when there are no problems and 2 otherwise. |
| MainFlags.CollectProblemsAppend | mainflags.go:115-123 | The run's problems are concatenated package by package. |
| MainFlags.NoProblemsIffEveryPackageClean | mainflags.go:115-128 | A run finds nothing if and only if every package contributes nothing. |
| MainFlags.CleanWhenNoProblems | mainflags.go:115-128 | When the run finds nothing, each package contributes nothing. |
| MainFlags.NoProblemsWhenClean | mainflags.go:115-128 | When every package contributes nothing, the run finds nothing. |
| MainFlags.MainPackagesExempt | mainflags.go:115-120 | Inserting a package named `main` anywhere in a run leaves the run's problems unchanged. |
| MainFlags.AllMainPackagesClean | mainflags.go:115-120 | A run whose packages are all named `main` finds no problem, neither from calls nor from dot-imports. |
| MainFlags.OutcomeIndependentOfOrder | mainflags.go:111-134 | Whether the run succeeds (code 0) does not depend on the order of the packages. |
| ImportOrder.FirstSegment | mainflags.go:68-69 | The first `/`-segment is a prefix of the path without any `/`. When it is shorter than the path, a `/` follows it. |
| ImportOrder.LexLess | mainflags.go:73 | String order never relates a string to itself, and a proper prefix comes before the longer string. |
| ImportOrder.IsStandard | mainflags.go:68-72 | A path that is not standard contains a `.` and does not begin with `/`. |
| ImportOrder.IsStandardIff | mainflags.go:68-72 | A path is standard if and only if no `.` occurs before its first `/`. |
| ImportOrder.Less | mainflags.go:65-84 | Between a standard and a third-party path, `Less` holds exactly when the left one is standard. |
| ImportOrder.LexLessIrreflexive | mainflags.go:73 | No string is below itself in string order. |
| ImportOrder.LexLessTransitive | mainflags.go:73 | String order is transitive. |
| ImportOrder.LexLessConnected | mainflags.go:73 | Of two distinct strings, one is below the other. |
| ImportOrder.LexLessAt | mainflags.go:73 | Two strings that share the first `k` characters and differ at `k` are ordered by that character. |
| ImportOrder.LessIrreflexive | mainflags.go:65-84 | `Less(p, p)` is false. |
| ImportOrder.LessTransitive | mainflags.go:65-84 | `Less` is transitive. |
| ImportOrder.LessConnected | mainflags.go:65-84 | Of two distinct paths, one is `Less` than the other. |
| ImportOrder.LessAsymmetric | mainflags.go:65-84 | `Less(a, b)` excludes `Less(b, a)`. |
| ImportOrder.NotLessTransitive | mainflags.go:65-84 | "Not less" is transitive, which is the property the sort relies on. |
| ImportOrder.StandardFirst | mainflags.go:71-81 | A standard-library path precedes every third-party path, and never the other way round. |
| ImportOrder.NoDotIsStandard | mainflags.go:68-72 | A path with no `.` at all is a standard-library path. |
| ImportOrder.DotInFirstSegment | mainflags.go:68-81 | A path with a `.` before its first `/` is a third-party path. |
| ImportOrder.WithinGroupIsStringOrder | mainflags.go:71-83 | Within the standard group, and within the third-party group, `Less` is plain string order. |
| ImportOrder.Swap | mainflags.go:64 | Exchanges `a[i]` and `a[j]` in place and changes nothing else. |
| ImportOrder.Sort | mainflags.go:111 | Leaves the array sorted by `Less` and a permutation of its old contents. |
| ImportOrder.Insert | mainflags.go:111 | With `a[..i]` sorted, moves `a[i]` left until `a[..i+1]` is sorted. `a[..i+1]` is a permutation of its old contents, and `a[i+1..]` is unchanged. |
| ImportOrder.SortedUnique | mainflags_test.go:121-138 | Two sorted permutations of packages with distinct paths are equal, so the outcome of sorting does not depend on the algorithm. |
| MainFlagsTests.TestFlagVars | testdata/flagvars/a.go:1-9 | flagvars yields exit code 2 and 3 problems, each `flag.Int should not be used on the global flagset`. |
| MainFlagsTests.TestFlagAlias | testdata/flagalias/a.go:1-9 | flagalias yields exit code 2 and 3 problems, each `ff.Int should not be used on the global flagset`. |
| MainFlagsTests.TestFlagSet | testdata/flagset/a.go:1-17 | flagset (`fs.StringVar` on a `*flag.FlagSet` parameter) yields exit code 0 and no problem. |
| MainFlagsTests.TestMain | testdata/main/a.go:1-20 | Package main yields exit code 0 and no problem, although it calls `flag.Int`. |
| MainFlagsTests.TestScopedFlags | testdata/scopedflags/a.go:1-12 | scopedflags yields exit code 2 and exactly one problem, `flag.String ...` at the call. The allowed `flag.Parse()` adds nothing. |
| MainFlagsTests.TestDotImport | mainflags_test.go:20-24 | A file that dot-imports flag yields exit code 2 and exactly the one dot-import problem, although it also holds a `flag.Int` call. |
| MainFlagsTests.TestNoFlags | mainflags_test.go:47-51 | A package that does not import flag yields exit code 0 and no problem. |
| MainFlagsTests.TestImportOrderStdlib | mainflags_test.go:89-101 | Sorting `[math/rand, io, crypto/rand]` gives `[crypto/rand, io, math/rand]`. |
| MainFlagsTests.TestImportOrderMixed | mainflags_test.go:102-118 | Sorting the mixed list gives `[flag, strings, github.com/stretchr/testify, google.golang.org/grpc, gopkg.in/yaml.v3]`. |

## Left out

- Loading (`packages.Load`, `packages.Config`, `packageMode`) is not modelled. A package is given as a value with its name, path and syntax trees.
- The real `go/ast` and `go/token` types are replaced by the closed `Node` datatype and natural-number positions.
- In the closed `Node` type a selector always has a base. So `checkCall`'s `selector.X == nil` branch (mainflags.go:266-268) cannot occur and has no counterpart.
- `formatProblem` (mainflags.go:139-154) is not modelled. It depends on the file set's position table and on `filepath.Rel` against the working directory. A problem keeps its package path, file name, abstract position and message instead.
- The printing of the problems, and `os.Exit`, are not modelled. `Run` returns the problems and the exit code.
- `mustString` and `fatalf` are process exits on I/O errors and are not modelled.
- `log.go` is not part of this model. Neither is the `sync.Once` debug logging in `doPackage` (mainflags.go:182-185, 216-219). Both affect only log output.
- `flag.Parse` and the command-line defaulting in `main` (mainflags.go:87-100) are not modelled. They only choose what to load.
- `ImportOrder.Len` is the array's `Length` and has no member of its own.
- `ImportOrder.Sort`: Go's `sort.Sort` algorithm is not reproduced; an insertion sort over the same `Less` and `Swap` stands in. Stability is not claimed. `ImportOrder.SortedUnique` shows the result is the same when paths are distinct.
- The `dotimport` and `noflags` testdata packages are not modelled from their files. `MainFlagsTests.TestDotImport` and `MainFlagsTests.TestNoFlags` build small packages that give the counts expected at mainflags_test.go:20-24 and 47-51.
- `run(&buf, pkgs)`, called at mainflags_test.go:71, is not defined in mainflags.go. `MainFlags.Run` models the body of `main` (mainflags.go:111-134) in its place. Its output is the problem list rather than text.

Where the code and its written description differ, the model follows the code:

- An import named `_` is not special: it makes flag visible as `_`.
- Packages named `main` are skipped before any of their files is looked at, dot-imports included.
- The walk stops at every call, reported or not. It does not stop only at reported calls.
- Problems come out in the walk's pre-order within a file, file after file, and package after package in sorted order. They are not re-sorted by position.
