/**
 * The parsed Go program as the linter sees it: a small, closed stand-in for
 * the `go/ast` node kinds the check distinguishes, the import declarations of
 * a file, and a loaded package (`packages.Package`).
 */
module Syntax {

  datatype Option<T> = None | Some(value: T)

  /** An abstract source position (Go's `token.Pos`): an offset into the file set. */
  type Pos = nat

  /**
   * An expression or statement node. `Call` is `*ast.CallExpr` (its position
   * is the position of the call, `call.Pos()`), `Selector` is
   * `*ast.SelectorExpr` `x.sel`, `Ident` is `*ast.Ident`, and `Other` stands
   * for every other node kind, with its children in source order.
   */
  datatype Node =
    | Call(fun: Node, args: seq<Node>, pos: Pos)
    | Selector(x: Node, sel: string)
    | Ident(name: string)
    | Other(children: seq<Node>)

  /**
   * One import spec: the optional explicit name (`ff` in `import ff "flag"`),
   * the path exactly as written, quotes included, and its position.
   */
  datatype Import = Import(name: Option<string>, path: string, pos: Pos)

  /** A parsed file: its name, its imports in order, and its syntax tree. */
  datatype File = File(name: string, imports: seq<Import>, root: Node)

  /** A loaded package: declared name (`main` for a command), import path, parsed files. */
  datatype Package = Package(name: string, pkgPath: string, syntax: seq<File>)

  /** True when identifier `b` occurs anywhere in `n`. */
  predicate Mentions(n: Node, b: string)
    decreases n
  {
    match n
    case Call(fun, args, _) => Mentions(fun, b) || MentionsAny(args, b)
    case Selector(x, _) => Mentions(x, b)
    case Ident(name) => name == b
    case Other(children) => MentionsAny(children, b)
  }

  predicate MentionsAny(ns: seq<Node>, b: string)
    decreases ns
  {
    ns != [] && (Mentions(ns[0], b) || MentionsAny(ns[1..], b))
  }

  /** `n` with every identifier `a` renamed to `b` (what changing an import's name does to a file). */
  function Rename(n: Node, a: string, b: string): (r: Node)
    decreases n
  {
    match n
    case Call(fun, args, pos) => Call(Rename(fun, a, b), RenameAll(args, a, b), pos)
    case Selector(x, sel) => Selector(Rename(x, a, b), sel)
    case Ident(name) => Ident(if name == a then b else name)
    case Other(children) => Other(RenameAll(children, a, b))
  }

  function RenameAll(ns: seq<Node>, a: string, b: string): (r: seq<Node>)
    decreases ns
    ensures |r| == |ns|
  {
    if ns == [] then [] else [Rename(ns[0], a, b)] + RenameAll(ns[1..], a, b)
  }
}
