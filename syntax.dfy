/**
 * An abstract syntax tree for the part of a parsed Rust file that the
 * classifiers look at. It follows the shape of the parser's tree (items,
 * signatures, generics, paths with generic arguments, bounds, types,
 * statements and expressions) but keeps only the nodes that some classifier
 * reacts to or descends through. Everything else in a file collapses into
 * `OtherItem`, `OtherExpr` and `Compound` nodes, which keep their children.
 */
module Syntax {
  import opened Wrappers

  // ---------------------------------------------------------------- types

  /** One argument between `<` and `>` in a path segment. */
  datatype GenericArg =
    | LifetimeArg                                 // 'a
    | TypeArg(ty: Type)                           // T
    | ConstArg                                    // 3 or { N } (the expression is not kept)
    | Binding(ident: string, ty: Type)            // Item = T
    | Constraint(ident: string, bounds: seq<Bound>) // Item: Display

  /** What follows the identifier of a path segment. */
  datatype PathArguments =
    | NoArguments
    | AngleBracketed(args: seq<GenericArg>)                  // Vec<T>
    | Parenthesized(inputs: seq<Type>, output: ReturnType)   // Fn(A, B) -> C

  datatype PathSegment = PathSegment(ident: string, arguments: PathArguments)

  datatype Path = Path(segments: seq<PathSegment>)

  /** One bound of a bound list (`Iterator<Item = u8> + 'a`). */
  datatype Bound =
    | TraitBound(path: Path)
    | LifetimeBound

  /** `-> T`, or nothing. */
  datatype ReturnType =
    | DefaultReturn
    | ReturnTy(ty: Type)

  datatype Type =
    | PathType(path: Path)                            // std::vec::Vec<T>
    | ImplTrait(bounds: seq<Bound>)                   // impl Iterator + 'a
    | TraitObject(bounds: seq<Bound>)                 // dyn Iterator + 'a
    | BareFn(inputs: seq<Type>, output: ReturnType)   // fn(A) -> B
    | Compound(elems: seq<Type>)                      // &T, [T], [T; N], (A, B), *const T, ...

  // ------------------------------------------------------------- generics

  datatype GenericParam =
    | TypeParam(ident: string, bounds: seq<Bound>, defaultTy: Option<Type>)  // T: Iterator = Empty
    | LifetimeParam                                   // 'a
    | ConstParam(ty: Type)                            // const N: usize

  datatype WherePredicate =
    | BoundPredicate(bounded: Type, bounds: seq<Bound>)  // T: Iterator + 'a
    | LifetimePredicate                                  // 'a: 'b

  datatype Generics = Generics(params: seq<GenericParam>, predicates: seq<WherePredicate>)

  // --------------------------------------------------------------- items

  datatype FnArg =
    | Receiver              // self, &self, &mut self
    | Typed(ty: Type)       // pattern: Type

  datatype Signature = Signature(
    ident: string,
    isAsync: bool,
    isUnsafe: bool,
    generics: Generics,
    inputs: seq<FnArg>,
    output: ReturnType)

  /** An item inside a trait or an impl block. */
  datatype AssocItem =
    | AssocType(ident: string, generics: Generics)             // type Item<'a>; / type Item = T;
    | AssocFn(sig: Signature, body: seq<Stmt>)                 // a method with a body (a default body in a trait)
    | AssocConst(ty: Type, init: Option<Expr>)                 // const N: T = e; (a trait may give no value)
    | AssocOther                                               // bodiless methods, macros

  datatype Item =
    | TraitDecl(ident: string, generics: Generics, supertraits: seq<Bound>, items: seq<AssocItem>)
    | ImplBlock(generics: Generics, trait_: Option<Path>, selfTy: Type, items: seq<AssocItem>)
    | FnDecl(sig: Signature, body: seq<Stmt>)                  // a free function
    | ModDecl(content: seq<Item>)                              // mod m { ... }
    | TypeDecl(generics: Generics, fields: seq<Type>)          // struct, enum, union, type alias
    | ConstDecl(ty: Type, init: Expr)                          // const, static
    | OtherItem                                                // use, extern crate, macros, ...

  // ----------------------------------------------- statements, expressions

  datatype Stmt =
    | Local(ty: Option<Type>, init: Option<Expr>)   // let p: T = e;
    | ItemStmt(item: Item)
    | ExprStmt(expr: Expr)

  datatype Expr =
    | UnsafeBlock(stmts: seq<Stmt>)                      // unsafe { ... }
    | AsyncBlock(stmts: seq<Stmt>)                       // async { ... }
    | Closure(inputs: seq<Type>, output: ReturnType, body: Expr)  // |x: T| -> R { ... }
    | Call(func: Expr, args: seq<Expr>)                  // f(a, b)
    | PathExpr(path: Path)                               // a::b::<T>
    | BlockExpr(stmts: seq<Stmt>)                        // { ... }, and the bodies of if, loop, match arms
    | OtherExpr(children: seq<Expr>, types: seq<Type>)   // every other expression, with its subexpressions
                                                         // and the types written in it (`e as T`, `x.f::<T>()`, `S::<T> { .. }`)

  datatype File = File(items: seq<Item>)

  // ------------------------------- shorthands for writing small examples

  const NoGenerics := Generics([], [])

  /** A one-segment path without arguments: `x`, `f`, `Iterator`. */
  function Name(ident: string): Path
  {
    Path([PathSegment(ident, NoArguments)])
  }

  /** The signature of `fn ident()` with no qualifiers, parameters or return type. */
  function PlainSig(ident: string): Signature
  {
    Signature(ident, false, false, NoGenerics, [], DefaultReturn)
  }

  /** A literal or any other expression without subexpressions or types. */
  const Literal := OtherExpr([], [])
}
