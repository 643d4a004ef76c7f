/**
 * The trait-usage classifier. It emits a row
 *   - for every trait declaration (TraitDef),
 *   - for every `impl Trait for Type` block (ImplFor),
 *   - for every trait bound of an `impl ...` type met in the type of a fn
 *     parameter or in a return type (TypeImpl), and likewise for `dyn ...`
 *     types (TypeDyn), tagged with that position,
 *   - for every trait bound of a `where` predicate (WhereClause).
 * Each row counts the generic arguments and associated-type bindings written
 * on the trait's path, and, for bound lists, how many of the list's bounds are
 * trait bounds and how many are lifetimes.
 *
 * The visitor walks the tree in two modes. In the base mode nothing but
 * declarations, impl blocks and where predicates give rows; a fn parameter
 * switches to the positional mode with position Argument, and any return type
 * (of a fn, a closure, a fn pointer or an `Fn(..) -> ..` bound) to the
 * positional mode with position Return. In the positional mode an `impl` or
 * `dyn` type gives its rows and is not entered further, and the position never
 * changes. The mode is the `position` argument of the row functions: None for
 * the base mode, Some(p) for the positional mode with position p.
 * Trait declarations and impl blocks are not entered at all.
 */
module Traits {
  import opened Wrappers
  import opened Syntax
  import Sink
  import opened Seqs

  datatype SyntaxType = TraitDef | ImplFor | TypeImpl | TypeDyn | WhereClause

  datatype PositionType = Argument | Return

  /** A row of the traits table (without the file, line and version columns). */
  datatype Row = Row(
    syntax: SyntaxType,
    position: Option<PositionType>,
    genericCount: nat,
    atCount: nat,
    gatCount: Option<nat>,
    traitName: string,
    traitBoundsCount: nat,
    lifetimeBoundsCount: nat)

  // -------------------------------------------- the trait-path counter

  /** Type arguments and associated-type bindings written on a path. */
  datatype Counts = Counts(generic: nat, at: nat)

  function AddCounts(a: Counts, b: Counts): Counts
  {
    Counts(a.generic + b.generic, a.at + b.at)
  }

  /** A type argument counts as a generic, a binding `Item = T` as an associated type; the rest count for nothing. */
  function ArgCounts(arg: GenericArg): Counts
  {
    match arg
    case LifetimeArg => Counts(0, 0)
    case TypeArg(_) => Counts(1, 0)
    case ConstArg => Counts(0, 0)
    case Binding(_, _) => Counts(0, 1)
    case Constraint(_, _) => Counts(0, 0)
  }

  function GenericArgsCounts(args: seq<GenericArg>): Counts
  {
    if args == [] then Counts(0, 0) else AddCounts(GenericArgsCounts(args[..|args| - 1]), ArgCounts(args[|args| - 1]))
  }

  /** `Fn(A, B) -> C` counts its inputs as generics and its output, if any, as one associated type. */
  function ArgumentsCounts(arguments: PathArguments): Counts
  {
    match arguments
    case NoArguments => Counts(0, 0)
    case AngleBracketed(args) => GenericArgsCounts(args)
    case Parenthesized(inputs, output) => Counts(|inputs|, if output.ReturnTy? then 1 else 0)
  }

  function SegmentsCounts(segs: seq<PathSegment>): Counts
  {
    if segs == [] then Counts(0, 0)
    else AddCounts(SegmentsCounts(segs[..|segs| - 1]), ArgumentsCounts(segs[|segs| - 1].arguments))
  }

  /** The counts over every segment of the path, not only the last. */
  function PathCounts(path: Path): Counts
  {
    SegmentsCounts(path.segments)
  }

  // ------------------------------------------------- rows for one path

  /**
   * The row for a trait path: none when the path has no segment; otherwise
   * one, named by the last segment, with the path's counts (the associated
   * types declared in an impl block added through `baseAt`).
   */
  function TraitPathRows(path: Path, syntax: SyntaxType, position: Option<PositionType>, baseAt: nat,
                         gat: Option<nat>, traitBounds: nat, lifetimeBounds: nat): seq<Row>
  {
    if |path.segments| == 0 then []
    else
      var counts := PathCounts(path);
      [Row(syntax, position, counts.generic, counts.at + baseAt, gat,
           path.segments[|path.segments| - 1].ident, traitBounds, lifetimeBounds)]
  }

  /** A trait bound gives the row of its path; a lifetime bound gives none. */
  function BoundRow(b: Bound, syntax: SyntaxType, position: Option<PositionType>,
                    traitBounds: nat, lifetimeBounds: nat): seq<Row>
  {
    match b
    case TraitBound(path) => TraitPathRows(path, syntax, position, 0, None, traitBounds, lifetimeBounds)
    case LifetimeBound => []
  }

  function BoundsEach(bs: seq<Bound>, syntax: SyntaxType, position: Option<PositionType>,
                      traitBounds: nat, lifetimeBounds: nat): seq<Row>
  {
    if bs == [] then []
    else BoundsEach(bs[..|bs| - 1], syntax, position, traitBounds, lifetimeBounds)
         + BoundRow(bs[|bs| - 1], syntax, position, traitBounds, lifetimeBounds)
  }

  /** The rows of the first `n` bounds, indexed rather than sliced (the loop's measure). */
  function FirstBoundsEach(bs: seq<Bound>, n: nat, syntax: SyntaxType, position: Option<PositionType>,
                           traitBounds: nat, lifetimeBounds: nat): seq<Row>
    requires n <= |bs|
  {
    if n == 0 then []
    else FirstBoundsEach(bs, n - 1, syntax, position, traitBounds, lifetimeBounds)
         + BoundRow(bs[n - 1], syntax, position, traitBounds, lifetimeBounds)
  }

  lemma {:induction false} FirstBoundsEachAll(bs: seq<Bound>, n: nat, syntax: SyntaxType, position: Option<PositionType>,
                                              traitBounds: nat, lifetimeBounds: nat)
    requires n <= |bs|
    ensures FirstBoundsEach(bs, n, syntax, position, traitBounds, lifetimeBounds)
            == BoundsEach(bs[..n], syntax, position, traitBounds, lifetimeBounds)
  {
    if n > 0 {
      FirstBoundsEachAll(bs, n - 1, syntax, position, traitBounds, lifetimeBounds);
      assert bs[..n][..n - 1] == bs[..n - 1];
    }
  }

  predicate IsTraitBound(b: Bound) { b.TraitBound? }

  /** A trait bound that has a path to name a row after. */
  predicate IsNamedTraitBound(b: Bound) { b.TraitBound? && |b.path.segments| > 0 }

  /** The rows of a bound list: one per trait bound, each carrying how many trait and lifetime bounds the list has. */
  function BoundListRows(bs: seq<Bound>, syntax: SyntaxType, position: Option<PositionType>): seq<Row>
  {
    var traitBounds := Count(bs, IsTraitBound);
    BoundsEach(bs, syntax, position, traitBounds, |bs| - traitBounds)
  }

  // ------------------------------------------------ rows for types

  function TypeRows(t: Type, position: Option<PositionType>): seq<Row>
  {
    match t
    case PathType(path) => PathRows(path, position)
    case ImplTrait(bs) => if position.Some? then BoundListRows(bs, TypeImpl, position) else BoundsRows(bs, position)
    case TraitObject(bs) => if position.Some? then BoundListRows(bs, TypeDyn, position) else BoundsRows(bs, position)
    case BareFn(inputs, output) => TypesRows(inputs, position) + ReturnRows(output, position)
    case Compound(elems) => TypesRows(elems, position)
  }

  function TypesRows(ts: seq<Type>, position: Option<PositionType>): seq<Row>
  {
    if ts == [] then [] else TypesRows(ts[..|ts| - 1], position) + TypeRows(ts[|ts| - 1], position)
  }

  /** The position under which the type of a return type is visited. */
  function ReturnPosition(position: Option<PositionType>): Option<PositionType>
  {
    if position.None? then Some(Return) else position
  }

  function ReturnRows(r: ReturnType, position: Option<PositionType>): seq<Row>
  {
    match r
    case DefaultReturn => []
    case ReturnTy(ty) => TypeRows(ty, ReturnPosition(position))
  }

  function PathRows(path: Path, position: Option<PositionType>): seq<Row>
  {
    SegmentsRows(path.segments, position)
  }

  function SegmentsRows(segs: seq<PathSegment>, position: Option<PositionType>): seq<Row>
  {
    if segs == [] then []
    else SegmentsRows(segs[..|segs| - 1], position) + ArgumentsRows(segs[|segs| - 1].arguments, position)
  }

  function ArgumentsRows(arguments: PathArguments, position: Option<PositionType>): seq<Row>
  {
    match arguments
    case NoArguments => []
    case AngleBracketed(args) => GenericArgsRows(args, position)
    case Parenthesized(inputs, output) => TypesRows(inputs, position) + ReturnRows(output, position)
  }

  function GenericArgRows(arg: GenericArg, position: Option<PositionType>): seq<Row>
  {
    match arg
    case LifetimeArg => []
    case TypeArg(ty) => TypeRows(ty, position)
    case ConstArg => []
    case Binding(_, ty) => TypeRows(ty, position)
    case Constraint(_, bs) => BoundsRows(bs, position)
  }

  function GenericArgsRows(args: seq<GenericArg>, position: Option<PositionType>): seq<Row>
  {
    if args == [] then [] else GenericArgsRows(args[..|args| - 1], position) + GenericArgRows(args[|args| - 1], position)
  }

  /** Entering a bound (outside the bound list of a positional `impl`/`dyn` type) gives only what its path holds. */
  function BoundRows(b: Bound, position: Option<PositionType>): seq<Row>
  {
    match b
    case TraitBound(path) => PathRows(path, position)
    case LifetimeBound => []
  }

  function BoundsRows(bs: seq<Bound>, position: Option<PositionType>): seq<Row>
  {
    if bs == [] then [] else BoundsRows(bs[..|bs| - 1], position) + BoundRows(bs[|bs| - 1], position)
  }

  // ---------------------------------- rows for the base-mode constructs

  function GenericParamRows(p: GenericParam): seq<Row>
  {
    match p
    case TypeParam(_, bs, defaultTy) => BoundsRows(bs, None) + (if defaultTy.Some? then TypeRows(defaultTy.value, None) else [])
    case LifetimeParam => []
    case ConstParam(ty) => TypeRows(ty, None)
  }

  function GenericParamsRows(ps: seq<GenericParam>): seq<Row>
  {
    if ps == [] then [] else GenericParamsRows(ps[..|ps| - 1]) + GenericParamRows(ps[|ps| - 1])
  }

  /** A `where` predicate gives the rows of its bound list; the bounded type is not entered. */
  function PredicateRows(w: WherePredicate): seq<Row>
  {
    match w
    case BoundPredicate(_, bs) => BoundListRows(bs, WhereClause, None)
    case LifetimePredicate => []
  }

  function PredicatesRows(ws: seq<WherePredicate>): seq<Row>
  {
    if ws == [] then [] else PredicatesRows(ws[..|ws| - 1]) + PredicateRows(ws[|ws| - 1])
  }

  function GenericsRows(g: Generics): seq<Row>
  {
    GenericParamsRows(g.params) + PredicatesRows(g.predicates)
  }

  function FnArgRows(a: FnArg): seq<Row>
  {
    match a
    case Receiver => []
    case Typed(ty) => TypeRows(ty, Some(Argument))
  }

  function FnArgsRows(args: seq<FnArg>): seq<Row>
  {
    if args == [] then [] else FnArgsRows(args[..|args| - 1]) + FnArgRows(args[|args| - 1])
  }

  function SignatureRows(sig: Signature): seq<Row>
  {
    GenericsRows(sig.generics) + FnArgsRows(sig.inputs) + ReturnRows(sig.output, None)
  }

  predicate IsAssocType(a: AssocItem) { a.AssocType? }

  /** An associated type with generic parameters of its own (lifetimes included). */
  predicate IsGenericAssocType(a: AssocItem) { a.AssocType? && |a.generics.params| > 0 }

  predicate IsTypeParam(p: GenericParam) { p.TypeParam? }

  function ItemRows(item: Item): seq<Row>
  {
    match item
    case TraitDecl(ident, generics, _, items) =>
      [Row(TraitDef, None, Count(generics.params, IsTypeParam), Count(items, IsAssocType),
           Some(Count(items, IsGenericAssocType)), ident, 0, 0)]
    case ImplBlock(_, trait_, _, items) =>
      if trait_.None? then []
      else TraitPathRows(trait_.value, ImplFor, None, Count(items, IsAssocType),
                         Some(Count(items, IsGenericAssocType)), 0, 0)
    case FnDecl(sig, body) => SignatureRows(sig) + StmtsRows(body)
    case ModDecl(content) => ItemsRows(content)
    case TypeDecl(generics, fields) => GenericsRows(generics) + TypesRows(fields, None)
    case ConstDecl(ty, init) => TypeRows(ty, None) + ExprRows(init)
    case OtherItem => []
  }

  function ItemsRows(items: seq<Item>): seq<Row>
  {
    if items == [] then [] else ItemsRows(items[..|items| - 1]) + ItemRows(items[|items| - 1])
  }

  function StmtRows(s: Stmt): seq<Row>
  {
    match s
    case Local(ty, init) =>
      (if ty.Some? then TypeRows(ty.value, None) else []) + (if init.Some? then ExprRows(init.value) else [])
    case ItemStmt(item) => ItemRows(item)
    case ExprStmt(e) => ExprRows(e)
  }

  function StmtsRows(ss: seq<Stmt>): seq<Row>
  {
    if ss == [] then [] else StmtsRows(ss[..|ss| - 1]) + StmtRows(ss[|ss| - 1])
  }

  function ExprRows(e: Expr): seq<Row>
  {
    match e
    case UnsafeBlock(ss) => StmtsRows(ss)
    case AsyncBlock(ss) => StmtsRows(ss)
    case Closure(inputs, output, body) => TypesRows(inputs, None) + ReturnRows(output, None) + ExprRows(body)
    case Call(func, args) => ExprRows(func) + ExprsRows(args)
    case PathExpr(path) => PathRows(path, None)
    case BlockExpr(ss) => StmtsRows(ss)
    case OtherExpr(cs, ts) => ExprsRows(cs) + TypesRows(ts, None)
  }

  function ExprsRows(es: seq<Expr>): seq<Row>
  {
    if es == [] then [] else ExprsRows(es[..|es| - 1]) + ExprRows(es[|es| - 1])
  }

  function FileRows(file: File): seq<Row>
  {
    ItemsRows(file.items)
  }

  // ------------------------------------------------- shape of the rows

  /**
   * What every row satisfies: exactly the TypeImpl and TypeDyn rows carry a
   * position; exactly the TraitDef and ImplFor rows carry a count of generic
   * associated types, never more than their associated types, and report no
   * bound list; every other row comes from a bound list with a trait bound.
   */
  predicate WellShaped(r: Row)
  {
    && (r.position.Some? <==> r.syntax == TypeImpl || r.syntax == TypeDyn)
    && (r.gatCount.Some? <==> r.syntax == TraitDef || r.syntax == ImplFor)
    && (r.gatCount.Some? ==> r.gatCount.value <= r.atCount && r.traitBoundsCount == 0 && r.lifetimeBoundsCount == 0)
    && (r.gatCount.None? ==> 0 < r.traitBoundsCount)
  }

  /** Every row is well shaped, and in the positional mode carries the mode's position. */
  predicate RowsFit(rs: seq<Row>, position: Option<PositionType>)
  {
    forall r <- rs :: WellShaped(r) && (position.Some? ==> r.position == position)
  }

  lemma {:induction false} BoundsEachFacts(bs: seq<Bound>, syntax: SyntaxType, position: Option<PositionType>,
                                           traitBounds: nat, lifetimeBounds: nat)
    ensures var rs := BoundsEach(bs, syntax, position, traitBounds, lifetimeBounds);
      && |rs| == Count(bs, IsNamedTraitBound)
      && forall r <- rs :: r.syntax == syntax && r.position == position && r.gatCount.None?
           && r.traitBoundsCount == traitBounds && r.lifetimeBoundsCount == lifetimeBounds
    decreases |bs|
  {
    if bs != [] {
      BoundsEachFacts(bs[..|bs| - 1], syntax, position, traitBounds, lifetimeBounds);
    }
  }

  /**
   * A bound list gives one row per trait bound that has a path, each with the
   * list's syntax and position, no gat count, and the list's trait and
   * lifetime bound counts, which add up to the length of the list.
   */
  lemma BoundListFacts(bs: seq<Bound>, syntax: SyntaxType, position: Option<PositionType>)
    ensures var rs := BoundListRows(bs, syntax, position);
      && |rs| == Count(bs, IsNamedTraitBound) <= Count(bs, IsTraitBound)
      && forall r <- rs :: r.syntax == syntax && r.position == position && r.gatCount.None?
           && r.traitBoundsCount == Count(bs, IsTraitBound) > 0
           && r.traitBoundsCount + r.lifetimeBoundsCount == |bs|
  {
    var traitBounds := Count(bs, IsTraitBound);
    BoundsEachFacts(bs, syntax, position, traitBounds, |bs| - traitBounds);
    CountMono(bs, IsNamedTraitBound, IsTraitBound);
  }

  /** Rows of a bound list, entered in the positional mode, fit that mode. */
  lemma PositionalBoundListFits(bs: seq<Bound>, syntax: SyntaxType, p: PositionType)
    requires syntax == TypeImpl || syntax == TypeDyn
    ensures RowsFit(BoundListRows(bs, syntax, Some(p)), Some(p))
  {
    BoundListFacts(bs, syntax, Some(p));
  }

  lemma FitsAppend(a: seq<Row>, b: seq<Row>, position: Option<PositionType>)
    requires RowsFit(a, position) && RowsFit(b, position)
    ensures RowsFit(a + b, position)
  {
  }

  lemma {:induction false} TypeFits(t: Type, position: Option<PositionType>)
    ensures RowsFit(TypeRows(t, position), position)
    decreases t
  {
    match t
    case PathType(path) => PathFits(path, position);
    case ImplTrait(bs) =>
      if position.Some? { PositionalBoundListFits(bs, TypeImpl, position.value); } else { BoundsFit(bs, position); }
    case TraitObject(bs) =>
      if position.Some? { PositionalBoundListFits(bs, TypeDyn, position.value); } else { BoundsFit(bs, position); }
    case BareFn(inputs, output) =>
      TypesFit(inputs, position);
      ReturnFits(output, position);
    case Compound(elems) => TypesFit(elems, position);
  }

  lemma {:induction false} TypesFit(ts: seq<Type>, position: Option<PositionType>)
    ensures RowsFit(TypesRows(ts, position), position)
    decreases ts
  {
    if ts != [] {
      TypesFit(ts[..|ts| - 1], position);
      TypeFits(ts[|ts| - 1], position);
    }
  }

  /** A return type's rows carry position Return when met in the base mode, and the current position otherwise. */
  lemma {:induction false} ReturnFits(r: ReturnType, position: Option<PositionType>)
    ensures RowsFit(ReturnRows(r, position), ReturnPosition(position))
    ensures RowsFit(ReturnRows(r, position), position)
    decreases r
  {
    if r.ReturnTy? {
      TypeFits(r.ty, ReturnPosition(position));
    }
  }

  lemma {:induction false} PathFits(path: Path, position: Option<PositionType>)
    ensures RowsFit(PathRows(path, position), position)
    decreases path
  {
    SegmentsFit(path.segments, position);
  }

  lemma {:induction false} SegmentsFit(segs: seq<PathSegment>, position: Option<PositionType>)
    ensures RowsFit(SegmentsRows(segs, position), position)
    decreases segs
  {
    if segs != [] {
      SegmentsFit(segs[..|segs| - 1], position);
      ArgumentsFit(segs[|segs| - 1].arguments, position);
    }
  }

  lemma {:induction false} ArgumentsFit(arguments: PathArguments, position: Option<PositionType>)
    ensures RowsFit(ArgumentsRows(arguments, position), position)
    decreases arguments
  {
    match arguments
    case NoArguments =>
    case AngleBracketed(args) => GenericArgsFit(args, position);
    case Parenthesized(inputs, output) =>
      TypesFit(inputs, position);
      ReturnFits(output, position);
  }

  lemma {:induction false} GenericArgFits(arg: GenericArg, position: Option<PositionType>)
    ensures RowsFit(GenericArgRows(arg, position), position)
    decreases arg
  {
    match arg
    case LifetimeArg =>
    case TypeArg(ty) => TypeFits(ty, position);
    case ConstArg =>
    case Binding(_, ty) => TypeFits(ty, position);
    case Constraint(_, bs) => BoundsFit(bs, position);
  }

  lemma {:induction false} GenericArgsFit(args: seq<GenericArg>, position: Option<PositionType>)
    ensures RowsFit(GenericArgsRows(args, position), position)
    decreases args
  {
    if args != [] {
      GenericArgsFit(args[..|args| - 1], position);
      GenericArgFits(args[|args| - 1], position);
    }
  }

  lemma {:induction false} BoundFits(b: Bound, position: Option<PositionType>)
    ensures RowsFit(BoundRows(b, position), position)
    decreases b
  {
    if b.TraitBound? {
      PathFits(b.path, position);
    }
  }

  lemma {:induction false} BoundsFit(bs: seq<Bound>, position: Option<PositionType>)
    ensures RowsFit(BoundsRows(bs, position), position)
    decreases bs
  {
    if bs != [] {
      BoundsFit(bs[..|bs| - 1], position);
      BoundFits(bs[|bs| - 1], position);
    }
  }

  /** In the positional mode every row is a TypeImpl or TypeDyn row with the mode's position. */
  lemma PositionalRows(t: Type, p: PositionType)
    ensures forall r <- TypeRows(t, Some(p)) :: r.position == Some(p) && (r.syntax == TypeImpl || r.syntax == TypeDyn)
  {
    TypeFits(t, Some(p));
  }

  /** The type of a fn parameter gives only Argument rows. */
  lemma FnArgRowsAreArguments(a: FnArg)
    ensures forall r <- FnArgRows(a) :: r.position == Some(Argument) && (r.syntax == TypeImpl || r.syntax == TypeDyn)
  {
    if a.Typed? {
      TypeFits(a.ty, Some(Argument));
    }
  }

  /** A return type met in the base mode gives only Return rows. */
  lemma ReturnRowsAreReturns(r: ReturnType)
    ensures forall row <- ReturnRows(r, None) :: row.position == Some(Return) && (row.syntax == TypeImpl || row.syntax == TypeDyn)
  {
    ReturnFits(r, None);
  }

  lemma {:induction false} FnArgsFit(args: seq<FnArg>)
    ensures RowsFit(FnArgsRows(args), Some(Argument))
    decreases args
  {
    if args != [] {
      FnArgsFit(args[..|args| - 1]);
      if args[|args| - 1].Typed? {
        TypeFits(args[|args| - 1].ty, Some(Argument));
      }
    }
  }

  lemma {:induction false} GenericParamsFit(ps: seq<GenericParam>)
    ensures RowsFit(GenericParamsRows(ps), None)
    decreases ps
  {
    if ps != [] {
      GenericParamsFit(ps[..|ps| - 1]);
      match ps[|ps| - 1]
      case TypeParam(_, bs, defaultTy) =>
        BoundsFit(bs, None);
        if defaultTy.Some? { TypeFits(defaultTy.value, None); }
      case LifetimeParam =>
      case ConstParam(ty) => TypeFits(ty, None);
    }
  }

  /** A `where` predicate gives WhereClause rows without a position, one per trait bound, whatever type it bounds. */
  lemma PredicateFacts(bounded: Type, other: Type, bs: seq<Bound>)
    ensures var rs := PredicateRows(BoundPredicate(bounded, bs));
      && rs == PredicateRows(BoundPredicate(other, bs))
      && |rs| == Count(bs, IsNamedTraitBound)
      && RowsFit(rs, None)
      && forall r <- rs :: r.syntax == WhereClause && r.position.None?
  {
    BoundListFacts(bs, WhereClause, None);
  }

  lemma {:induction false} PredicatesFit(ws: seq<WherePredicate>)
    ensures RowsFit(PredicatesRows(ws), None)
    decreases ws
  {
    if ws != [] {
      PredicatesFit(ws[..|ws| - 1]);
      if ws[|ws| - 1].BoundPredicate? {
        BoundListFacts(ws[|ws| - 1].bounds, WhereClause, None);
      }
    }
  }

  lemma SignatureFits(sig: Signature)
    ensures RowsFit(SignatureRows(sig), None)
  {
    GenericParamsFit(sig.generics.params);
    PredicatesFit(sig.generics.predicates);
    FnArgsFit(sig.inputs);
    ReturnFits(sig.output, None);
  }

  /**
   * A trait declaration gives exactly one row, whatever its supertraits and
   * items hold: its type parameters, its associated types and, among those,
   * the ones with generic parameters of their own.
   */
  lemma TraitDefRow(ident: string, generics: Generics, supertraits: seq<Bound>, items: seq<AssocItem>)
    ensures var rs := ItemRows(TraitDecl(ident, generics, supertraits, items));
      && |rs| == 1 && WellShaped(rs[0])
      && rs[0].syntax == TraitDef && rs[0].traitName == ident
      && rs[0].genericCount == Count(generics.params, IsTypeParam) <= |generics.params|
      && rs[0].atCount == Count(items, IsAssocType) <= |items|
      && rs[0].gatCount == Some(Count(items, IsGenericAssocType))
  {
    CountMono(items, IsGenericAssocType, IsAssocType);
  }

  /**
   * An impl block gives no row when it implements no trait or the trait path
   * is empty; otherwise exactly one, named by the last segment of the trait
   * path, whose associated-type count adds the block's associated types to
   * the bindings written on the path.
   */
  lemma ImplForRow(generics: Generics, trait_: Option<Path>, selfTy: Type, items: seq<AssocItem>)
    ensures var rs := ItemRows(ImplBlock(generics, trait_, selfTy, items));
      && (trait_.None? ==> rs == [])
      && (trait_.Some? ==> |rs| == (if |trait_.value.segments| == 0 then 0 else 1))
      && forall r <- rs ::
           && WellShaped(r) && r.syntax == ImplFor && r.position.None?
           && r.traitName == trait_.value.segments[|trait_.value.segments| - 1].ident
           && r.genericCount == PathCounts(trait_.value).generic
           && r.atCount == PathCounts(trait_.value).at + Count(items, IsAssocType)
           && r.gatCount == Some(Count(items, IsGenericAssocType))
  {
    CountMono(items, IsGenericAssocType, IsAssocType);
  }

  lemma {:induction false} ExprFits(e: Expr)
    ensures RowsFit(ExprRows(e), None)
    decreases e
  {
    match e
    case UnsafeBlock(ss) => StmtsFit(ss);
    case AsyncBlock(ss) => StmtsFit(ss);
    case Closure(inputs, output, body) =>
      TypesFit(inputs, None);
      ReturnFits(output, None);
      ExprFits(body);
    case Call(func, args) =>
      ExprFits(func);
      ExprsFit(args);
    case PathExpr(path) => PathFits(path, None);
    case BlockExpr(ss) => StmtsFit(ss);
    case OtherExpr(cs, ts) =>
      ExprsFit(cs);
      TypesFit(ts, None);
  }

  lemma {:induction false} ExprsFit(es: seq<Expr>)
    ensures RowsFit(ExprsRows(es), None)
    decreases es
  {
    if es != [] {
      ExprsFit(es[..|es| - 1]);
      ExprFits(es[|es| - 1]);
    }
  }

  lemma {:induction false} StmtFits(s: Stmt)
    ensures RowsFit(StmtRows(s), None)
    decreases s
  {
    match s
    case Local(ty, init) =>
      if ty.Some? { TypeFits(ty.value, None); }
      if init.Some? { ExprFits(init.value); }
    case ItemStmt(item) => ItemFits(item);
    case ExprStmt(e) => ExprFits(e);
  }

  lemma {:induction false} StmtsFit(ss: seq<Stmt>)
    ensures RowsFit(StmtsRows(ss), None)
    decreases ss
  {
    if ss != [] {
      StmtsFit(ss[..|ss| - 1]);
      StmtFits(ss[|ss| - 1]);
    }
  }

  lemma {:induction false} ItemFits(item: Item)
    ensures RowsFit(ItemRows(item), None)
    decreases item
  {
    match item
    case TraitDecl(ident, generics, supertraits, items) => TraitDefRow(ident, generics, supertraits, items);
    case ImplBlock(generics, trait_, selfTy, items) => ImplForRow(generics, trait_, selfTy, items);
    case FnDecl(sig, body) =>
      SignatureFits(sig);
      StmtsFit(body);
    case ModDecl(content) => ItemsFit(content);
    case TypeDecl(generics, fields) =>
      GenericParamsFit(generics.params);
      PredicatesFit(generics.predicates);
      TypesFit(fields, None);
    case ConstDecl(ty, init) =>
      TypeFits(ty, None);
      ExprFits(init);
    case OtherItem =>
  }

  lemma {:induction false} ItemsFit(items: seq<Item>)
    ensures RowsFit(ItemsRows(items), None)
    decreases items
  {
    if items != [] {
      ItemsFit(items[..|items| - 1]);
      ItemFits(items[|items| - 1]);
    }
  }

  /** No position leaks: over a whole file, every row is well shaped. */
  lemma FileRowsWellShaped(file: File)
    ensures forall r <- FileRows(file) :: WellShaped(r)
  {
    ItemsFit(file.items);
  }

  /** In the positional mode an `impl` type gives one row per named trait bound and nothing for what its bounds hold. */
  lemma PositionalImplNotEntered(bs: seq<Bound>, p: PositionType)
    ensures |TypeRows(ImplTrait(bs), Some(p))| == Count(bs, IsNamedTraitBound)
    ensures |TypeRows(TraitObject(bs), Some(p))| == Count(bs, IsNamedTraitBound)
  {
    BoundListFacts(bs, TypeImpl, Some(p));
    BoundListFacts(bs, TypeDyn, Some(p));
  }

  // ----------------------------------------------------------- examples
  // The leaf types of the examples are parameters: whatever they are, the
  // rows stay the same, because the bound lists that give the rows are not
  // entered.

  // One-element lists, unfolded once.

  lemma OneSegmentRows(seg: PathSegment, position: Option<PositionType>)
    ensures SegmentsRows([seg], position) == ArgumentsRows(seg.arguments, position)
  {
    assert [seg][..0] == [];
  }

  lemma OneArgRows(arg: GenericArg, position: Option<PositionType>)
    ensures GenericArgsRows([arg], position) == GenericArgRows(arg, position)
  {
    assert [arg][..0] == [];
  }

  lemma OneArgCounts(arg: GenericArg)
    ensures GenericArgsCounts([arg]) == ArgCounts(arg)
  {
    assert [arg][..0] == [];
  }

  lemma LoneBindingCounts(arg: GenericArg)
    requires arg.Binding?
    ensures GenericArgsCounts([arg]) == Counts(0, 1)
  {
    OneArgCounts(arg);
  }

  lemma OneSegmentCounts(seg: PathSegment)
    ensures SegmentsCounts([seg]) == ArgumentsCounts(seg.arguments)
  {
    assert [seg][..0] == [];
  }

  lemma OneBound(b: Bound, syntax: SyntaxType, position: Option<PositionType>)
    ensures BoundListRows([b], syntax, position)
      == BoundRow(b, syntax, position, if b.TraitBound? then 1 else 0, if b.TraitBound? then 0 else 1)
  {
    var bs := [b];
    assert bs[..0] == [];
    CountSingle(b, IsTraitBound);
    var tb := Count(bs, IsTraitBound);
    assert BoundsEach(bs, syntax, position, tb, 1 - tb)
      == BoundsEach([], syntax, position, tb, 1 - tb) + BoundRow(b, syntax, position, tb, 1 - tb);
  }

  /** A lone trait bound gives one row, named by its last segment and counting one trait bound. */
  lemma LoneTraitBound(p: Path, syntax: SyntaxType, position: Option<PositionType>)
    requires |p.segments| > 0
    ensures BoundListRows([TraitBound(p)], syntax, position)
      == [Row(syntax, position, PathCounts(p).generic, PathCounts(p).at, None, p.segments[|p.segments| - 1].ident, 1, 0)]
  {
    OneBound(TraitBound(p), syntax, position);
  }

  lemma OneFnArg(a: FnArg)
    ensures FnArgsRows([a]) == FnArgRows(a)
  {
    assert [a][..0] == [];
  }

  /** The rows of `fn f(x: t) { body }` with no generics and no return type. */
  lemma OneArgFn(sig: Signature, t: Type, body: seq<Stmt>)
    requires sig.generics == NoGenerics && sig.output == DefaultReturn && StmtsRows(body) == []
    ensures ItemRows(FnDecl(sig.(inputs := [Typed(t)]), body)) == TypeRows(t, Some(Argument))
  {
    OneFnArg(Typed(t));
  }

  /** `Iterator<Item = item>` */
  function IteratorOf(item: Type): Path
  {
    Path([PathSegment("Iterator", AngleBracketed([Binding("Item", item)]))])
  }

  /** The row every `Iterator<Item = ...>` bound gives, alone in its list. */
  function IteratorRow(syntax: SyntaxType, position: Option<PositionType>): Row
  {
    Row(syntax, position, 0, 1, None, "Iterator", 1, 0)
  }

  /** The binding `Item = item` counts as one associated type and no generic. */
  lemma IteratorCounts(item: Type)
    ensures PathCounts(IteratorOf(item)) == Counts(0, 1)
  {
    LoneBindingCounts(Binding("Item", item));
    OneSegmentCounts(PathSegment("Iterator", AngleBracketed([Binding("Item", item)])));
  }

  /** The bound list `Iterator<Item = item>` in a positional `impl` or `dyn` type, or in a where predicate. */
  lemma IteratorBoundList(item: Type, syntax: SyntaxType, position: Option<PositionType>)
    ensures BoundListRows([TraitBound(IteratorOf(item))], syntax, position) == [IteratorRow(syntax, position)]
  {
    IteratorCounts(item);
    LoneTraitBound(IteratorOf(item), syntax, position);
  }

  /** `impl Iterator for Mock { type Item = item; fn next(&mut self) -> ... { ... } }` */
  lemma ImplForIterator(selfTy: Type, next: Signature, body: seq<Stmt>)
    ensures ItemRows(ImplBlock(NoGenerics, Some(Path([PathSegment("Iterator", NoArguments)])), selfTy,
              [AssocType("Item", NoGenerics), AssocFn(next, body)]))
      == [Row(ImplFor, None, 0, 1, Some(0), "Iterator", 0, 0)]
  {
    var items := [AssocType("Item", NoGenerics), AssocFn(next, body)];
    assert items[..1] == [items[0]];
    CountSingle(items[0], IsAssocType);
    CountSingle(items[0], IsGenericAssocType);
    assert Count(items, IsAssocType) == 1;
    assert Count(items, IsGenericAssocType) == 0;
    OneSegmentCounts(PathSegment("Iterator", NoArguments));
  }

  /** `fn f(x: impl Iterator<Item = item>) { ... }` */
  lemma IteratorArg(item: Type, sig: Signature, body: seq<Stmt>)
    requires sig.generics == NoGenerics && sig.output == DefaultReturn && StmtsRows(body) == []
    ensures ItemRows(FnDecl(sig.(inputs := [Typed(ImplTrait([TraitBound(IteratorOf(item))]))]), body))
      == [IteratorRow(TypeImpl, Some(Argument))]
  {
    IteratorBoundList(item, TypeImpl, Some(Argument));
    OneArgFn(sig, ImplTrait([TraitBound(IteratorOf(item))]), body);
  }

  /** `fn f() -> impl Iterator<Item = item> { ... }` */
  lemma IteratorRet(item: Type, sig: Signature, body: seq<Stmt>)
    requires sig.generics == NoGenerics && sig.inputs == [] && StmtsRows(body) == []
    ensures ItemRows(FnDecl(sig.(output := ReturnTy(ImplTrait([TraitBound(IteratorOf(item))]))), body))
      == [IteratorRow(TypeImpl, Some(Return))]
  {
    IteratorBoundList(item, TypeImpl, Some(Return));
    var sig' := sig.(output := ReturnTy(ImplTrait([TraitBound(IteratorOf(item))])));
    assert GenericsRows(sig'.generics) == [];
    assert FnArgsRows(sig'.inputs) == [];
    assert ReturnRows(sig'.output, None) == [IteratorRow(TypeImpl, Some(Return))];
  }

  /** `name<t>`: a path with one type argument has the rows of that argument. */
  lemma WrapperRows(name: string, t: Type, position: Option<PositionType>)
    ensures PathRows(Path([PathSegment(name, AngleBracketed([TypeArg(t)]))]), position) == TypeRows(t, position)
  {
    OneArgRows(TypeArg(t), position);
    OneSegmentRows(PathSegment(name, AngleBracketed([TypeArg(t)])), position);
  }

  /** `fn f(x: Box<dyn Iterator<Item = item>>) { ... }` */
  lemma DynIteratorArg(item: Type, sig: Signature, body: seq<Stmt>)
    requires sig.generics == NoGenerics && sig.output == DefaultReturn && StmtsRows(body) == []
    ensures ItemRows(FnDecl(sig.(inputs :=
              [Typed(PathType(Path([PathSegment("Box", AngleBracketed([TypeArg(TraitObject([TraitBound(IteratorOf(item))]))]))])))]), body))
      == [IteratorRow(TypeDyn, Some(Argument))]
  {
    IteratorBoundList(item, TypeDyn, Some(Argument));
    WrapperRows("Box", TraitObject([TraitBound(IteratorOf(item))]), Some(Argument));
    OneArgFn(sig, PathType(Path([PathSegment("Box", AngleBracketed([TypeArg(TraitObject([TraitBound(IteratorOf(item))]))]))])), body);
  }

  /** A path whose arguments are all types counts each of them as a generic. */
  lemma {:induction false} AllTypeArgsCount(args: seq<GenericArg>)
    requires forall i :: 0 <= i < |args| ==> args[i].TypeArg?
    ensures GenericArgsCounts(args) == Counts(|args|, 0)
    decreases |args|
  {
    if args != [] {
      AllTypeArgsCount(args[..|args| - 1]);
    }
  }

  /** `Mock<a, b, c>` */
  function MockOf(a: Type, b: Type, c: Type): Path
  {
    Path([PathSegment("Mock", AngleBracketed([TypeArg(a), TypeArg(b), TypeArg(c)]))])
  }

  lemma MockCounts(a: Type, b: Type, c: Type)
    ensures PathCounts(MockOf(a, b, c)) == Counts(3, 0)
  {
    TypeArgsSegmentCounts(PathSegment("Mock", AngleBracketed([TypeArg(a), TypeArg(b), TypeArg(c)])));
  }

  /** A single segment whose arguments are all types: as many generics as arguments. */
  lemma TypeArgsSegmentCounts(seg: PathSegment)
    requires seg.arguments.AngleBracketed?
    requires forall i :: 0 <= i < |seg.arguments.args| ==> seg.arguments.args[i].TypeArg?
    ensures SegmentsCounts([seg]) == Counts(|seg.arguments.args|, 0)
  {
    AllTypeArgsCount(seg.arguments.args);
    OneSegmentCounts(seg);
  }

  /** `trait Mock<A, B, C> { type Item; }`: three type parameters, one associated type, none generic. */
  lemma ManyGenericsTrait()
    ensures ItemRows(TraitDecl("Mock", Generics([TypeParam("A", [], None), TypeParam("B", [], None), TypeParam("C", [], None)], []), [],
                               [AssocType("Item", NoGenerics)]))
      == [Row(TraitDef, None, 3, 1, Some(0), "Mock", 0, 0)]
  {
    var params := [TypeParam("A", [], None), TypeParam("B", [], None), TypeParam("C", [], None)];
    assert params[..2][..1][..0] == [] && params[..2][..1] == [params[0]] && params[..2] == [params[0], params[1]];
    assert Count(params, IsTypeParam) == 3;
    var assoc := [AssocType("Item", NoGenerics)];
    assert assoc[..0] == [];
  }

  /** `fn f(x: impl Mock<a, b, c>) { ... }`: three generics on the bound, no binding. */
  lemma ManyGenericsArg(a: Type, b: Type, c: Type, sig: Signature, body: seq<Stmt>)
    requires sig.generics == NoGenerics && sig.output == DefaultReturn && StmtsRows(body) == []
    ensures ItemRows(FnDecl(sig.(inputs := [Typed(ImplTrait([TraitBound(MockOf(a, b, c))]))]), body))
      == [Row(TypeImpl, Some(Argument), 3, 0, None, "Mock", 1, 0)]
  {
    MockCounts(a, b, c);
    LoneTraitBound(MockOf(a, b, c), TypeImpl, Some(Argument));
    OneArgFn(sig, ImplTrait([TraitBound(MockOf(a, b, c))]), body);
  }

  lemma TwoItems(x: Item, y: Item)
    ensures ItemsRows([x, y]) == ItemRows(x) + ItemRows(y)
  {
    assert [x, y][..1] == [x] && [x][..0] == [];
    assert ItemsRows([x]) == ItemRows(x);
  }

  /**
   * The declarations of the example file with a lending iterator:
   * `struct Mock;` and
   * `trait LendingIterator { type Item<'a>; fn next(&'a self) -> Self::Item<'a>; }`.
   * The associated type has a lifetime parameter, so it counts as generic; the
   * bodiless `next` is an `AssocOther`.
   */
  lemma DefineGat()
    ensures FileRows(File([
        TypeDecl(NoGenerics, []),
        TraitDecl("LendingIterator", NoGenerics, [], [AssocType("Item", Generics([LifetimeParam], [])), AssocOther])]))
      == [Row(TraitDef, None, 0, 1, Some(1), "LendingIterator", 0, 0)]
  {
    var next := AssocOther;
    var assoc := [AssocType("Item", Generics([LifetimeParam], [])), next];
    assert assoc == [assoc[0]] + [next];
    CountAppend([assoc[0]], [next], IsAssocType);
    CountAppend([assoc[0]], [next], IsGenericAssocType);
    CountSingle(assoc[0], IsAssocType);
    CountSingle(assoc[0], IsGenericAssocType);
    CountSingle(next, IsAssocType);
    CountSingle(next, IsGenericAssocType);
    TwoItems(TypeDecl(NoGenerics, []), TraitDecl("LendingIterator", NoGenerics, [], assoc));
  }

  lemma OneParam(p: GenericParam)
    ensures GenericParamsRows([p]) == GenericParamRows(p)
  {
    assert [p][..0] == [];
  }

  lemma OnePredicate(w: WherePredicate)
    ensures PredicatesRows([w]) == PredicateRows(w)
  {
    assert [w][..0] == [];
  }

  /**
   * `fn f<T>(x: T) where T: Iterator<Item = item> { ... }`: the where predicate
   * gives the row; the parameter `T` and the argument of type `T` give none.
   */
  lemma WhereClauseExample(t: Type, item: Type, sig: Signature, body: seq<Stmt>)
    requires TypeRows(t, Some(Argument)) == [] && sig.output == DefaultReturn && StmtsRows(body) == []
    ensures ItemRows(FnDecl(sig.(
              generics := Generics([TypeParam("T", [], None)], [BoundPredicate(t, [TraitBound(IteratorOf(item))])]),
              inputs := [Typed(t)]), body))
      == [IteratorRow(WhereClause, None)]
  {
    IteratorBoundList(item, WhereClause, None);
    OnePredicate(BoundPredicate(t, [TraitBound(IteratorOf(item))]));
    OneParam(TypeParam("T", [], None));
    OneFnArg(Typed(t));
  }

  /** `Fn(a, b) -> c` counts two generics and one associated type. */
  lemma FnSugarCounts(a: Type, b: Type, c: Type)
    ensures PathCounts(Path([PathSegment("Fn", Parenthesized([a, b], ReturnTy(c)))])) == Counts(2, 1)
  {
    OneSegmentCounts(PathSegment("Fn", Parenthesized([a, b], ReturnTy(c))));
  }

  /** Appending a segment to a path adds that segment's counts: every segment counts, not only the last. */
  lemma SegmentCountsAppend(segs: seq<PathSegment>, seg: PathSegment)
    ensures SegmentsCounts(segs + [seg]) == AddCounts(SegmentsCounts(segs), ArgumentsCounts(seg.arguments))
  {
    assert (segs + [seg])[..|segs|] == segs;
  }

  /** The counts of the first `n` segments, by position, as the counter's loop accumulates them. */
  function FirstSegmentsCounts(segs: seq<PathSegment>, n: nat): Counts
    requires n <= |segs|
  {
    if n == 0 then Counts(0, 0) else AddCounts(FirstSegmentsCounts(segs, n - 1), ArgumentsCounts(segs[n - 1].arguments))
  }

  lemma {:induction false} FirstSegmentsCountsAll(segs: seq<PathSegment>, n: nat)
    requires n <= |segs|
    ensures FirstSegmentsCounts(segs, n) == SegmentsCounts(segs[..n])
  {
    if n > 0 {
      FirstSegmentsCountsAll(segs, n - 1);
      assert segs[..n][..n - 1] == segs[..n - 1];
    }
  }

  /** `Box<dyn Debug>` */
  function BoxedDynDebug(): Type
  {
    PathType(Path([PathSegment("Box", AngleBracketed([TypeArg(TraitObject([TraitBound(Path([PathSegment("Debug", NoArguments)]))]))]))]))
  }

  lemma BoxedDynDebugRows(p: PositionType)
    ensures TypeRows(BoxedDynDebug(), Some(p)) == [Row(TypeDyn, Some(p), 0, 0, None, "Debug", 1, 0)]
  {
    var debug := Path([PathSegment("Debug", NoArguments)]);
    var dynDebug := TraitObject([TraitBound(debug)]);
    OneSegmentCounts(PathSegment("Debug", NoArguments));
    LoneTraitBound(debug, TypeDyn, Some(p));
    WrapperRows("Box", dynDebug, Some(p));
  }

  lemma BareFnWithoutInputs(output: ReturnType, position: Option<PositionType>)
    ensures TypeRows(BareFn([], output), position) == ReturnRows(output, position)
  {
    assert TypesRows([], position) == [];
  }

  /** `fn f(g: fn() -> Box<dyn Debug>)`: a return type inside a parameter keeps the position Argument. */
  lemma ReturnInsideArgument(sig: Signature, body: seq<Stmt>)
    requires sig.generics == NoGenerics && sig.output == DefaultReturn && StmtsRows(body) == []
    ensures ItemRows(FnDecl(sig.(inputs := [Typed(BareFn([], ReturnTy(BoxedDynDebug())))]), body))
      == [Row(TypeDyn, Some(Argument), 0, 0, None, "Debug", 1, 0)]
  {
    BoxedDynDebugRows(Argument);
    BareFnWithoutInputs(ReturnTy(BoxedDynDebug()), Some(Argument));
    OneArgFn(sig, BareFn([], ReturnTy(BoxedDynDebug())), body);
  }

  /** `fn() -> Box<dyn Debug>` */
  function FnReturningBoxedDynDebug(): Type
  {
    BareFn([], ReturnTy(BoxedDynDebug()))
  }

  /** The base visitor meets `fn() -> Box<dyn Debug>` and gives the `dyn` type a Return row. */
  lemma FnReturningBoxedDynDebugRows()
    ensures TypesRows([FnReturningBoxedDynDebug()], None) == [Row(TypeDyn, Some(Return), 0, 0, None, "Debug", 1, 0)]
  {
    BoxedDynDebugRows(Return);
    BareFnWithoutInputs(ReturnTy(BoxedDynDebug()), None);
    assert [FnReturningBoxedDynDebug()][..0] == [];
  }

  /** A variable, `x`, has no rows. */
  lemma VariableRows(x: string)
    ensures ExprsRows([PathExpr(Name(x))]) == []
  {
    var e := PathExpr(Name(x));
    var segs := Name(x).segments;
    assert segs[..0] == [];
    assert SegmentsRows(segs, None) == SegmentsRows([], None) + ArgumentsRows(NoArguments, None) == [];
    assert ExprRows(e) == PathRows(Name(x), None) == [];
    assert [e][..0] == [];
  }

  /** `g as fn() -> Box<dyn Debug>`: a type written in an expression is walked by the base visitor. */
  lemma CastToFnPointer(g: string)
    ensures ExprRows(OtherExpr([PathExpr(Name(g))], [FnReturningBoxedDynDebug()]))
      == [Row(TypeDyn, Some(Return), 0, 0, None, "Debug", 1, 0)]
  {
    VariableRows(g);
    FnReturningBoxedDynDebugRows();
    OtherExprRows([PathExpr(Name(g))], [FnReturningBoxedDynDebug()]);
  }

  lemma OtherExprRows(cs: seq<Expr>, ts: seq<Type>)
    ensures ExprRows(OtherExpr(cs, ts)) == ExprsRows(cs) + TypesRows(ts, None)
  {
  }

  /** `struct S<F = fn() -> Box<dyn Debug>>;`: the default of a type parameter is walked too. */
  lemma DefaultTypeParam()
    ensures ItemRows(TypeDecl(Generics([TypeParam("F", [], Some(FnReturningBoxedDynDebug()))], []), []))
      == [Row(TypeDyn, Some(Return), 0, 0, None, "Debug", 1, 0)]
  {
    var p := TypeParam("F", [], Some(FnReturningBoxedDynDebug()));
    FnReturningBoxedDynDebugRows();
    assert [FnReturningBoxedDynDebug()][..0] == [];
    OneParam(p);
  }

  // ------------------------------------------------------ the visitors

  /** Counts the generic arguments and associated-type bindings of one trait path. */
  class TraitParamCounter {
    var genericCount: nat
    var atCount: nat

    constructor ()
      ensures genericCount == 0 && atCount == 0
    {
      genericCount := 0;
      atCount := 0;
    }

    function Counted(): Counts
      reads this
    {
      Counts(genericCount, atCount)
    }

    /** A type argument adds a generic, a binding an associated type; lifetimes, consts and constraints add nothing. */
    method VisitGenericArgument(arg: GenericArg)
      modifies this
      ensures Counted() == AddCounts(old(Counted()), ArgCounts(arg))
    {
      match arg {
        case LifetimeArg =>
        case TypeArg(_) => genericCount := genericCount + 1;
        case ConstArg =>
        case Binding(_, _) => atCount := atCount + 1;
        case Constraint(_, _) =>
      }
    }

    /** `(A, B) -> C`: every input adds a generic; an output, when written, adds an associated type. */
    method VisitParenthesizedGenericArguments(inputs: seq<Type>, output: ReturnType)
      modifies this
      ensures Counted() == AddCounts(old(Counted()), ArgumentsCounts(Parenthesized(inputs, output)))
    {
      genericCount := genericCount + |inputs|;
      match output {
        case DefaultReturn =>
        case ReturnTy(_) => atCount := atCount + 1;
      }
    }

    /** The arguments of one angle-bracketed segment, one by one. */
    method VisitAngleBracketedGenericArguments(args: seq<GenericArg>)
      modifies this
      ensures Counted() == AddCounts(old(Counted()), GenericArgsCounts(args))
    {
      var j := 0;
      while j < |args|
        invariant j <= |args|
        invariant Counted() == AddCounts(old(Counted()), GenericArgsCounts(args[..j]))
      {
        assert args[..j + 1][..j] == args[..j];
        VisitGenericArgument(args[j]);
        j := j + 1;
      }
      assert args[..|args|] == args;
    }

    method VisitPathArguments(arguments: PathArguments)
      modifies this
      ensures Counted() == AddCounts(old(Counted()), ArgumentsCounts(arguments))
    {
      match arguments {
        case NoArguments =>
        case AngleBracketed(args) => VisitAngleBracketedGenericArguments(args);
        case Parenthesized(inputs, output) => VisitParenthesizedGenericArguments(inputs, output);
      }
    }

    /** Walks every segment, and every argument of each, without entering the arguments. */
    method VisitSegments(segs: seq<PathSegment>)
      modifies this
      ensures Counted() == AddCounts(old(Counted()), FirstSegmentsCounts(segs, |segs|))
    {
      var i := 0;
      while i < |segs|
        invariant i <= |segs|
        invariant genericCount == old(genericCount) + FirstSegmentsCounts(segs, i).generic
        invariant atCount == old(atCount) + FirstSegmentsCounts(segs, i).at
      {
        VisitPathArguments(segs[i].arguments);
        i := i + 1;
      }
    }

    method VisitPath(path: Path)
      modifies this
      ensures Counted() == AddCounts(old(Counted()), PathCounts(path))
    {
      VisitSegments(path.segments);
      FirstSegmentsCountsAll(path.segments, |path.segments|);
      assert path.segments[..|path.segments|] == path.segments;
    }
  }

  /** Runs a fresh parameter counter over `path`; the counts it ends with are the path's. */
  method CountPathParams(path: Path) returns (counts: Counts)
    ensures counts == PathCounts(path)
  {
    var counter := new TraitParamCounter();
    counter.VisitPath(path);
    counts := counter.Counted();
  }

  /**
   * The visitor. With `position` None it is the base visitor of a file; with
   * Some(p) it is the positional visitor that a fn parameter (p = Argument)
   * or a return type (p = Return) hands its subtree to. Both write to the
   * same log.
   */
  class Stats {
    const log: Sink.Log<Row>
    const position: Option<PositionType>

    constructor (log: Sink.Log<Row>, position: Option<PositionType>)
      ensures this.log == log && this.position == position
    {
      this.log := log;
      this.position := position;
    }

    /**
     * Pushes the row of a trait path, named by its last segment and carrying
     * the path's counts, with `baseAt` added to the associated types. A path
     * without segments gives nothing.
     */
    method CollectTraitPath(path: Path, syntax: SyntaxType, rowPosition: Option<PositionType>, baseAt: nat,
                            gat: Option<nat>, traitBounds: nat, lifetimeBounds: nat)
      modifies log
      ensures log.rows == old(log.rows) + TraitPathRows(path, syntax, rowPosition, baseAt, gat, traitBounds, lifetimeBounds)
    {
      if |path.segments| == 0 {
        return;
      }
      var traitName := path.segments[|path.segments| - 1].ident;
      var counts := CountPathParams(path);
      log.Push(Row(syntax, rowPosition, counts.generic, counts.at + baseAt, gat,
                   traitName, traitBounds, lifetimeBounds));
    }

    /** A trait bound gives the row of its path; a lifetime bound gives nothing. */
    method CollectTypeParamBound(b: Bound, syntax: SyntaxType, rowPosition: Option<PositionType>,
                                 traitBounds: nat, lifetimeBounds: nat)
      modifies log
      ensures log.rows == old(log.rows) + BoundRow(b, syntax, rowPosition, traitBounds, lifetimeBounds)
    {
      match b {
        case TraitBound(path) => CollectTraitPath(path, syntax, rowPosition, 0, None, traitBounds, lifetimeBounds);
        case LifetimeBound =>
      }
    }

    /** One row per bound of `bs`, in order, each carrying the given numbers of trait and lifetime bounds. */
    method CollectBounds(bs: seq<Bound>, syntax: SyntaxType, rowPosition: Option<PositionType>,
                         traitBounds: nat, lifetimeBounds: nat)
      modifies log
      ensures log.rows == old(log.rows) + FirstBoundsEach(bs, |bs|, syntax, rowPosition, traitBounds, lifetimeBounds)
    {
      var i := 0;
      while i < |bs|
        invariant i <= |bs|
        invariant log.rows == old(log.rows) + FirstBoundsEach(bs, i, syntax, rowPosition, traitBounds, lifetimeBounds)
      {
        CollectTypeParamBound(bs[i], syntax, rowPosition, traitBounds, lifetimeBounds);
        AppendAssoc(old(log.rows), FirstBoundsEach(bs, i, syntax, rowPosition, traitBounds, lifetimeBounds),
                    BoundRow(bs[i], syntax, rowPosition, traitBounds, lifetimeBounds));
        i := i + 1;
      }
    }

    /** One row per trait bound of the list, each with the list's numbers of trait and lifetime bounds. */
    method CollectBoundList(bs: seq<Bound>, syntax: SyntaxType, rowPosition: Option<PositionType>)
      modifies log
      ensures log.rows == old(log.rows) + BoundListRows(bs, syntax, rowPosition)
    {
      var traitBounds := Count(bs, IsTraitBound);
      CollectBounds(bs, syntax, rowPosition, traitBounds, |bs| - traitBounds);
      FirstBoundsEachAll(bs, |bs|, syntax, rowPosition, traitBounds, |bs| - traitBounds);
      assert bs[..|bs|] == bs;
    }

    /**
     * In the positional mode an `impl` or `dyn` type gives the rows of its
     * bound list and is not entered; in the base mode its bounds are entered.
     */
    method VisitType(t: Type)
      modifies log
      ensures log.rows == old(log.rows) + TypeRows(t, position)
      decreases t
    {
      match t {
        case PathType(path) => VisitPath(path);
        case ImplTrait(bs) =>
          if position.Some? {
            CollectBoundList(bs, TypeImpl, position);
          } else {
            VisitBounds(bs);
          }
        case TraitObject(bs) =>
          if position.Some? {
            CollectBoundList(bs, TypeDyn, position);
          } else {
            VisitBounds(bs);
          }
        case BareFn(inputs, output) =>
          VisitTypes(inputs);
          VisitReturnType(output);
          AppendAssoc(old(log.rows), TypesRows(inputs, position), ReturnRows(output, position));
        case Compound(elems) => VisitTypes(elems);
      }
    }

    method VisitTypes(ts: seq<Type>)
      modifies log
      ensures log.rows == old(log.rows) + TypesRows(ts, position)
      decreases ts
    {
      var i := 0;
      while i < |ts|
        invariant i <= |ts|
        invariant log.rows == old(log.rows) + TypesRows(ts[..i], position)
      {
        assert ts[..i + 1][..i] == ts[..i];
        VisitType(ts[i]);
        AppendAssoc(old(log.rows), TypesRows(ts[..i], position), TypeRows(ts[i], position));
        i := i + 1;
      }
      assert ts[..|ts|] == ts;
    }

    /** The base visitor hands a return type to a positional visitor for Return; a positional one keeps its own. */
    method VisitReturnType(r: ReturnType)
      modifies log
      ensures log.rows == old(log.rows) + ReturnRows(r, position)
      decreases r
    {
      match r {
        case DefaultReturn =>
        case ReturnTy(ty) =>
          if position.None? {
            var positional := new Stats(log, Some(Return));
            positional.VisitType(ty);
          } else {
            VisitType(ty);
          }
      }
    }

    method VisitPath(path: Path)
      modifies log
      ensures log.rows == old(log.rows) + PathRows(path, position)
      decreases path
    {
      VisitSegments(path.segments);
    }

    method VisitSegments(segs: seq<PathSegment>)
      modifies log
      ensures log.rows == old(log.rows) + SegmentsRows(segs, position)
      decreases segs
    {
      var i := 0;
      while i < |segs|
        invariant i <= |segs|
        invariant log.rows == old(log.rows) + SegmentsRows(segs[..i], position)
      {
        assert segs[..i + 1][..i] == segs[..i];
        VisitArguments(segs[i].arguments);
        AppendAssoc(old(log.rows), SegmentsRows(segs[..i], position), ArgumentsRows(segs[i].arguments, position));
        i := i + 1;
      }
      assert segs[..|segs|] == segs;
    }

    method VisitArguments(arguments: PathArguments)
      modifies log
      ensures log.rows == old(log.rows) + ArgumentsRows(arguments, position)
      decreases arguments
    {
      match arguments {
        case NoArguments =>
        case AngleBracketed(args) => VisitGenericArgs(args);
        case Parenthesized(inputs, output) =>
          VisitTypes(inputs);
          VisitReturnType(output);
          AppendAssoc(old(log.rows), TypesRows(inputs, position), ReturnRows(output, position));
      }
    }

    method VisitGenericArg(arg: GenericArg)
      modifies log
      ensures log.rows == old(log.rows) + GenericArgRows(arg, position)
      decreases arg
    {
      match arg {
        case LifetimeArg =>
        case TypeArg(ty) => VisitType(ty);
        case ConstArg =>
        case Binding(_, ty) => VisitType(ty);
        case Constraint(_, bs) => VisitBounds(bs);
      }
    }

    method VisitGenericArgs(args: seq<GenericArg>)
      modifies log
      ensures log.rows == old(log.rows) + GenericArgsRows(args, position)
      decreases args
    {
      var i := 0;
      while i < |args|
        invariant i <= |args|
        invariant log.rows == old(log.rows) + GenericArgsRows(args[..i], position)
      {
        assert args[..i + 1][..i] == args[..i];
        VisitGenericArg(args[i]);
        AppendAssoc(old(log.rows), GenericArgsRows(args[..i], position), GenericArgRows(args[i], position));
        i := i + 1;
      }
      assert args[..|args|] == args;
    }

    method VisitBound(b: Bound)
      modifies log
      ensures log.rows == old(log.rows) + BoundRows(b, position)
      decreases b
    {
      match b {
        case TraitBound(path) => VisitPath(path);
        case LifetimeBound =>
      }
    }

    method VisitBounds(bs: seq<Bound>)
      modifies log
      ensures log.rows == old(log.rows) + BoundsRows(bs, position)
      decreases bs
    {
      var i := 0;
      while i < |bs|
        invariant i <= |bs|
        invariant log.rows == old(log.rows) + BoundsRows(bs[..i], position)
      {
        assert bs[..i + 1][..i] == bs[..i];
        VisitBound(bs[i]);
        AppendAssoc(old(log.rows), BoundsRows(bs[..i], position), BoundRows(bs[i], position));
        i := i + 1;
      }
      assert bs[..|bs|] == bs;
    }

    // The constructs below are met only by the base visitor.

    method VisitGenericParam(p: GenericParam)
      requires position.None?
      modifies log
      ensures log.rows == old(log.rows) + GenericParamRows(p)
    {
      match p {
        case TypeParam(_, bs, defaultTy) =>
          VisitBounds(bs);
          if defaultTy.Some? {
            VisitType(defaultTy.value);
            AppendAssoc(old(log.rows), BoundsRows(bs, None), TypeRows(defaultTy.value, None));
          }
        case LifetimeParam =>
        case ConstParam(ty) => VisitType(ty);
      }
    }

    method VisitGenericParams(ps: seq<GenericParam>)
      requires position.None?
      modifies log
      ensures log.rows == old(log.rows) + GenericParamsRows(ps)
    {
      var i := 0;
      while i < |ps|
        invariant i <= |ps|
        invariant log.rows == old(log.rows) + GenericParamsRows(ps[..i])
      {
        assert ps[..i + 1][..i] == ps[..i];
        VisitGenericParam(ps[i]);
        AppendAssoc(old(log.rows), GenericParamsRows(ps[..i]), GenericParamRows(ps[i]));
        i := i + 1;
      }
      assert ps[..|ps|] == ps;
    }

    method VisitWherePredicate(w: WherePredicate)
      requires position.None?
      modifies log
      ensures log.rows == old(log.rows) + PredicateRows(w)
    {
      match w {
        case BoundPredicate(_, bs) => VisitPredicateType(bs);
        case LifetimePredicate =>
      }
    }

    method VisitWherePredicates(ws: seq<WherePredicate>)
      requires position.None?
      modifies log
      ensures log.rows == old(log.rows) + PredicatesRows(ws)
    {
      var i := 0;
      while i < |ws|
        invariant i <= |ws|
        invariant log.rows == old(log.rows) + PredicatesRows(ws[..i])
      {
        assert ws[..i + 1][..i] == ws[..i];
        VisitWherePredicate(ws[i]);
        AppendAssoc(old(log.rows), PredicatesRows(ws[..i]), PredicateRows(ws[i]));
        i := i + 1;
      }
      assert ws[..|ws|] == ws;
    }

    method VisitGenerics(g: Generics)
      requires position.None?
      modifies log
      ensures log.rows == old(log.rows) + GenericsRows(g)
    {
      VisitGenericParams(g.params);
      VisitWherePredicates(g.predicates);
      AppendAssoc(old(log.rows), GenericParamsRows(g.params), PredicatesRows(g.predicates));
    }

    /** A `where` predicate: one WhereClause row per trait bound; the bounded type is not entered. */
    method VisitPredicateType(bs: seq<Bound>)
      requires position.None?
      modifies log
      ensures log.rows == old(log.rows) + BoundListRows(bs, WhereClause, None)
    {
      CollectBoundList(bs, WhereClause, None);
    }

    /** A fn parameter is handed to a positional visitor for Argument. */
    method VisitFnArg(a: FnArg)
      requires position.None?
      modifies log
      ensures log.rows == old(log.rows) + FnArgRows(a)
    {
      var positional := new Stats(log, Some(Argument));
      match a {
        case Receiver =>
        case Typed(ty) => positional.VisitType(ty);
      }
    }

    method VisitFnArgs(inputs: seq<FnArg>)
      requires position.None?
      modifies log
      ensures log.rows == old(log.rows) + FnArgsRows(inputs)
    {
      var i := 0;
      while i < |inputs|
        invariant i <= |inputs|
        invariant log.rows == old(log.rows) + FnArgsRows(inputs[..i])
      {
        assert inputs[..i + 1][..i] == inputs[..i];
        VisitFnArg(inputs[i]);
        AppendAssoc(old(log.rows), FnArgsRows(inputs[..i]), FnArgRows(inputs[i]));
        i := i + 1;
      }
      assert inputs[..|inputs|] == inputs;
    }

    method VisitSignature(sig: Signature)
      requires position.None?
      modifies log
      ensures log.rows == old(log.rows) + SignatureRows(sig)
    {
      VisitGenerics(sig.generics);
      VisitFnArgs(sig.inputs);
      VisitReturnType(sig.output);
      AppendAssoc(old(log.rows), GenericsRows(sig.generics), FnArgsRows(sig.inputs));
      AppendAssoc(old(log.rows), GenericsRows(sig.generics) + FnArgsRows(sig.inputs), ReturnRows(sig.output, None));
    }

    /**
     * `impl Trait for T`: the row of the trait's path, with the impl's
     * associated types added and those with generics of their own as the gat
     * count. An inherent impl gives nothing. The impl's items are not entered.
     */
    method VisitItemImpl(item: Item)
      requires position.None? && item.ImplBlock?
      modifies log
      ensures log.rows == old(log.rows) + ItemRows(item)
    {
      if item.trait_.None? {
        return;
      }
      var baseAt := Count(item.items, IsAssocType);
      var gat := Count(item.items, IsGenericAssocType);
      CollectTraitPath(item.trait_.value, ImplFor, None, baseAt, Some(gat), 0, 0);
    }

    /**
     * `trait Name<...> { ... }`: one TraitDef row with the type parameters,
     * the associated types and those with generics of their own. The trait's
     * items are not entered.
     */
    method VisitItemTrait(item: Item)
      requires position.None? && item.TraitDecl?
      modifies log
      ensures log.rows == old(log.rows) + ItemRows(item)
    {
      var atCount := Count(item.items, IsAssocType);
      var genericCount := Count(item.generics.params, IsTypeParam);
      var gat := Count(item.items, IsGenericAssocType);
      log.Push(Row(TraitDef, None, genericCount, atCount, Some(gat), item.ident, 0, 0));
    }

    method VisitItem(item: Item)
      requires position.None?
      modifies log
      ensures log.rows == old(log.rows) + ItemRows(item)
      decreases item
    {
      match item {
        case TraitDecl(_, _, _, _) => VisitItemTrait(item);
        case ImplBlock(_, _, _, _) => VisitItemImpl(item);
        case FnDecl(sig, body) =>
          VisitSignature(sig);
          VisitStmts(body);
          AppendAssoc(old(log.rows), SignatureRows(sig), StmtsRows(body));
        case ModDecl(content) => VisitItems(content);
        case TypeDecl(generics, fields) =>
          VisitGenerics(generics);
          VisitTypes(fields);
          AppendAssoc(old(log.rows), GenericsRows(generics), TypesRows(fields, None));
        case ConstDecl(ty, init) =>
          VisitType(ty);
          VisitExpr(init);
          AppendAssoc(old(log.rows), TypeRows(ty, None), ExprRows(init));
        case OtherItem =>
      }
    }

    method VisitItems(items: seq<Item>)
      requires position.None?
      modifies log
      ensures log.rows == old(log.rows) + ItemsRows(items)
      decreases items
    {
      var i := 0;
      while i < |items|
        invariant i <= |items|
        invariant log.rows == old(log.rows) + ItemsRows(items[..i])
      {
        assert items[..i + 1][..i] == items[..i];
        VisitItem(items[i]);
        AppendAssoc(old(log.rows), ItemsRows(items[..i]), ItemRows(items[i]));
        i := i + 1;
      }
      assert items[..|items|] == items;
    }

    method VisitStmt(s: Stmt)
      requires position.None?
      modifies log
      ensures log.rows == old(log.rows) + StmtRows(s)
      decreases s
    {
      match s {
        case Local(ty, init) =>
          if ty.Some? {
            VisitType(ty.value);
          }
          if init.Some? {
            VisitExpr(init.value);
          }
          AppendAssoc(old(log.rows), if ty.Some? then TypeRows(ty.value, None) else [],
                      if init.Some? then ExprRows(init.value) else []);
        case ItemStmt(item) => VisitItem(item);
        case ExprStmt(e) => VisitExpr(e);
      }
    }

    method VisitStmts(ss: seq<Stmt>)
      requires position.None?
      modifies log
      ensures log.rows == old(log.rows) + StmtsRows(ss)
      decreases ss
    {
      var i := 0;
      while i < |ss|
        invariant i <= |ss|
        invariant log.rows == old(log.rows) + StmtsRows(ss[..i])
      {
        assert ss[..i + 1][..i] == ss[..i];
        VisitStmt(ss[i]);
        AppendAssoc(old(log.rows), StmtsRows(ss[..i]), StmtRows(ss[i]));
        i := i + 1;
      }
      assert ss[..|ss|] == ss;
    }

    method VisitExpr(e: Expr)
      requires position.None?
      modifies log
      ensures log.rows == old(log.rows) + ExprRows(e)
      decreases e
    {
      match e {
        case UnsafeBlock(ss) => VisitStmts(ss);
        case AsyncBlock(ss) => VisitStmts(ss);
        case Closure(inputs, output, body) =>
          VisitTypes(inputs);
          VisitReturnType(output);
          VisitExpr(body);
          AppendAssoc(old(log.rows), TypesRows(inputs, None), ReturnRows(output, None));
          AppendAssoc(old(log.rows), TypesRows(inputs, None) + ReturnRows(output, None), ExprRows(body));
        case Call(func, args) =>
          VisitExpr(func);
          VisitExprs(args);
          AppendAssoc(old(log.rows), ExprRows(func), ExprsRows(args));
        case PathExpr(path) => VisitPath(path);
        case BlockExpr(ss) => VisitStmts(ss);
        case OtherExpr(cs, ts) =>
          VisitExprs(cs);
          VisitTypes(ts);
          AppendAssoc(old(log.rows), ExprsRows(cs), TypesRows(ts, None));
      }
    }

    method VisitExprs(es: seq<Expr>)
      requires position.None?
      modifies log
      ensures log.rows == old(log.rows) + ExprsRows(es)
      decreases es
    {
      var i := 0;
      while i < |es|
        invariant i <= |es|
        invariant log.rows == old(log.rows) + ExprsRows(es[..i])
      {
        assert es[..i + 1][..i] == es[..i];
        VisitExpr(es[i]);
        AppendAssoc(old(log.rows), ExprsRows(es[..i]), ExprRows(es[i]));
        i := i + 1;
      }
      assert es[..|es|] == es;
    }
  }

  /** The runner's collect step: visit the file with a base visitor. */
  method Collect(file: File, log: Sink.Log<Row>)
    modifies log
    ensures log.rows == old(log.rows) + FileRows(file)
  {
    var stats := new Stats(log, None);
    stats.VisitItems(file.items);
  }
}
