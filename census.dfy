/**
 * A census of a syntax tree: how many constructs of each kind it holds,
 * counted over the whole tree (inside items, bodies, nested functions,
 * closures and blocks alike). The classifiers are proved against these
 * counts: each census figure is an independent description of how many
 * rows of some kind a classifier must emit.
 */
module Census {
  import opened Wrappers
  import opened Syntax

  datatype Tally = Tally(
    closures: nat,        // closure expressions
    calls: nat,           // call expressions
    unsafeBlocks: nat,    // unsafe { ... } expressions
    asyncBlocks: nat,     // async { ... } expressions
    freeFns: nat,         // free fn items (not methods)
    asyncFns: nat,        // free fn items declared async
    transmuteCalls: nat)  // calls whose callee names transmute or transmute_copy

  const Zero := Tally(0, 0, 0, 0, 0, 0, 0)

  function Plus(a: Tally, b: Tally): Tally
  {
    Tally(a.closures + b.closures, a.calls + b.calls, a.unsafeBlocks + b.unsafeBlocks,
          a.asyncBlocks + b.asyncBlocks, a.freeFns + b.freeFns, a.asyncFns + b.asyncFns,
          a.transmuteCalls + b.transmuteCalls)
  }

  /** The names under which a call reinterprets the bytes of a value. */
  predicate IsTransmuteName(name: string)
  {
    name == "transmute" || name == "transmute_copy"
  }

  /** A callee that is a path whose last segment is named transmute or transmute_copy. */
  predicate IsTransmuteCallee(func: Expr)
  {
    func.PathExpr? && |func.path.segments| > 0
    && IsTransmuteName(func.path.segments[|func.path.segments| - 1].ident)
  }

  function ExprTally(e: Expr): Tally
  {
    match e
    case UnsafeBlock(ss) => Plus(StmtsTally(ss), Zero.(unsafeBlocks := 1))
    case AsyncBlock(ss) => Plus(StmtsTally(ss), Zero.(asyncBlocks := 1))
    case Closure(_, _, body) => Plus(ExprTally(body), Zero.(closures := 1))
    case Call(func, args) =>
      Plus(Plus(ExprTally(func), ExprsTally(args)),
           Zero.(calls := 1, transmuteCalls := if IsTransmuteCallee(func) then 1 else 0))
    case PathExpr(_) => Zero
    case BlockExpr(ss) => StmtsTally(ss)
    case OtherExpr(cs, _) => ExprsTally(cs)
  }

  function ExprsTally(es: seq<Expr>): Tally
  {
    if es == [] then Zero else Plus(ExprsTally(es[..|es| - 1]), ExprTally(es[|es| - 1]))
  }

  function StmtTally(s: Stmt): Tally
  {
    match s
    case Local(_, init) => if init.Some? then ExprTally(init.value) else Zero
    case ItemStmt(item) => ItemTally(item)
    case ExprStmt(e) => ExprTally(e)
  }

  function StmtsTally(ss: seq<Stmt>): Tally
  {
    if ss == [] then Zero else Plus(StmtsTally(ss[..|ss| - 1]), StmtTally(ss[|ss| - 1]))
  }

  function ItemTally(item: Item): Tally
  {
    match item
    case TraitDecl(_, _, _, items) => AssocsTally(items)
    case ImplBlock(_, _, _, items) => AssocsTally(items)
    case FnDecl(sig, body) =>
      Plus(StmtsTally(body), Zero.(freeFns := 1, asyncFns := if sig.isAsync then 1 else 0))
    case ModDecl(content) => ItemsTally(content)
    case TypeDecl(_, _) => Zero
    case ConstDecl(_, init) => ExprTally(init)
    case OtherItem => Zero
  }

  function ItemsTally(items: seq<Item>): Tally
  {
    if items == [] then Zero else Plus(ItemsTally(items[..|items| - 1]), ItemTally(items[|items| - 1]))
  }

  function AssocTally(a: AssocItem): Tally
  {
    match a
    case AssocFn(_, body) => StmtsTally(body)
    case AssocType(_, _) => Zero
    case AssocConst(_, init) => if init.Some? then ExprTally(init.value) else Zero
    case AssocOther => Zero
  }

  function AssocsTally(items: seq<AssocItem>): Tally
  {
    if items == [] then Zero else Plus(AssocsTally(items[..|items| - 1]), AssocTally(items[|items| - 1]))
  }

  function FileTally(file: File): Tally
  {
    ItemsTally(file.items)
  }
}
