/**
 * The async-code classifier. It emits
 *   - one Block row for every `async { ... }` expression, after the rows of
 *     everything inside it (post-order), and adds one to the accumulator of
 *     the visitor that reached it;
 *   - one Function row for every free `fn` item marked `async`, after the
 *     rows of its body, holding the number of async blocks its body added to
 *     a fresh accumulator. A free fn that is not async still has its body
 *     visited under a fresh accumulator, so its blocks get their rows but
 *     count for nobody. Methods of impls and traits have no accumulator of
 *     their own and add to the enclosing one.
 */
module AsyncCode {
  import opened Wrappers
  import opened Syntax
  import opened Census
  import Sink
  import opened Seqs

  datatype AsyncCodeType = Function | Block

  /** A row of the async_code table. */
  datatype AsyncRow = AsyncRow(kind: AsyncCodeType, blockCount: Option<nat>)

  // ------------------------------------------------- rows, as functions

  function ExprRows(e: Expr): seq<AsyncRow>
  {
    match e
    case UnsafeBlock(ss) => StmtsRows(ss)
    case AsyncBlock(ss) => StmtsRows(ss) + [AsyncRow(Block, None)]
    case Closure(_, _, body) => ExprRows(body)
    case Call(func, args) => ExprRows(func) + ExprsRows(args)
    case PathExpr(_) => []
    case BlockExpr(ss) => StmtsRows(ss)
    case OtherExpr(cs, _) => ExprsRows(cs)
  }

  function ExprsRows(es: seq<Expr>): seq<AsyncRow>
  {
    if es == [] then [] else ExprsRows(es[..|es| - 1]) + ExprRows(es[|es| - 1])
  }

  function StmtRows(s: Stmt): seq<AsyncRow>
  {
    match s
    case Local(_, init) => if init.Some? then ExprRows(init.value) else []
    case ItemStmt(item) => ItemRows(item)
    case ExprStmt(e) => ExprRows(e)
  }

  function StmtsRows(ss: seq<Stmt>): seq<AsyncRow>
  {
    if ss == [] then [] else StmtsRows(ss[..|ss| - 1]) + StmtRows(ss[|ss| - 1])
  }

  function ItemRows(item: Item): seq<AsyncRow>
  {
    match item
    case TraitDecl(_, _, _, items) => AssocsRows(items)
    case ImplBlock(_, _, _, items) => AssocsRows(items)
    case FnDecl(sig, body) =>
      StmtsRows(body) + (if sig.isAsync then [AsyncRow(Function, Some(StmtsCount(body)))] else [])
    case ModDecl(content) => ItemsRows(content)
    case TypeDecl(_, _) => []
    case ConstDecl(_, init) => ExprRows(init)
    case OtherItem => []
  }

  function ItemsRows(items: seq<Item>): seq<AsyncRow>
  {
    if items == [] then [] else ItemsRows(items[..|items| - 1]) + ItemRows(items[|items| - 1])
  }

  function AssocRows(a: AssocItem): seq<AsyncRow>
  {
    match a
    case AssocFn(_, body) => StmtsRows(body)
    case AssocType(_, _) => []
    case AssocConst(_, init) => if init.Some? then ExprRows(init.value) else []
    case AssocOther => []
  }

  function AssocsRows(items: seq<AssocItem>): seq<AsyncRow>
  {
    if items == [] then [] else AssocsRows(items[..|items| - 1]) + AssocRows(items[|items| - 1])
  }

  function FileRows(file: File): seq<AsyncRow>
  {
    ItemsRows(file.items)
  }

  // ------------------------------ what a visitor adds to its accumulator

  /** Async blocks reached by the visitor itself: all of them except those inside nested free fns. */
  function ExprCount(e: Expr): nat
  {
    match e
    case UnsafeBlock(ss) => StmtsCount(ss)
    case AsyncBlock(ss) => StmtsCount(ss) + 1
    case Closure(_, _, body) => ExprCount(body)
    case Call(func, args) => ExprCount(func) + ExprsCount(args)
    case PathExpr(_) => 0
    case BlockExpr(ss) => StmtsCount(ss)
    case OtherExpr(cs, _) => ExprsCount(cs)
  }

  function ExprsCount(es: seq<Expr>): nat
  {
    if es == [] then 0 else ExprsCount(es[..|es| - 1]) + ExprCount(es[|es| - 1])
  }

  function StmtCount(s: Stmt): nat
  {
    match s
    case Local(_, init) => if init.Some? then ExprCount(init.value) else 0
    case ItemStmt(item) => ItemCount(item)
    case ExprStmt(e) => ExprCount(e)
  }

  function StmtsCount(ss: seq<Stmt>): nat
  {
    if ss == [] then 0 else StmtsCount(ss[..|ss| - 1]) + StmtCount(ss[|ss| - 1])
  }

  function ItemCount(item: Item): nat
  {
    match item
    case TraitDecl(_, _, _, items) => AssocsCount(items)
    case ImplBlock(_, _, _, items) => AssocsCount(items)
    case FnDecl(_, _) => 0
    case ModDecl(content) => ItemsCount(content)
    case TypeDecl(_, _) => 0
    case ConstDecl(_, init) => ExprCount(init)
    case OtherItem => 0
  }

  function ItemsCount(items: seq<Item>): nat
  {
    if items == [] then 0 else ItemsCount(items[..|items| - 1]) + ItemCount(items[|items| - 1])
  }

  function AssocCount(a: AssocItem): nat
  {
    match a
    case AssocFn(_, body) => StmtsCount(body)
    case AssocType(_, _) => 0
    case AssocConst(_, init) => if init.Some? then ExprCount(init.value) else 0
    case AssocOther => 0
  }

  function AssocsCount(items: seq<AssocItem>): nat
  {
    if items == [] then 0 else AssocsCount(items[..|items| - 1]) + AssocCount(items[|items| - 1])
  }

  // ------------------------------------------- what the rows amount to

  predicate IsBlockRow(r: AsyncRow) { r.kind == Block }
  predicate IsFunctionRow(r: AsyncRow) { r.kind == Function }

  /** The rows agree with the census: one Block row per async block, one Function row per async free fn. */
  predicate Agrees(rs: seq<AsyncRow>, t: Tally)
  {
    Count(rs, IsBlockRow) == t.asyncBlocks && Count(rs, IsFunctionRow) == t.asyncFns
  }

  /** Block rows carry no count; Function rows always carry one. */
  predicate WellTagged(rs: seq<AsyncRow>)
  {
    forall r <- rs :: r.blockCount.Some? <==> r.kind == Function
  }

  /** What the census lemmas state about the rows and the count of one piece of syntax. */
  predicate CensusHolds(rs: seq<AsyncRow>, count: nat, t: Tally)
  {
    && Agrees(rs, t)
    && WellTagged(rs)
    && count <= t.asyncBlocks
    && (t.freeFns == 0 ==> count == t.asyncBlocks)
  }

  lemma AgreesAppend(a: seq<AsyncRow>, ta: Tally, b: seq<AsyncRow>, tb: Tally)
    requires Agrees(a, ta) && Agrees(b, tb)
    ensures Agrees(a + b, Plus(ta, tb))
  {
    CountAppend(a, b, IsBlockRow);
    CountAppend(a, b, IsFunctionRow);
  }

  lemma AgreesSingle(r: AsyncRow)
    ensures Count([r], IsBlockRow) == (if r.kind == Block then 1 else 0)
    ensures Count([r], IsFunctionRow) == (if r.kind == Function then 1 else 0)
  {
    CountSingle(r, IsBlockRow);
    CountSingle(r, IsFunctionRow);
  }

  /** The step of the census for an async block, given the census of its statements. */
  lemma AsyncBlockCensus(ss: seq<Stmt>)
    requires CensusHolds(StmtsRows(ss), StmtsCount(ss), StmtsTally(ss))
    ensures CensusHolds(ExprRows(AsyncBlock(ss)), ExprCount(AsyncBlock(ss)), ExprTally(AsyncBlock(ss)))
  {
    var row := AsyncRow(Block, None);
    AgreesSingle(row);
    AgreesAppend(StmtsRows(ss), StmtsTally(ss), [row], Zero.(asyncBlocks := 1));
  }

  /** The step of the census for a call, given the census of its callee and arguments. */
  lemma CallCensus(func: Expr, args: seq<Expr>)
    requires CensusHolds(ExprRows(func), ExprCount(func), ExprTally(func))
    requires CensusHolds(ExprsRows(args), ExprsCount(args), ExprsTally(args))
    ensures CensusHolds(ExprRows(Call(func, args)), ExprCount(Call(func, args)), ExprTally(Call(func, args)))
  {
    AgreesAppend(ExprRows(func), ExprTally(func), ExprsRows(args), ExprsTally(args));
  }

  /** The step of the census for a free fn, given the census of its body. */
  lemma FnCensus(sig: Signature, body: seq<Stmt>)
    requires CensusHolds(StmtsRows(body), StmtsCount(body), StmtsTally(body))
    ensures Agrees(ItemRows(FnDecl(sig, body)), ItemTally(FnDecl(sig, body)))
    ensures WellTagged(ItemRows(FnDecl(sig, body)))
  {
    var tail := if sig.isAsync then [AsyncRow(Function, Some(StmtsCount(body)))] else [];
    if sig.isAsync {
      AgreesSingle(tail[0]);
    } else {
      assert Count(tail, IsBlockRow) == 0 && Count(tail, IsFunctionRow) == 0;
    }
    AgreesAppend(StmtsRows(body), StmtsTally(body), tail,
                 Zero.(freeFns := 1, asyncFns := if sig.isAsync then 1 else 0));
  }

  lemma {:induction false} ExprCensus(e: Expr)
    ensures CensusHolds(ExprRows(e), ExprCount(e), ExprTally(e))
    decreases e
  {
    match e
    case UnsafeBlock(ss) => StmtsCensus(ss);
    case AsyncBlock(ss) =>
      StmtsCensus(ss);
      AsyncBlockCensus(ss);
    case Closure(_, _, body) => ExprCensus(body);
    case Call(func, args) =>
      ExprCensus(func);
      ExprsCensus(args);
      CallCensus(func, args);
    case PathExpr(_) =>
    case BlockExpr(ss) => StmtsCensus(ss);
    case OtherExpr(cs, _) => ExprsCensus(cs);
  }

  lemma {:induction false} ExprsCensus(es: seq<Expr>)
    ensures CensusHolds(ExprsRows(es), ExprsCount(es), ExprsTally(es))
    decreases es
  {
    if es != [] {
      ExprsCensus(es[..|es| - 1]);
      ExprCensus(es[|es| - 1]);
      AgreesAppend(ExprsRows(es[..|es| - 1]), ExprsTally(es[..|es| - 1]), ExprRows(es[|es| - 1]), ExprTally(es[|es| - 1]));
    }
  }

  lemma {:induction false} StmtCensus(s: Stmt)
    ensures CensusHolds(StmtRows(s), StmtCount(s), StmtTally(s))
    decreases s
  {
    match s
    case Local(_, init) => if init.Some? { ExprCensus(init.value); }
    case ItemStmt(item) => ItemCensus(item);
    case ExprStmt(e) => ExprCensus(e);
  }

  lemma {:induction false} StmtsCensus(ss: seq<Stmt>)
    ensures CensusHolds(StmtsRows(ss), StmtsCount(ss), StmtsTally(ss))
    decreases ss
  {
    if ss != [] {
      StmtsCensus(ss[..|ss| - 1]);
      StmtCensus(ss[|ss| - 1]);
      AgreesAppend(StmtsRows(ss[..|ss| - 1]), StmtsTally(ss[..|ss| - 1]), StmtRows(ss[|ss| - 1]), StmtTally(ss[|ss| - 1]));
    }
  }

  lemma {:induction false} ItemCensus(item: Item)
    ensures CensusHolds(ItemRows(item), ItemCount(item), ItemTally(item))
    decreases item
  {
    match item
    case TraitDecl(_, _, _, items) => AssocsCensus(items);
    case ImplBlock(_, _, _, items) => AssocsCensus(items);
    case FnDecl(sig, body) =>
      StmtsCensus(body);
      FnCensus(sig, body);
    case ModDecl(content) => ItemsCensus(content);
    case TypeDecl(_, _) =>
    case ConstDecl(_, init) => ExprCensus(init);
    case OtherItem =>
  }

  lemma {:induction false} ItemsCensus(items: seq<Item>)
    ensures CensusHolds(ItemsRows(items), ItemsCount(items), ItemsTally(items))
    decreases items
  {
    if items != [] {
      ItemsCensus(items[..|items| - 1]);
      ItemCensus(items[|items| - 1]);
      AgreesAppend(ItemsRows(items[..|items| - 1]), ItemsTally(items[..|items| - 1]), ItemRows(items[|items| - 1]), ItemTally(items[|items| - 1]));
    }
  }

  lemma {:induction false} AssocCensus(a: AssocItem)
    ensures CensusHolds(AssocRows(a), AssocCount(a), AssocTally(a))
    decreases a
  {
    match a
    case AssocFn(_, body) => StmtsCensus(body);
    case AssocType(_, _) =>
    case AssocConst(_, init) => if init.Some? { ExprCensus(init.value); }
    case AssocOther =>
  }

  lemma {:induction false} AssocsCensus(items: seq<AssocItem>)
    ensures CensusHolds(AssocsRows(items), AssocsCount(items), AssocsTally(items))
    decreases items
  {
    if items != [] {
      AssocsCensus(items[..|items| - 1]);
      AssocCensus(items[|items| - 1]);
      AgreesAppend(AssocsRows(items[..|items| - 1]), AssocsTally(items[..|items| - 1]), AssocRows(items[|items| - 1]), AssocTally(items[|items| - 1]));
    }
  }

  /** Over a whole file: one Block row per async block, one Function row per async free fn. */
  lemma FileCensus(file: File)
    ensures Agrees(FileRows(file), FileTally(file))
    ensures WellTagged(FileRows(file))
  {
    ItemsCensus(file.items);
  }

  /**
   * A free fn gets a row of its own exactly when it is async; that row comes
   * last, and its count never exceeds the async blocks in the body, equalling
   * the number of Block rows the body emitted when the body declares no fn.
   */
  lemma FunctionRowOnlyIfAsync(sig: Signature, body: seq<Stmt>)
    ensures var rs := ItemRows(FnDecl(sig, body));
      && (sig.isAsync <==> Count(rs, IsFunctionRow) > Count(StmtsRows(body), IsFunctionRow))
      && (!sig.isAsync ==> rs == StmtsRows(body))
      && (sig.isAsync ==>
            && rs[|rs| - 1] == AsyncRow(Function, Some(StmtsCount(body)))
            && StmtsCount(body) <= StmtsTally(body).asyncBlocks
            && (StmtsTally(body).freeFns == 0 ==> StmtsCount(body) == Count(rs[..|rs| - 1], IsBlockRow)))
  {
    var rs := ItemRows(FnDecl(sig, body));
    StmtsCensus(body);
    if sig.isAsync {
      var row := AsyncRow(Function, Some(StmtsCount(body)));
      assert rs[..|rs| - 1] == StmtsRows(body);
      CountAppend(StmtsRows(body), [row], IsFunctionRow);
      AgreesSingle(row);
    } else {
      assert rs == StmtsRows(body);
    }
  }

  /** Post-order: the row of an async block is its last row, after those of every async block inside it. */
  lemma BlockRowIsLast(ss: seq<Stmt>)
    ensures var rs := ExprRows(AsyncBlock(ss));
      && rs[|rs| - 1] == AsyncRow(Block, None)
      && Count(rs[..|rs| - 1], IsBlockRow) == StmtsTally(ss).asyncBlocks
  {
    var rs := ExprRows(AsyncBlock(ss));
    assert rs[..|rs| - 1] == StmtsRows(ss);
    StmtsCensus(ss);
  }

  // ----------------------------------------------------------- examples

  /** `async { async { } }` */
  function NestedPair(): Expr
  {
    AsyncBlock([ExprStmt(AsyncBlock([]))])
  }

  /** An async fn whose body holds two sibling async blocks, each with one inside: four Block rows, then a count of four. */
  lemma AsyncFnCountsFour()
    ensures ItemRows(FnDecl(PlainSig("f").(isAsync := true), [ExprStmt(NestedPair()), ExprStmt(NestedPair())]))
      == [AsyncRow(Block, None), AsyncRow(Block, None), AsyncRow(Block, None), AsyncRow(Block, None),
          AsyncRow(Function, Some(4))]
  {
    var body := [ExprStmt(NestedPair()), ExprStmt(NestedPair())];
    var inner: seq<Stmt> := [ExprStmt(AsyncBlock([]))];
    assert inner[..0] == [];
    assert body[..1] == [ExprStmt(NestedPair())] && body[..1][..0] == [];
    assert StmtsCount(inner) == 1;
    assert StmtsCount(body) == 4;
    assert StmtsRows(inner) == [AsyncRow(Block, None)];
    assert ExprRows(NestedPair()) == [AsyncRow(Block, None), AsyncRow(Block, None)];
  }

  /** `fn f() { async { } }`: the block has its row, the fn none. */
  lemma PlainFnBlockOnly()
    ensures ItemRows(FnDecl(PlainSig("f"), [ExprStmt(AsyncBlock([]))])) == [AsyncRow(Block, None)]
  {
    assert [ExprStmt(AsyncBlock([]))][..0] == [];
  }

  // ------------------------------------------------------- the visitor

  /**
   * A visitor with its own accumulator. The log is shared by every visitor
   * of one file; `count` is this visitor's own.
   */
  class Stats {
    const log: Sink.Log<AsyncRow>
    var count: nat

    constructor (log: Sink.Log<AsyncRow>)
      ensures this.log == log && count == 0
    {
      this.log := log;
      count := 0;
    }

    method VisitExpr(e: Expr)
      modifies this, log
      ensures log.rows == old(log.rows) + ExprRows(e)
      ensures count == old(count) + ExprCount(e)
      decreases e, 2
    {
      match e {
        case UnsafeBlock(ss) => VisitStmts(ss);
        case AsyncBlock(ss) => VisitExprAsync(e);
        case Closure(_, _, body) => VisitExpr(body);
        case Call(func, args) =>
          VisitExpr(func);
          VisitExprs(args);
          AppendAssoc(old(log.rows), ExprRows(func), ExprsRows(args));
        case PathExpr(_) =>
        case BlockExpr(ss) => VisitStmts(ss);
        case OtherExpr(cs, _) => VisitExprs(cs);
      }
    }

    /** An async block: its contents first, then one more for the accumulator and its row. */
    method VisitExprAsync(e: Expr)
      requires e.AsyncBlock?
      modifies this, log
      ensures log.rows == old(log.rows) + ExprRows(e)
      ensures count == old(count) + ExprCount(e)
      decreases e, 1
    {
      VisitStmts(e.stmts);
      count := count + 1;
      log.Push(AsyncRow(Block, None));
    }

    method VisitExprs(es: seq<Expr>)
      modifies this, log
      ensures log.rows == old(log.rows) + ExprsRows(es)
      ensures count == old(count) + ExprsCount(es)
      decreases es
    {
      var i := 0;
      while i < |es|
        invariant i <= |es|
        invariant log.rows == old(log.rows) + ExprsRows(es[..i])
        invariant count == old(count) + ExprsCount(es[..i])
      {
        assert es[..i + 1][..i] == es[..i];
        VisitExpr(es[i]);
        AppendAssoc(old(log.rows), ExprsRows(es[..i]), ExprRows(es[i]));
        i := i + 1;
      }
      assert es[..|es|] == es;
    }

    method VisitStmt(s: Stmt)
      modifies this, log
      ensures log.rows == old(log.rows) + StmtRows(s)
      ensures count == old(count) + StmtCount(s)
      decreases s
    {
      match s {
        case Local(_, init) =>
          if init.Some? {
            VisitExpr(init.value);
          }
        case ItemStmt(item) => VisitItem(item);
        case ExprStmt(e) => VisitExpr(e);
      }
    }

    method VisitStmts(ss: seq<Stmt>)
      modifies this, log
      ensures log.rows == old(log.rows) + StmtsRows(ss)
      ensures count == old(count) + StmtsCount(ss)
      decreases ss
    {
      var i := 0;
      while i < |ss|
        invariant i <= |ss|
        invariant log.rows == old(log.rows) + StmtsRows(ss[..i])
        invariant count == old(count) + StmtsCount(ss[..i])
      {
        assert ss[..i + 1][..i] == ss[..i];
        VisitStmt(ss[i]);
        AppendAssoc(old(log.rows), StmtsRows(ss[..i]), StmtRows(ss[i]));
        i := i + 1;
      }
      assert ss[..|ss|] == ss;
    }

    method VisitItem(item: Item)
      modifies this, log
      ensures log.rows == old(log.rows) + ItemRows(item)
      ensures count == old(count) + ItemCount(item)
      decreases item, 2
    {
      match item {
        case TraitDecl(_, _, _, items) => VisitAssocs(items);
        case ImplBlock(_, _, _, items) => VisitAssocs(items);
        case FnDecl(_, _) => VisitItemFn(item);
        case ModDecl(content) => VisitItems(content);
        case TypeDecl(_, _) =>
        case ConstDecl(_, init) => VisitExpr(init);
        case OtherItem =>
      }
    }

    /**
     * A free fn: its body under a fresh visitor whose accumulator starts at
     * zero; then, only if the fn is async, a Function row with what that
     * accumulator reached. This visitor's own accumulator is left as it was.
     */
    method VisitItemFn(item: Item)
      requires item.FnDecl?
      modifies log
      ensures log.rows == old(log.rows) + ItemRows(item)
      decreases item, 1
    {
      var child := new Stats(log);
      child.VisitStmts(item.body);
      if !item.sig.isAsync {
        return;
      }
      log.Push(AsyncRow(Function, Some(child.count)));
    }

    method VisitItems(items: seq<Item>)
      modifies this, log
      ensures log.rows == old(log.rows) + ItemsRows(items)
      ensures count == old(count) + ItemsCount(items)
      decreases items
    {
      var i := 0;
      while i < |items|
        invariant i <= |items|
        invariant log.rows == old(log.rows) + ItemsRows(items[..i])
        invariant count == old(count) + ItemsCount(items[..i])
      {
        assert items[..i + 1][..i] == items[..i];
        VisitItem(items[i]);
        AppendAssoc(old(log.rows), ItemsRows(items[..i]), ItemRows(items[i]));
        i := i + 1;
      }
      assert items[..|items|] == items;
    }

    method VisitAssoc(a: AssocItem)
      modifies this, log
      ensures log.rows == old(log.rows) + AssocRows(a)
      ensures count == old(count) + AssocCount(a)
      decreases a
    {
      match a {
        case AssocFn(_, body) => VisitStmts(body);
        case AssocType(_, _) =>
        case AssocConst(_, init) =>
          if init.Some? {
            VisitExpr(init.value);
          }
        case AssocOther =>
      }
    }

    method VisitAssocs(items: seq<AssocItem>)
      modifies this, log
      ensures log.rows == old(log.rows) + AssocsRows(items)
      ensures count == old(count) + AssocsCount(items)
      decreases items
    {
      var i := 0;
      while i < |items|
        invariant i <= |items|
        invariant log.rows == old(log.rows) + AssocsRows(items[..i])
        invariant count == old(count) + AssocsCount(items[..i])
      {
        assert items[..i + 1][..i] == items[..i];
        VisitAssoc(items[i]);
        AppendAssoc(old(log.rows), AssocsRows(items[..i]), AssocRows(items[i]));
        i := i + 1;
      }
      assert items[..|items|] == items;
    }
  }

  /** The runner's collect step: visit the file with a root visitor whose accumulator starts at zero. */
  method Collect(file: File, log: Sink.Log<AsyncRow>)
    modifies log
    ensures log.rows == old(log.rows) + FileRows(file)
  {
    var stats := new Stats(log);
    stats.VisitItems(file.items);
  }
}
