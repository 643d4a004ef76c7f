/**
 * The closure classifier. It emits one row per closure expression, tagged
 * with whether the closure was reached inside the callee of a call
 * (`(|x| x)(1)`) rather than anywhere else (`f(|x| x)`, `let g = |x| x;`).
 * The flag is a read-only context: a call visits its callee under `true`
 * and its arguments under `false`, a closure visits its own body under
 * `false`, and every other node passes on the flag it was given. A file is
 * visited under `false`.
 */
module Closures {
  import opened Wrappers
  import opened Syntax
  import opened Census
  import Sink
  import opened Seqs

  /** One row of the closures table (its `is_try_like` column holds the flag). */
  datatype ClosureRow = ClosureRow(isInCall: bool)

  // ------------------------------------------------- rows, as functions

  function ExprRows(e: Expr, inCall: bool): seq<ClosureRow>
  {
    match e
    case Closure(_, _, body) => [ClosureRow(inCall)] + ExprRows(body, false)
    case Call(func, args) => ExprRows(func, true) + ExprsRows(args, false)
    case UnsafeBlock(ss) => StmtsRows(ss, inCall)
    case AsyncBlock(ss) => StmtsRows(ss, inCall)
    case PathExpr(_) => []
    case BlockExpr(ss) => StmtsRows(ss, inCall)
    case OtherExpr(cs, _) => ExprsRows(cs, inCall)
  }

  function ExprsRows(es: seq<Expr>, inCall: bool): seq<ClosureRow>
  {
    if es == [] then [] else ExprsRows(es[..|es| - 1], inCall) + ExprRows(es[|es| - 1], inCall)
  }

  function StmtRows(s: Stmt, inCall: bool): seq<ClosureRow>
  {
    match s
    case Local(_, init) => if init.Some? then ExprRows(init.value, inCall) else []
    case ItemStmt(item) => ItemRows(item, inCall)
    case ExprStmt(e) => ExprRows(e, inCall)
  }

  function StmtsRows(ss: seq<Stmt>, inCall: bool): seq<ClosureRow>
  {
    if ss == [] then [] else StmtsRows(ss[..|ss| - 1], inCall) + StmtRows(ss[|ss| - 1], inCall)
  }

  function ItemRows(item: Item, inCall: bool): seq<ClosureRow>
  {
    match item
    case TraitDecl(_, _, _, items) => AssocsRows(items, inCall)
    case ImplBlock(_, _, _, items) => AssocsRows(items, inCall)
    case FnDecl(_, body) => StmtsRows(body, inCall)
    case ModDecl(content) => ItemsRows(content, inCall)
    case TypeDecl(_, _) => []
    case ConstDecl(_, init) => ExprRows(init, inCall)
    case OtherItem => []
  }

  function ItemsRows(items: seq<Item>, inCall: bool): seq<ClosureRow>
  {
    if items == [] then [] else ItemsRows(items[..|items| - 1], inCall) + ItemRows(items[|items| - 1], inCall)
  }

  function AssocRows(a: AssocItem, inCall: bool): seq<ClosureRow>
  {
    match a
    case AssocFn(_, body) => StmtsRows(body, inCall)
    case AssocType(_, _) => []
    case AssocConst(_, init) => if init.Some? then ExprRows(init.value, inCall) else []
    case AssocOther => []
  }

  function AssocsRows(items: seq<AssocItem>, inCall: bool): seq<ClosureRow>
  {
    if items == [] then [] else AssocsRows(items[..|items| - 1], inCall) + AssocRows(items[|items| - 1], inCall)
  }

  /** The rows of a whole file, which is visited with the flag false. */
  function FileRows(file: File): seq<ClosureRow>
  {
    ItemsRows(file.items, false)
  }

  // ------------------------------------------- what the rows amount to

  /*
   * Census: one row per closure expression reached (the closure counter of
   * the stand-alone closure-counting tool gives the same number), and where
   * no call is reached at all, no row carries a flag the context did not
   * already carry.
   */

  lemma {:induction false} ExprRowsCensus(e: Expr, inCall: bool)
    ensures |ExprRows(e, inCall)| == ExprTally(e).closures
    ensures ExprTally(e).calls == 0 ==> forall r <- ExprRows(e, inCall) :: r.isInCall ==> inCall
    decreases e
  {
    match e
    case Closure(_, _, body) => ExprRowsCensus(body, false);
    case Call(func, args) => ExprRowsCensus(func, true); ExprsRowsCensus(args, false);
    case UnsafeBlock(ss) => StmtsRowsCensus(ss, inCall);
    case AsyncBlock(ss) => StmtsRowsCensus(ss, inCall);
    case PathExpr(_) =>
    case BlockExpr(ss) => StmtsRowsCensus(ss, inCall);
    case OtherExpr(cs, _) => ExprsRowsCensus(cs, inCall);
  }

  lemma {:induction false} ExprsRowsCensus(es: seq<Expr>, inCall: bool)
    ensures |ExprsRows(es, inCall)| == ExprsTally(es).closures
    ensures ExprsTally(es).calls == 0 ==> forall r <- ExprsRows(es, inCall) :: r.isInCall ==> inCall
    decreases es
  {
    if es != [] {
      ExprsRowsCensus(es[..|es| - 1], inCall);
      ExprRowsCensus(es[|es| - 1], inCall);
    }
  }

  lemma {:induction false} StmtRowsCensus(s: Stmt, inCall: bool)
    ensures |StmtRows(s, inCall)| == StmtTally(s).closures
    ensures StmtTally(s).calls == 0 ==> forall r <- StmtRows(s, inCall) :: r.isInCall ==> inCall
    decreases s
  {
    match s
    case Local(_, init) => if init.Some? { ExprRowsCensus(init.value, inCall); }
    case ItemStmt(item) => ItemRowsCensus(item, inCall);
    case ExprStmt(e) => ExprRowsCensus(e, inCall);
  }

  lemma {:induction false} StmtsRowsCensus(ss: seq<Stmt>, inCall: bool)
    ensures |StmtsRows(ss, inCall)| == StmtsTally(ss).closures
    ensures StmtsTally(ss).calls == 0 ==> forall r <- StmtsRows(ss, inCall) :: r.isInCall ==> inCall
    decreases ss
  {
    if ss != [] {
      StmtsRowsCensus(ss[..|ss| - 1], inCall);
      StmtRowsCensus(ss[|ss| - 1], inCall);
    }
  }

  lemma {:induction false} ItemRowsCensus(item: Item, inCall: bool)
    ensures |ItemRows(item, inCall)| == ItemTally(item).closures
    ensures ItemTally(item).calls == 0 ==> forall r <- ItemRows(item, inCall) :: r.isInCall ==> inCall
    decreases item
  {
    match item
    case TraitDecl(_, _, _, items) => AssocsRowsCensus(items, inCall);
    case ImplBlock(_, _, _, items) => AssocsRowsCensus(items, inCall);
    case FnDecl(_, body) => StmtsRowsCensus(body, inCall);
    case ModDecl(content) => ItemsRowsCensus(content, inCall);
    case TypeDecl(_, _) =>
    case ConstDecl(_, init) => ExprRowsCensus(init, inCall);
    case OtherItem =>
  }

  lemma {:induction false} ItemsRowsCensus(items: seq<Item>, inCall: bool)
    ensures |ItemsRows(items, inCall)| == ItemsTally(items).closures
    ensures ItemsTally(items).calls == 0 ==> forall r <- ItemsRows(items, inCall) :: r.isInCall ==> inCall
    decreases items
  {
    if items != [] {
      ItemsRowsCensus(items[..|items| - 1], inCall);
      ItemRowsCensus(items[|items| - 1], inCall);
    }
  }

  lemma {:induction false} AssocRowsCensus(a: AssocItem, inCall: bool)
    ensures |AssocRows(a, inCall)| == AssocTally(a).closures
    ensures AssocTally(a).calls == 0 ==> forall r <- AssocRows(a, inCall) :: r.isInCall ==> inCall
    decreases a
  {
    match a
    case AssocFn(_, body) => StmtsRowsCensus(body, inCall);
    case AssocType(_, _) =>
    case AssocConst(_, init) => if init.Some? { ExprRowsCensus(init.value, inCall); }
    case AssocOther =>
  }

  lemma {:induction false} AssocsRowsCensus(items: seq<AssocItem>, inCall: bool)
    ensures |AssocsRows(items, inCall)| == AssocsTally(items).closures
    ensures AssocsTally(items).calls == 0 ==> forall r <- AssocsRows(items, inCall) :: r.isInCall ==> inCall
    decreases items
  {
    if items != [] {
      AssocsRowsCensus(items[..|items| - 1], inCall);
      AssocRowsCensus(items[|items| - 1], inCall);
    }
  }

  /** A file yields one row per closure; without calls, every row is false. */
  lemma FileRowsCensus(file: File)
    ensures |FileRows(file)| == FileTally(file).closures
    ensures FileTally(file).calls == 0 ==> forall r <- FileRows(file) :: !r.isInCall
  {
    ItemsRowsCensus(file.items, false);
  }

  /**
   * Whatever context reaches a closure, its row comes first and the rows of
   * its body are those of the body under `false`.
   */
  lemma {:induction false} ClosureRowFirst(params: seq<Type>, output: ReturnType, body: Expr, inCall: bool)
    ensures var rs := ExprRows(Closure(params, output, body), inCall);
      |rs| == 1 + ExprTally(body).closures
      && rs[0] == ClosureRow(inCall)
      && rs[1..] == ExprRows(body, false)
  {
    ExprRowsCensus(body, false);
  }

  /** A call emits no row of its own, and its rows do not depend on the context it is reached in. */
  lemma {:induction false} CallIgnoresContext(func: Expr, args: seq<Expr>)
    ensures ExprRows(Call(func, args), true) == ExprRows(Call(func, args), false)
    ensures |ExprRows(Call(func, args), false)| == ExprTally(func).closures + ExprsTally(args).closures
  {
    ExprRowsCensus(func, true);
    ExprsRowsCensus(args, false);
  }

  // ----------------------------------------------------------- examples

  /** `fn main() { (|x| x)(1); }`: the closure is the callee, so its row is true. */
  lemma ImmediatelyCalledClosure()
    ensures FileRows(File([FnDecl(PlainSig("main"),
              [ExprStmt(Call(Closure([], DefaultReturn, PathExpr(Name("x"))), [Literal]))])]))
            == [ClosureRow(true)]
  {
    var callee := Closure([], DefaultReturn, PathExpr(Name("x")));
    assert ExprRows(callee, true) == [ClosureRow(true)];
    assert ExprsRows([Literal], false) == [];
    var body := [ExprStmt(Call(callee, [Literal]))];
    assert ExprRows(Call(callee, [Literal]), false) == [ClosureRow(true)];
    assert body[..0] == [];
    assert StmtsRows(body, false) == [ClosureRow(true)];
    var items := [FnDecl(PlainSig("main"), body)];
    assert items[..0] == [];
    assert ItemsRows(items, false) == [ClosureRow(true)];
  }

  /** `fn main() { f(|x| x); }`: the closure is an argument, so its row is false. */
  lemma ClosureAsArgument()
    ensures FileRows(File([FnDecl(PlainSig("main"),
              [ExprStmt(Call(PathExpr(Name("f")), [Closure([], DefaultReturn, PathExpr(Name("x")))]))])]))
            == [ClosureRow(false)]
  {
  }

  /**
   * `fn main() { let g = |a| (|b| b)(a); }`: the outer closure is reached in a
   * `let`, the inner one as a callee inside the outer body; the outer row comes first.
   */
  lemma NestedClosures()
    ensures FileRows(File([FnDecl(PlainSig("main"),
              [Local(None, Some(Closure([], DefaultReturn,
                 Call(Closure([], DefaultReturn, PathExpr(Name("b"))), [PathExpr(Name("a"))]))))])]))
            == [ClosureRow(false), ClosureRow(true)]
  {
  }

  // ------------------------------------------------------ the visitor

  /**
   * The visitor. Its flag never changes: where the flag must change, a new
   * visitor sharing the same log is built.
   */
  class Stats {
    const log: Sink.Log<ClosureRow>
    const isInCall: bool

    constructor (log: Sink.Log<ClosureRow>, isInCall: bool)
      ensures this.log == log && this.isInCall == isInCall
    {
      this.log := log;
      this.isInCall := isInCall;
    }

    method VisitExpr(e: Expr)
      modifies log
      ensures log.rows == old(log.rows) + ExprRows(e, isInCall)
      decreases e, 2
    {
      match e {
        case Closure(_, _, body) => VisitExprClosure(e);
        case Call(func, args) => VisitExprCall(e);
        case UnsafeBlock(ss) => VisitStmts(ss);
        case AsyncBlock(ss) => VisitStmts(ss);
        case PathExpr(_) =>
        case BlockExpr(ss) => VisitStmts(ss);
        case OtherExpr(cs, _) => VisitExprs(cs);
      }
    }

    /** A closure: its row first, then its body under a fresh visitor whose flag is false. */
    method VisitExprClosure(e: Expr)
      requires e.Closure?
      modifies log
      ensures log.rows == old(log.rows) + ExprRows(e, isInCall)
      decreases e, 1
    {
      log.Push(ClosureRow(isInCall));
      var child := new Stats(log, false);
      child.VisitExpr(e.body);
    }

    /** A call: the callee under a visitor whose flag is true, each argument under one whose flag is false. */
    method VisitExprCall(e: Expr)
      requires e.Call?
      modifies log
      ensures log.rows == old(log.rows) + ExprRows(e, isInCall)
      decreases e, 1
    {
      var callee := new Stats(log, true);
      callee.VisitExpr(e.func);
      var child := new Stats(log, false);
      var i := 0;
      while i < |e.args|
        invariant i <= |e.args|
        invariant log.rows == old(log.rows) + ExprRows(e.func, true) + ExprsRows(e.args[..i], false)
      {
        assert e.args[..i + 1][..i] == e.args[..i];
        child.VisitExpr(e.args[i]);
        AppendAssoc(old(log.rows) + ExprRows(e.func, true), ExprsRows(e.args[..i], false), ExprRows(e.args[i], false));
        i := i + 1;
      }
      assert e.args[..|e.args|] == e.args;
      AppendAssoc(old(log.rows), ExprRows(e.func, true), ExprsRows(e.args, false));
    }

    method VisitExprs(es: seq<Expr>)
      modifies log
      ensures log.rows == old(log.rows) + ExprsRows(es, isInCall)
      decreases es
    {
      var i := 0;
      while i < |es|
        invariant i <= |es|
        invariant log.rows == old(log.rows) + ExprsRows(es[..i], isInCall)
      {
        assert es[..i + 1][..i] == es[..i];
        VisitExpr(es[i]);
        AppendAssoc(old(log.rows), ExprsRows(es[..i], isInCall), ExprRows(es[i], isInCall));
        i := i + 1;
      }
      assert es[..|es|] == es;
    }

    method VisitStmt(s: Stmt)
      modifies log
      ensures log.rows == old(log.rows) + StmtRows(s, isInCall)
      decreases s
    {
      match s {
        case Local(_, init) =>
          if init.Some? {
            VisitExpr(init.value);
          }
        case ItemStmt(item) => VisitItem(item);
        case ExprStmt(e) => VisitExpr(e);
      }
    }

    method VisitStmts(ss: seq<Stmt>)
      modifies log
      ensures log.rows == old(log.rows) + StmtsRows(ss, isInCall)
      decreases ss
    {
      var i := 0;
      while i < |ss|
        invariant i <= |ss|
        invariant log.rows == old(log.rows) + StmtsRows(ss[..i], isInCall)
      {
        assert ss[..i + 1][..i] == ss[..i];
        VisitStmt(ss[i]);
        AppendAssoc(old(log.rows), StmtsRows(ss[..i], isInCall), StmtRows(ss[i], isInCall));
        i := i + 1;
      }
      assert ss[..|ss|] == ss;
    }

    method VisitItem(item: Item)
      modifies log
      ensures log.rows == old(log.rows) + ItemRows(item, isInCall)
      decreases item
    {
      match item {
        case TraitDecl(_, _, _, items) => VisitAssocs(items);
        case ImplBlock(_, _, _, items) => VisitAssocs(items);
        case FnDecl(_, body) => VisitStmts(body);
        case ModDecl(content) => VisitItems(content);
        case TypeDecl(_, _) =>
        case ConstDecl(_, init) => VisitExpr(init);
        case OtherItem =>
      }
    }

    method VisitItems(items: seq<Item>)
      modifies log
      ensures log.rows == old(log.rows) + ItemsRows(items, isInCall)
      decreases items
    {
      var i := 0;
      while i < |items|
        invariant i <= |items|
        invariant log.rows == old(log.rows) + ItemsRows(items[..i], isInCall)
      {
        assert items[..i + 1][..i] == items[..i];
        VisitItem(items[i]);
        AppendAssoc(old(log.rows), ItemsRows(items[..i], isInCall), ItemRows(items[i], isInCall));
        i := i + 1;
      }
      assert items[..|items|] == items;
    }

    method VisitAssoc(a: AssocItem)
      modifies log
      ensures log.rows == old(log.rows) + AssocRows(a, isInCall)
      decreases a
    {
      match a {
        case AssocFn(_, body) => VisitStmts(body);
        case AssocType(_, _) =>
        case AssocConst(_, init) =>
          if init.Some? {
            VisitExpr(init.value);
          }
        case AssocOther =>
      }
    }

    method VisitAssocs(items: seq<AssocItem>)
      modifies log
      ensures log.rows == old(log.rows) + AssocsRows(items, isInCall)
      decreases items
    {
      var i := 0;
      while i < |items|
        invariant i <= |items|
        invariant log.rows == old(log.rows) + AssocsRows(items[..i], isInCall)
      {
        assert items[..i + 1][..i] == items[..i];
        VisitAssoc(items[i]);
        AppendAssoc(old(log.rows), AssocsRows(items[..i], isInCall), AssocRows(items[i], isInCall));
        i := i + 1;
      }
      assert items[..|items|] == items;
    }
  }

  /** The runner's collect step: visit the file with a root visitor whose flag is false. */
  method Collect(file: File, log: Sink.Log<ClosureRow>)
    modifies log
    ensures log.rows == old(log.rows) + FileRows(file)
  {
    var stats := new Stats(log, false);
    stats.VisitItems(file.items);
  }
}
