/**
 * The unsafe-code classifier. It emits
 *   - one Block row for every `unsafe { ... }` expression, after the rows of
 *     everything inside it (post-order), and adds one to the accumulator of
 *     the visitor that reached it;
 *   - one Function row for every free `fn` item, unsafe or not, after the rows
 *     of its body, holding the number of unsafe blocks its body added to a
 *     fresh accumulator (a nested `fn` has its own accumulator and adds nothing
 *     to its parent's; methods of impls and traits have none and add to the
 *     enclosing one);
 *   - one Transmute row for every call whose callee is a path whose last
 *     segment is `transmute` or `transmute_copy`, after the rows of the callee
 *     and the arguments, holding the first and the second type argument of
 *     that segment as text.
 * Rendering a type as text is the parser library's business: it is the
 * parameter `render`.
 */
module UnsafeCode {
  import opened Wrappers
  import opened Syntax
  import opened Census
  import Sink
  import opened Seqs

  datatype UnsafeCodeType = Function | Block

  datatype UnsafeRow =
    | CodeRow(kind: UnsafeCodeType, blockCount: Option<nat>)           // the unsafe_code table
    | TransmuteRow(fromType: Option<string>, toType: Option<string>)   // the transmutes table

  // ------------------------------------------------ transmute detection

  /** The texts of the type arguments of a segment, in order; lifetime, const, binding and constraint arguments are skipped. */
  function TypeArgTexts(args: seq<GenericArg>, render: Type -> string): seq<string>
  {
    if args == [] then []
    else TypeArgTexts(args[..|args| - 1], render)
         + (if args[|args| - 1].TypeArg? then [render(args[|args| - 1].ty)] else [])
  }

  /** What the parameter collector gathers from the last segment of a callee path. */
  function CallParams(seg: PathSegment, render: Type -> string): seq<string>
  {
    match seg.arguments
    case AngleBracketed(args) => TypeArgTexts(args, render)
    case NoArguments => []
    case Parenthesized(_, _) => []
  }

  function Nth(ps: seq<string>, i: nat): Option<string>
  {
    if i < |ps| then Some(ps[i]) else None
  }

  /** The row a call adds after the rows of its callee and arguments. */
  function CallRows(func: Expr, render: Type -> string): seq<UnsafeRow>
  {
    if IsTransmuteCallee(func) then
      var ps := CallParams(func.path.segments[|func.path.segments| - 1], render);
      [TransmuteRow(Nth(ps, 0), Nth(ps, 1))]
    else []
  }

  // ------------------------------------------------- rows, as functions

  function ExprRows(e: Expr, render: Type -> string): seq<UnsafeRow>
  {
    match e
    case UnsafeBlock(ss) => StmtsRows(ss, render) + [CodeRow(Block, None)]
    case AsyncBlock(ss) => StmtsRows(ss, render)
    case Closure(_, _, body) => ExprRows(body, render)
    case Call(func, args) => ExprRows(func, render) + ExprsRows(args, render) + CallRows(func, render)
    case PathExpr(_) => []
    case BlockExpr(ss) => StmtsRows(ss, render)
    case OtherExpr(cs, _) => ExprsRows(cs, render)
  }

  function ExprsRows(es: seq<Expr>, render: Type -> string): seq<UnsafeRow>
  {
    if es == [] then [] else ExprsRows(es[..|es| - 1], render) + ExprRows(es[|es| - 1], render)
  }

  function StmtRows(s: Stmt, render: Type -> string): seq<UnsafeRow>
  {
    match s
    case Local(_, init) => if init.Some? then ExprRows(init.value, render) else []
    case ItemStmt(item) => ItemRows(item, render)
    case ExprStmt(e) => ExprRows(e, render)
  }

  function StmtsRows(ss: seq<Stmt>, render: Type -> string): seq<UnsafeRow>
  {
    if ss == [] then [] else StmtsRows(ss[..|ss| - 1], render) + StmtRows(ss[|ss| - 1], render)
  }

  function ItemRows(item: Item, render: Type -> string): seq<UnsafeRow>
  {
    match item
    case TraitDecl(_, _, _, items) => AssocsRows(items, render)
    case ImplBlock(_, _, _, items) => AssocsRows(items, render)
    case FnDecl(_, body) => StmtsRows(body, render) + [CodeRow(Function, Some(StmtsCount(body)))]
    case ModDecl(content) => ItemsRows(content, render)
    case TypeDecl(_, _) => []
    case ConstDecl(_, init) => ExprRows(init, render)
    case OtherItem => []
  }

  function ItemsRows(items: seq<Item>, render: Type -> string): seq<UnsafeRow>
  {
    if items == [] then [] else ItemsRows(items[..|items| - 1], render) + ItemRows(items[|items| - 1], render)
  }

  function AssocRows(a: AssocItem, render: Type -> string): seq<UnsafeRow>
  {
    match a
    case AssocFn(_, body) => StmtsRows(body, render)
    case AssocType(_, _) => []
    case AssocConst(_, init) => if init.Some? then ExprRows(init.value, render) else []
    case AssocOther => []
  }

  function AssocsRows(items: seq<AssocItem>, render: Type -> string): seq<UnsafeRow>
  {
    if items == [] then [] else AssocsRows(items[..|items| - 1], render) + AssocRows(items[|items| - 1], render)
  }

  function FileRows(file: File, render: Type -> string): seq<UnsafeRow>
  {
    ItemsRows(file.items, render)
  }

  // ------------------------------ what a visitor adds to its accumulator

  /** Unsafe blocks reached by the visitor itself: all of them except those inside nested free fns. */
  function ExprCount(e: Expr): nat
  {
    match e
    case UnsafeBlock(ss) => StmtsCount(ss) + 1
    case AsyncBlock(ss) => StmtsCount(ss)
    case Closure(_, _, body) => ExprCount(body)
    case Call(func, args) => ExprCount(func) + ExprsCount(args)
    case PathExpr(_) => 0
    case BlockExpr(ss) => StmtsCount(ss)
    case OtherExpr(cs, _) => ExprsCount(cs)
  }

  function ExprsCount(es: seq<Expr>): nat
  {
    if es == [] then 0 else ExprsCount(es[..|es| - 1]) + ExprCount(es[|es| - 1])
  }

  function StmtCount(s: Stmt): nat
  {
    match s
    case Local(_, init) => if init.Some? then ExprCount(init.value) else 0
    case ItemStmt(item) => ItemCount(item)
    case ExprStmt(e) => ExprCount(e)
  }

  function StmtsCount(ss: seq<Stmt>): nat
  {
    if ss == [] then 0 else StmtsCount(ss[..|ss| - 1]) + StmtCount(ss[|ss| - 1])
  }

  function ItemCount(item: Item): nat
  {
    match item
    case TraitDecl(_, _, _, items) => AssocsCount(items)
    case ImplBlock(_, _, _, items) => AssocsCount(items)
    case FnDecl(_, _) => 0
    case ModDecl(content) => ItemsCount(content)
    case TypeDecl(_, _) => 0
    case ConstDecl(_, init) => ExprCount(init)
    case OtherItem => 0
  }

  function ItemsCount(items: seq<Item>): nat
  {
    if items == [] then 0 else ItemsCount(items[..|items| - 1]) + ItemCount(items[|items| - 1])
  }

  function AssocCount(a: AssocItem): nat
  {
    match a
    case AssocFn(_, body) => StmtsCount(body)
    case AssocType(_, _) => 0
    case AssocConst(_, init) => if init.Some? then ExprCount(init.value) else 0
    case AssocOther => 0
  }

  function AssocsCount(items: seq<AssocItem>): nat
  {
    if items == [] then 0 else AssocsCount(items[..|items| - 1]) + AssocCount(items[|items| - 1])
  }

  // ------------------------------------------- what the rows amount to

  /** How many rows of each kind a sequence of rows holds. */
  datatype Emitted = Emitted(blocks: nat, functions: nat, transmutes: nat)

  function AddEmitted(a: Emitted, b: Emitted): Emitted
  {
    Emitted(a.blocks + b.blocks, a.functions + b.functions, a.transmutes + b.transmutes)
  }

  /** What one row adds to the totals. */
  function RowEmitted(r: UnsafeRow): Emitted
  {
    match r
    case CodeRow(Block, _) => Emitted(1, 0, 0)
    case CodeRow(Function, _) => Emitted(0, 1, 0)
    case TransmuteRow(_, _) => Emitted(0, 0, 1)
  }

  /** How many Block, Function and transmute rows `rs` holds. */
  function RowsEmitted(rs: seq<UnsafeRow>): Emitted
  {
    if rs == [] then Emitted(0, 0, 0)
    else AddEmitted(RowsEmitted(rs[..|rs| - 1]), RowEmitted(rs[|rs| - 1]))
  }

  lemma {:induction false} RowsEmittedAppend(a: seq<UnsafeRow>, b: seq<UnsafeRow>)
    ensures RowsEmitted(a + b) == AddEmitted(RowsEmitted(a), RowsEmitted(b))
    decreases |b|
  {
    if b == [] {
      assert a + b == a;
    } else {
      var b', x := b[..|b| - 1], b[|b| - 1];
      assert (a + b)[..|a + b| - 1] == a + b' && (a + b)[|a + b| - 1] == x;
      RowsEmittedAppend(a, b');
      AddEmittedAssoc(RowsEmitted(a), RowsEmitted(b'), RowEmitted(x));
    }
  }

  lemma AddEmittedAssoc(x: Emitted, y: Emitted, z: Emitted)
    ensures AddEmitted(AddEmitted(x, y), z) == AddEmitted(x, AddEmitted(y, z))
  {
  }

  lemma RowsEmittedSingle(r: UnsafeRow)
    ensures RowsEmitted([r]) == RowEmitted(r)
    ensures WellTagged([r]) == RowTagged(r)
  {
    assert [r][..0] == [];
  }

  /** The rows agree with the census: one Block row per unsafe block, one Function row per free fn, one Transmute row per transmute call. */
  predicate Agrees(em: Emitted, t: Tally)
  {
    em.blocks == t.unsafeBlocks && em.functions == t.freeFns && em.transmutes == t.transmuteCalls
  }

  /** A Block row carries no count; a Function row always carries one. */
  predicate RowTagged(r: UnsafeRow)
  {
    r.CodeRow? ==> (r.blockCount.Some? <==> r.kind == Function)
  }

  /** Every row of `rs` is tagged as its kind demands. */
  predicate WellTagged(rs: seq<UnsafeRow>)
  {
    rs == [] || (WellTagged(rs[..|rs| - 1]) && RowTagged(rs[|rs| - 1]))
  }

  lemma {:induction false} WellTaggedEvery(rs: seq<UnsafeRow>)
    ensures WellTagged(rs) <==> forall r <- rs :: RowTagged(r)
    decreases |rs|
  {
    if rs != [] {
      var init, x := rs[..|rs| - 1], rs[|rs| - 1];
      WellTaggedEvery(init);
      assert rs == init + [x];
      assert forall r <- rs :: r in init || r == x;
    }
  }

  /** Rows that agree with two censuses, concatenated, agree with their sum. */
  lemma AgreesAppend(a: seq<UnsafeRow>, ta: Tally, b: seq<UnsafeRow>, tb: Tally)
    requires Agrees(RowsEmitted(a), ta) && WellTagged(a)
    requires Agrees(RowsEmitted(b), tb) && WellTagged(b)
    ensures Agrees(RowsEmitted(a + b), Plus(ta, tb)) && WellTagged(a + b)
  {
    RowsEmittedAppend(a, b);
    AgreesAdd(RowsEmitted(a), ta, RowsEmitted(b), tb);
    WellTaggedAppend(a, b);
  }

  lemma AgreesAdd(ea: Emitted, ta: Tally, eb: Emitted, tb: Tally)
    requires Agrees(ea, ta) && Agrees(eb, tb)
    ensures Agrees(AddEmitted(ea, eb), Plus(ta, tb))
  {
  }

  lemma {:induction false} WellTaggedAppend(a: seq<UnsafeRow>, b: seq<UnsafeRow>)
    requires WellTagged(a) && WellTagged(b)
    ensures WellTagged(a + b)
    decreases |b|
  {
    if b == [] {
      assert a + b == a;
    } else {
      var b', x := b[..|b| - 1], b[|b| - 1];
      assert (a + b)[..|a + b| - 1] == a + b' && (a + b)[|a + b| - 1] == x;
      WellTaggedAppend(a, b');
    }
  }

  /** The step of the census for an unsafe block, given the census of its statements. */
  lemma UnsafeBlockCensus(ss: seq<Stmt>, render: Type -> string)
    requires Agrees(RowsEmitted(StmtsRows(ss, render)), StmtsTally(ss))
    requires WellTagged(StmtsRows(ss, render))
    requires StmtsCount(ss) <= StmtsTally(ss).unsafeBlocks
    requires StmtsTally(ss).freeFns == 0 ==> StmtsCount(ss) == StmtsTally(ss).unsafeBlocks
    ensures Agrees(RowsEmitted(ExprRows(UnsafeBlock(ss), render)), ExprTally(UnsafeBlock(ss)))
    ensures WellTagged(ExprRows(UnsafeBlock(ss), render))
    ensures ExprCount(UnsafeBlock(ss)) <= ExprTally(UnsafeBlock(ss)).unsafeBlocks
    ensures ExprTally(UnsafeBlock(ss)).freeFns == 0 ==> ExprCount(UnsafeBlock(ss)) == ExprTally(UnsafeBlock(ss)).unsafeBlocks
  {
    RowsEmittedSingle(CodeRow(Block, None));
    AgreesAppend(StmtsRows(ss, render), StmtsTally(ss), [CodeRow(Block, None)], Zero.(unsafeBlocks := 1));
  }

  /** The step of the census for a call, given the census of its callee and arguments. */
  lemma CallCensus(func: Expr, args: seq<Expr>, render: Type -> string)
    requires Agrees(RowsEmitted(ExprRows(func, render)), ExprTally(func))
    requires WellTagged(ExprRows(func, render))
    requires ExprCount(func) <= ExprTally(func).unsafeBlocks
    requires ExprTally(func).freeFns == 0 ==> ExprCount(func) == ExprTally(func).unsafeBlocks
    requires Agrees(RowsEmitted(ExprsRows(args, render)), ExprsTally(args))
    requires WellTagged(ExprsRows(args, render))
    requires ExprsCount(args) <= ExprsTally(args).unsafeBlocks
    requires ExprsTally(args).freeFns == 0 ==> ExprsCount(args) == ExprsTally(args).unsafeBlocks
    ensures Agrees(RowsEmitted(ExprRows(Call(func, args), render)), ExprTally(Call(func, args)))
    ensures WellTagged(ExprRows(Call(func, args), render))
    ensures ExprCount(Call(func, args)) <= ExprTally(Call(func, args)).unsafeBlocks
    ensures ExprTally(Call(func, args)).freeFns == 0 ==> ExprCount(Call(func, args)) == ExprTally(Call(func, args)).unsafeBlocks
  {
    CallRowsEmitted(func, render);
    CallStep(ExprRows(func, render), ExprTally(func), ExprCount(func),
             ExprsRows(args, render), ExprsTally(args), ExprsCount(args),
             CallRows(func, render), IsTransmuteCallee(func));
  }

  /** The census step of a call over abstract rows: callee rows, argument rows, then the call's own rows. */
  lemma CallStep(a: seq<UnsafeRow>, ta: Tally, ca: nat, b: seq<UnsafeRow>, tb: Tally, cb: nat,
                 c: seq<UnsafeRow>, transmute: bool)
    requires Agrees(RowsEmitted(a), ta) && WellTagged(a) && ca <= ta.unsafeBlocks
    requires ta.freeFns == 0 ==> ca == ta.unsafeBlocks
    requires Agrees(RowsEmitted(b), tb) && WellTagged(b) && cb <= tb.unsafeBlocks
    requires tb.freeFns == 0 ==> cb == tb.unsafeBlocks
    requires RowsEmitted(c) == Emitted(0, 0, if transmute then 1 else 0) && WellTagged(c)
    ensures var t := Plus(Plus(ta, tb), Zero.(calls := 1, transmuteCalls := if transmute then 1 else 0));
      && Agrees(RowsEmitted(a + b + c), t) && WellTagged(a + b + c)
      && ca + cb <= t.unsafeBlocks
      && (t.freeFns == 0 ==> ca + cb == t.unsafeBlocks)
  {
    AgreesAppend(a, ta, b, tb);
    AgreesAppend(a + b, Plus(ta, tb), c, Zero.(calls := 1, transmuteCalls := if transmute then 1 else 0));
  }

  /** A call adds one Transmute row exactly when its callee names transmute or transmute_copy, and nothing else. */
  lemma CallRowsEmitted(func: Expr, render: Type -> string)
    ensures RowsEmitted(CallRows(func, render)) == Emitted(0, 0, if IsTransmuteCallee(func) then 1 else 0)
    ensures WellTagged(CallRows(func, render))
  {
    if IsTransmuteCallee(func) {
      RowsEmittedSingle(CallRows(func, render)[0]);
    }
  }

  /** The step of the census for a free fn, given the census of its body. */
  lemma FnCensus(sig: Signature, body: seq<Stmt>, render: Type -> string)
    requires Agrees(RowsEmitted(StmtsRows(body, render)), StmtsTally(body))
    requires WellTagged(StmtsRows(body, render))
    ensures Agrees(RowsEmitted(ItemRows(FnDecl(sig, body), render)), ItemTally(FnDecl(sig, body)))
    ensures WellTagged(ItemRows(FnDecl(sig, body), render))
    ensures ItemCount(FnDecl(sig, body)) <= ItemTally(FnDecl(sig, body)).unsafeBlocks
    ensures ItemTally(FnDecl(sig, body)).freeFns != 0
  {
    FunctionRowStep(StmtsRows(body, render), StmtsTally(body), StmtsCount(body), sig.isAsync);
  }

  /** Appending a Function row to rows that agree with a census adds one free fn to it. */
  lemma FunctionRowStep(rows: seq<UnsafeRow>, t: Tally, count: nat, isAsync: bool)
    requires Agrees(RowsEmitted(rows), t) && WellTagged(rows)
    ensures var rs := rows + [CodeRow(Function, Some(count))];
      Agrees(RowsEmitted(rs), Plus(t, Zero.(freeFns := 1, asyncFns := if isAsync then 1 else 0))) && WellTagged(rs)
  {
    var row := CodeRow(Function, Some(count));
    RowsEmittedSingle(row);
    AgreesAppend(rows, t, [row], Zero.(freeFns := 1, asyncFns := if isAsync then 1 else 0));
  }

  lemma {:induction false} ExprCensus(e: Expr, render: Type -> string)
    ensures Agrees(RowsEmitted(ExprRows(e, render)), ExprTally(e))
    ensures WellTagged(ExprRows(e, render))
    ensures ExprCount(e) <= ExprTally(e).unsafeBlocks
    ensures ExprTally(e).freeFns == 0 ==> ExprCount(e) == ExprTally(e).unsafeBlocks
    decreases e
  {
    match e
    case UnsafeBlock(ss) =>
      StmtsCensus(ss, render);
      UnsafeBlockCensus(ss, render);
    case AsyncBlock(ss) => StmtsCensus(ss, render);
    case Closure(_, _, body) => ExprCensus(body, render);
    case Call(func, args) =>
      ExprCensus(func, render);
      ExprsCensus(args, render);
      CallCensus(func, args, render);
    case PathExpr(_) =>
    case BlockExpr(ss) => StmtsCensus(ss, render);
    case OtherExpr(cs, _) => ExprsCensus(cs, render);
  }

  lemma {:induction false} ExprsCensus(es: seq<Expr>, render: Type -> string)
    ensures Agrees(RowsEmitted(ExprsRows(es, render)), ExprsTally(es))
    ensures WellTagged(ExprsRows(es, render))
    ensures ExprsCount(es) <= ExprsTally(es).unsafeBlocks
    ensures ExprsTally(es).freeFns == 0 ==> ExprsCount(es) == ExprsTally(es).unsafeBlocks
    decreases es
  {
    if es != [] {
      ExprsCensus(es[..|es| - 1], render);
      ExprCensus(es[|es| - 1], render);
      AgreesAppend(ExprsRows(es[..|es| - 1], render), ExprsTally(es[..|es| - 1]),
                   ExprRows(es[|es| - 1], render), ExprTally(es[|es| - 1]));
    }
  }

  lemma {:induction false} StmtCensus(s: Stmt, render: Type -> string)
    ensures Agrees(RowsEmitted(StmtRows(s, render)), StmtTally(s))
    ensures WellTagged(StmtRows(s, render))
    ensures StmtCount(s) <= StmtTally(s).unsafeBlocks
    ensures StmtTally(s).freeFns == 0 ==> StmtCount(s) == StmtTally(s).unsafeBlocks
    decreases s
  {
    match s
    case Local(_, init) => if init.Some? { ExprCensus(init.value, render); }
    case ItemStmt(item) => ItemCensus(item, render);
    case ExprStmt(e) => ExprCensus(e, render);
  }

  lemma {:induction false} StmtsCensus(ss: seq<Stmt>, render: Type -> string)
    ensures Agrees(RowsEmitted(StmtsRows(ss, render)), StmtsTally(ss))
    ensures WellTagged(StmtsRows(ss, render))
    ensures StmtsCount(ss) <= StmtsTally(ss).unsafeBlocks
    ensures StmtsTally(ss).freeFns == 0 ==> StmtsCount(ss) == StmtsTally(ss).unsafeBlocks
    decreases ss
  {
    if ss != [] {
      StmtsCensus(ss[..|ss| - 1], render);
      StmtCensus(ss[|ss| - 1], render);
      AgreesAppend(StmtsRows(ss[..|ss| - 1], render), StmtsTally(ss[..|ss| - 1]),
                   StmtRows(ss[|ss| - 1], render), StmtTally(ss[|ss| - 1]));
    }
  }

  lemma {:induction false} ItemCensus(item: Item, render: Type -> string)
    ensures Agrees(RowsEmitted(ItemRows(item, render)), ItemTally(item))
    ensures WellTagged(ItemRows(item, render))
    ensures ItemCount(item) <= ItemTally(item).unsafeBlocks
    ensures ItemTally(item).freeFns == 0 ==> ItemCount(item) == ItemTally(item).unsafeBlocks
    decreases item, 1
  {
    if item.FnDecl? {
      StmtsCensus(item.body, render);
      FnCensus(item.sig, item.body, render);
    } else {
      OtherItemCensus(item, render);
    }
  }

  /** The census of the items that are not fns: they add only what they contain. */
  lemma {:induction false} OtherItemCensus(item: Item, render: Type -> string)
    requires !item.FnDecl?
    ensures Agrees(RowsEmitted(ItemRows(item, render)), ItemTally(item))
    ensures WellTagged(ItemRows(item, render))
    ensures ItemCount(item) <= ItemTally(item).unsafeBlocks
    ensures ItemTally(item).freeFns == 0 ==> ItemCount(item) == ItemTally(item).unsafeBlocks
    decreases item, 0
  {
    match item
    case TraitDecl(_, _, _, items) =>
      AssocsCensus(items, render);
      assert ItemRows(item, render) == AssocsRows(items, render);
      assert ItemTally(item) == AssocsTally(items) && ItemCount(item) == AssocsCount(items);
    case ImplBlock(_, _, _, items) =>
      AssocsCensus(items, render);
      assert ItemRows(item, render) == AssocsRows(items, render);
      assert ItemTally(item) == AssocsTally(items) && ItemCount(item) == AssocsCount(items);
    case ModDecl(content) =>
      ItemsCensus(content, render);
      assert ItemRows(item, render) == ItemsRows(content, render);
      assert ItemTally(item) == ItemsTally(content) && ItemCount(item) == ItemsCount(content);
    case TypeDecl(_, _) =>
      assert ItemRows(item, render) == [] && ItemTally(item) == Zero && ItemCount(item) == 0;
    case ConstDecl(_, init) =>
      ExprCensus(init, render);
      assert ItemRows(item, render) == ExprRows(init, render);
      assert ItemTally(item) == ExprTally(init) && ItemCount(item) == ExprCount(init);
    case OtherItem =>
      assert ItemRows(item, render) == [] && ItemTally(item) == Zero && ItemCount(item) == 0;
  }

  lemma {:induction false} ItemsCensus(items: seq<Item>, render: Type -> string)
    ensures Agrees(RowsEmitted(ItemsRows(items, render)), ItemsTally(items))
    ensures WellTagged(ItemsRows(items, render))
    ensures ItemsCount(items) <= ItemsTally(items).unsafeBlocks
    ensures ItemsTally(items).freeFns == 0 ==> ItemsCount(items) == ItemsTally(items).unsafeBlocks
    decreases items
  {
    if items != [] {
      ItemsCensus(items[..|items| - 1], render);
      ItemCensus(items[|items| - 1], render);
      AgreesAppend(ItemsRows(items[..|items| - 1], render), ItemsTally(items[..|items| - 1]),
                   ItemRows(items[|items| - 1], render), ItemTally(items[|items| - 1]));
    }
  }

  lemma {:induction false} AssocCensus(a: AssocItem, render: Type -> string)
    ensures Agrees(RowsEmitted(AssocRows(a, render)), AssocTally(a))
    ensures WellTagged(AssocRows(a, render))
    ensures AssocCount(a) <= AssocTally(a).unsafeBlocks
    ensures AssocTally(a).freeFns == 0 ==> AssocCount(a) == AssocTally(a).unsafeBlocks
    decreases a
  {
    match a
    case AssocFn(_, body) => StmtsCensus(body, render);
    case AssocType(_, _) =>
    case AssocConst(_, init) => if init.Some? { ExprCensus(init.value, render); }
    case AssocOther =>
  }

  lemma {:induction false} AssocsCensus(items: seq<AssocItem>, render: Type -> string)
    ensures Agrees(RowsEmitted(AssocsRows(items, render)), AssocsTally(items))
    ensures WellTagged(AssocsRows(items, render))
    ensures AssocsCount(items) <= AssocsTally(items).unsafeBlocks
    ensures AssocsTally(items).freeFns == 0 ==> AssocsCount(items) == AssocsTally(items).unsafeBlocks
    decreases items
  {
    if items != [] {
      AssocsCensus(items[..|items| - 1], render);
      AssocCensus(items[|items| - 1], render);
      AgreesAppend(AssocsRows(items[..|items| - 1], render), AssocsTally(items[..|items| - 1]),
                   AssocRows(items[|items| - 1], render), AssocTally(items[|items| - 1]));
    }
  }

  /** Over a whole file: one Block row per unsafe block, one Function row per free fn, one Transmute row per transmute call. */
  lemma FileCensus(file: File, render: Type -> string)
    ensures Agrees(RowsEmitted(FileRows(file, render)), FileTally(file))
    ensures WellTagged(FileRows(file, render))
  {
    ItemsCensus(file.items, render);
  }

  /**
   * Post-order: the row of an unsafe block is its last row, and every unsafe
   * block nested in it (at any depth) has already had its row.
   */
  lemma BlockRowIsLast(ss: seq<Stmt>, render: Type -> string)
    ensures var rs := ExprRows(UnsafeBlock(ss), render);
      && |rs| > 0
      && rs[|rs| - 1] == CodeRow(Block, None)
      && RowsEmitted(rs[..|rs| - 1]).blocks == StmtsTally(ss).unsafeBlocks
  {
    var rs := ExprRows(UnsafeBlock(ss), render);
    assert rs[..|rs| - 1] == StmtsRows(ss, render);
    StmtsCensus(ss, render);
  }

  /**
   * A free fn's row is its last one. Its count never exceeds the unsafe
   * blocks in the body, and equals the number of Block rows the body emitted
   * when the body declares no fn of its own.
   */
  lemma FunctionRowIsLast(sig: Signature, body: seq<Stmt>, render: Type -> string)
    ensures var rs := ItemRows(FnDecl(sig, body), render);
      && |rs| > 0
      && rs[|rs| - 1].CodeRow? && rs[|rs| - 1].kind == Function
      && rs[|rs| - 1].blockCount.Some?
      && rs[|rs| - 1].blockCount.value <= StmtsTally(body).unsafeBlocks
      && (StmtsTally(body).freeFns == 0 ==>
            rs[|rs| - 1].blockCount.value == RowsEmitted(rs[..|rs| - 1]).blocks)
  {
    var rs := ItemRows(FnDecl(sig, body), render);
    assert rs[..|rs| - 1] == StmtsRows(body, render);
    StmtsCensus(body, render);
  }

  // ----------------------------------------------------------- examples

  /** `unsafe { unsafe { } }` */
  function NestedPair(): Expr
  {
    UnsafeBlock([ExprStmt(UnsafeBlock([]))])
  }

  /**
   * A fn whose body holds two sibling unsafe blocks, each with one unsafe
   * block inside: four Block rows, innermost first, then the Function row
   * with a count of four.
   */
  lemma TwoNestedPairs()
    ensures var body := [ExprStmt(NestedPair()), ExprStmt(NestedPair())];
      forall render: Type -> string ::
        ItemRows(FnDecl(PlainSig("f"), body), render)
        == [CodeRow(Block, None), CodeRow(Block, None), CodeRow(Block, None), CodeRow(Block, None),
            CodeRow(Function, Some(4))]
  {
    var body := [ExprStmt(NestedPair()), ExprStmt(NestedPair())];
    var inner: seq<Stmt> := [ExprStmt(UnsafeBlock([]))];
    assert inner[..0] == [];
    assert body[..1] == [ExprStmt(NestedPair())] && body[..1][..0] == [];
    assert StmtsCount(inner) == 1;
    assert StmtsCount(body) == 4;
    forall render: Type -> string
      ensures ItemRows(FnDecl(PlainSig("f"), body), render)
        == [CodeRow(Block, None), CodeRow(Block, None), CodeRow(Block, None), CodeRow(Block, None),
            CodeRow(Function, Some(4))]
    {
      assert StmtsRows(inner, render) == [CodeRow(Block, None)];
      assert ExprRows(NestedPair(), render) == [CodeRow(Block, None), CodeRow(Block, None)];
    }
  }

  /**
   * `fn outer() { unsafe { } fn inner() { unsafe { } } }`: the nested fn
   * counts its own block and adds nothing to the outer count.
   */
  lemma NestedFnHasItsOwnCount()
    ensures var inner := FnDecl(PlainSig("inner"), [ExprStmt(UnsafeBlock([]))]);
      forall render: Type -> string ::
        ItemRows(FnDecl(PlainSig("outer"), [ExprStmt(UnsafeBlock([])), ItemStmt(inner)]), render)
        == [CodeRow(Block, None), CodeRow(Block, None), CodeRow(Function, Some(1)), CodeRow(Function, Some(1))]
  {
    var innerBody := [ExprStmt(UnsafeBlock([]))];
    var outerBody := [ExprStmt(UnsafeBlock([])), ItemStmt(FnDecl(PlainSig("inner"), innerBody))];
    assert innerBody[..0] == [];
    assert outerBody[..1] == innerBody;
    assert StmtsCount(innerBody) == 1;
    assert StmtsCount(outerBody) == 1;
    forall render: Type -> string
      ensures ItemRows(FnDecl(PlainSig("outer"), outerBody), render)
        == [CodeRow(Block, None), CodeRow(Block, None), CodeRow(Function, Some(1)), CodeRow(Function, Some(1))]
    {
      assert StmtsRows(innerBody, render) == [CodeRow(Block, None)];
      assert StmtRows(outerBody[1], render) == [CodeRow(Block, None), CodeRow(Function, Some(1))];
    }
  }

  /**
   * `impl S { const ONE: u8 = unsafe { 1 }; }`: the initializer of an
   * associated const is visited, so its unsafe block has a row and adds to
   * the enclosing accumulator.
   */
  lemma UnsafeInAssocConst()
    ensures var item := ImplBlock(NoGenerics, None, PathType(Name("S")),
                                  [AssocConst(PathType(Name("u8")), Some(UnsafeBlock([ExprStmt(Literal)])))]);
      && ItemCount(item) == 1
      && forall render: Type -> string :: ItemRows(item, render) == [CodeRow(Block, None)]
  {
    var body := [ExprStmt(Literal)];
    var items := [AssocConst(PathType(Name("u8")), Some(UnsafeBlock(body)))];
    assert body[..0] == [] && items[..0] == [];
    assert StmtsCount(body) == 0;
    assert ExprCount(UnsafeBlock(body)) == 1;
    assert AssocsCount(items) == AssocCount(items[0]) == 1;
    forall render: Type -> string
      ensures AssocsRows(items, render) == [CodeRow(Block, None)]
    {
      assert StmtsRows(body, render) == [];
      assert ExprRows(UnsafeBlock(body), render) == [CodeRow(Block, None)];
      assert AssocsRows(items, render) == AssocRows(items[0], render);
    }
  }

  /** `[u8; 4]` */
  const ByteArray := Compound([PathType(Name("u8"))])

  /** `std::mem::transmute::<[u8; 4], u32>(x)` */
  function TransmuteWithArgs(): Expr
  {
    Call(PathExpr(Path([PathSegment("std", NoArguments), PathSegment("mem", NoArguments),
                        PathSegment("transmute",
                          AngleBracketed([TypeArg(ByteArray), TypeArg(PathType(Name("u32")))]))])),
         [PathExpr(Name("x"))])
  }

  /** The texts gathered from two generic arguments: those of the type arguments among them, in order. */
  lemma TwoTypeArgs(args: seq<GenericArg>, render: Type -> string)
    requires |args| == 2
    ensures TypeArgTexts(args, render)
      == (if args[0].TypeArg? then [render(args[0].ty)] else [])
         + (if args[1].TypeArg? then [render(args[1].ty)] else [])
  {
    assert args[..1][..0] == [];
    assert args[..1] == [args[0]];
    assert TypeArgTexts(args[..1], render) == if args[0].TypeArg? then [render(args[0].ty)] else [];
  }

  /** With explicit type arguments, the row holds their texts: from the first, to the second. */
  lemma TransmuteWithArguments(render: Type -> string)
    ensures ExprRows(TransmuteWithArgs(), render)
      == [TransmuteRow(Some(render(ByteArray)), Some(render(PathType(Name("u32")))))]
  {
    var args := [TypeArg(ByteArray), TypeArg(PathType(Name("u32")))];
    TwoTypeArgs(args, render);
  }

  /** `transmute(x)`: still one row, with neither type known. */
  lemma TransmuteWithoutArguments(render: Type -> string)
    ensures ExprRows(Call(PathExpr(Name("transmute")), [PathExpr(Name("x"))]), render)
      == [TransmuteRow(None, None)]
  {
  }

  /** `transmute::<'a, u32>(x)`: the lifetime argument is skipped, so the one type argument is the source type. */
  lemma TransmuteLifetimeSkipped(render: Type -> string)
    ensures ExprRows(Call(PathExpr(Path([PathSegment("transmute",
                AngleBracketed([LifetimeArg, TypeArg(PathType(Name("u32")))]))])),
              [PathExpr(Name("x"))]), render)
      == [TransmuteRow(Some(render(PathType(Name("u32")))), None)]
  {
    var args := [LifetimeArg, TypeArg(PathType(Name("u32")))];
    TwoTypeArgs(args, render);
  }

  /** `transmute::<u8, u8>(transmute::<u8, u8>(x))`: the inner call, an argument, has its row first. */
  lemma NestedTransmuteFirst(render: Type -> string)
    ensures var callee := PathExpr(Path([PathSegment("transmute",
                AngleBracketed([TypeArg(PathType(Name("u8"))), TypeArg(PathType(Name("u16")))]))]));
      var inner := Call(callee, [PathExpr(Name("x"))]);
      var rs := ExprRows(Call(callee, [inner]), render);
      |rs| == 2 && rs[0] == rs[1] == TransmuteRow(Some(render(PathType(Name("u8")))), Some(render(PathType(Name("u16")))))
  {
    var args := [TypeArg(PathType(Name("u8"))), TypeArg(PathType(Name("u16")))];
    TwoTypeArgs(args, render);
    var callee := PathExpr(Path([PathSegment("transmute", AngleBracketed(args))]));
    var row := TransmuteRow(Some(render(PathType(Name("u8")))), Some(render(PathType(Name("u16")))));
    assert CallRows(callee, render) == [row];
    var inner := Call(callee, [PathExpr(Name("x"))]);
    assert [PathExpr(Name("x"))][..0] == [];
    assert ExprsRows([PathExpr(Name("x"))], render) == [];
    assert ExprRows(inner, render) == [row];
    assert [inner][..0] == [];
    assert ExprsRows([inner], render) == [row];
  }

  // ------------------------------------------------------ the visitors

  /** Gathers the texts of the type arguments of one path segment. */
  class CallParamList {
    var params: seq<string>

    constructor ()
      ensures params == []
    {
      params := [];
    }

    /** A type argument is pushed as text; every other kind of argument is skipped. */
    method VisitGenericArgument(arg: GenericArg, render: Type -> string)
      modifies this
      ensures params == old(params) + TypeArgTexts([arg], render)
    {
      assert [arg][..0] == [];
      if arg.TypeArg? {
        params := params + [render(arg.ty)];
      }
    }

    method VisitPathSegment(seg: PathSegment, render: Type -> string)
      modifies this
      ensures params == old(params) + CallParams(seg, render)
    {
      if seg.arguments.AngleBracketed? {
        var args := seg.arguments.args;
        var i := 0;
        while i < |args|
          invariant i <= |args|
          invariant params == old(params) + TypeArgTexts(args[..i], render)
        {
          assert args[..i + 1][..i] == args[..i];
          VisitGenericArgument(args[i], render);
          i := i + 1;
        }
        assert args[..|args|] == args;
      }
    }
  }

  /**
   * A visitor with its own accumulator. The log is shared by every visitor
   * of one file; `count` is this visitor's own.
   */
  class Stats {
    const log: Sink.Log<UnsafeRow>
    const render: Type -> string
    var count: nat

    constructor (log: Sink.Log<UnsafeRow>, render: Type -> string)
      ensures this.log == log && this.render == render && count == 0
    {
      this.log := log;
      this.render := render;
      count := 0;
    }

    method VisitExpr(e: Expr)
      modifies this, log
      ensures log.rows == old(log.rows) + ExprRows(e, render)
      ensures count == old(count) + ExprCount(e)
      decreases e, 2
    {
      match e {
        case UnsafeBlock(ss) => VisitExprUnsafe(e);
        case AsyncBlock(ss) => VisitStmts(ss);
        case Closure(_, _, body) => VisitExpr(body);
        case Call(_, _) => VisitExprCall(e);
        case PathExpr(_) =>
        case BlockExpr(ss) => VisitStmts(ss);
        case OtherExpr(cs, _) => VisitExprs(cs);
      }
    }

    /** An unsafe block: its contents first, then one more for the accumulator and its row. */
    method VisitExprUnsafe(e: Expr)
      requires e.UnsafeBlock?
      modifies this, log
      ensures log.rows == old(log.rows) + ExprRows(e, render)
      ensures count == old(count) + ExprCount(e)
      decreases e, 1
    {
      VisitStmts(e.stmts);
      count := count + 1;
      log.Push(CodeRow(Block, None));
    }

    /**
     * A call: callee and arguments first; then, when the callee is a path
     * whose last segment is named transmute or transmute_copy, a row with
     * that segment's first two type arguments.
     */
    method VisitExprCall(e: Expr)
      requires e.Call?
      modifies this, log
      ensures log.rows == old(log.rows) + ExprRows(e, render)
      ensures count == old(count) + ExprCount(e)
      decreases e, 1
    {
      VisitExpr(e.func);
      VisitExprs(e.args);
      AppendAssoc(old(log.rows), ExprRows(e.func, render), ExprsRows(e.args, render));
      AppendAssoc(old(log.rows), ExprRows(e.func, render) + ExprsRows(e.args, render), CallRows(e.func, render));
      if !e.func.PathExpr? {
        return;
      }
      var segments := e.func.path.segments;
      if |segments| == 0 {
        return;
      }
      var list := new CallParamList();
      var seg := segments[|segments| - 1];
      list.VisitPathSegment(seg, render);
      if !(seg.ident == "transmute" || seg.ident == "transmute_copy") {
        return;
      }
      var fromType := if 0 < |list.params| then Some(list.params[0]) else None;
      var toType := if 1 < |list.params| then Some(list.params[1]) else None;
      log.Push(TransmuteRow(fromType, toType));
    }

    method VisitExprs(es: seq<Expr>)
      modifies this, log
      ensures log.rows == old(log.rows) + ExprsRows(es, render)
      ensures count == old(count) + ExprsCount(es)
      decreases es
    {
      var i := 0;
      while i < |es|
        invariant i <= |es|
        invariant log.rows == old(log.rows) + ExprsRows(es[..i], render)
        invariant count == old(count) + ExprsCount(es[..i])
      {
        assert es[..i + 1][..i] == es[..i];
        VisitExpr(es[i]);
        AppendAssoc(old(log.rows), ExprsRows(es[..i], render), ExprRows(es[i], render));
        i := i + 1;
      }
      assert es[..|es|] == es;
    }

    method VisitStmt(s: Stmt)
      modifies this, log
      ensures log.rows == old(log.rows) + StmtRows(s, render)
      ensures count == old(count) + StmtCount(s)
      decreases s
    {
      match s {
        case Local(_, init) =>
          if init.Some? {
            VisitExpr(init.value);
          }
        case ItemStmt(item) => VisitItem(item);
        case ExprStmt(e) => VisitExpr(e);
      }
    }

    method VisitStmts(ss: seq<Stmt>)
      modifies this, log
      ensures log.rows == old(log.rows) + StmtsRows(ss, render)
      ensures count == old(count) + StmtsCount(ss)
      decreases ss
    {
      var i := 0;
      while i < |ss|
        invariant i <= |ss|
        invariant log.rows == old(log.rows) + StmtsRows(ss[..i], render)
        invariant count == old(count) + StmtsCount(ss[..i])
      {
        assert ss[..i + 1][..i] == ss[..i];
        VisitStmt(ss[i]);
        AppendAssoc(old(log.rows), StmtsRows(ss[..i], render), StmtRows(ss[i], render));
        i := i + 1;
      }
      assert ss[..|ss|] == ss;
    }

    method VisitItem(item: Item)
      modifies this, log
      ensures log.rows == old(log.rows) + ItemRows(item, render)
      ensures count == old(count) + ItemCount(item)
      decreases item, 2
    {
      match item {
        case TraitDecl(_, _, _, items) => VisitAssocs(items);
        case ImplBlock(_, _, _, items) => VisitAssocs(items);
        case FnDecl(_, _) => VisitItemFn(item);
        case ModDecl(content) => VisitItems(content);
        case TypeDecl(_, _) =>
        case ConstDecl(_, init) => VisitExpr(init);
        case OtherItem =>
      }
    }

    /**
     * A free fn: its body under a fresh visitor whose accumulator starts at
     * zero; then a Function row with what that accumulator reached. This
     * visitor's own accumulator is left as it was.
     */
    method VisitItemFn(item: Item)
      requires item.FnDecl?
      modifies log
      ensures log.rows == old(log.rows) + ItemRows(item, render)
      decreases item, 1
    {
      var child := new Stats(log, render);
      child.VisitStmts(item.body);
      log.Push(CodeRow(Function, Some(child.count)));
    }

    method VisitItems(items: seq<Item>)
      modifies this, log
      ensures log.rows == old(log.rows) + ItemsRows(items, render)
      ensures count == old(count) + ItemsCount(items)
      decreases items
    {
      var i := 0;
      while i < |items|
        invariant i <= |items|
        invariant log.rows == old(log.rows) + ItemsRows(items[..i], render)
        invariant count == old(count) + ItemsCount(items[..i])
      {
        assert items[..i + 1][..i] == items[..i];
        VisitItem(items[i]);
        AppendAssoc(old(log.rows), ItemsRows(items[..i], render), ItemRows(items[i], render));
        i := i + 1;
      }
      assert items[..|items|] == items;
    }

    method VisitAssoc(a: AssocItem)
      modifies this, log
      ensures log.rows == old(log.rows) + AssocRows(a, render)
      ensures count == old(count) + AssocCount(a)
      decreases a
    {
      match a {
        case AssocFn(_, body) => VisitStmts(body);
        case AssocType(_, _) =>
        case AssocConst(_, init) =>
          if init.Some? {
            VisitExpr(init.value);
          }
        case AssocOther =>
      }
    }

    method VisitAssocs(items: seq<AssocItem>)
      modifies this, log
      ensures log.rows == old(log.rows) + AssocsRows(items, render)
      ensures count == old(count) + AssocsCount(items)
      decreases items
    {
      var i := 0;
      while i < |items|
        invariant i <= |items|
        invariant log.rows == old(log.rows) + AssocsRows(items[..i], render)
        invariant count == old(count) + AssocsCount(items[..i])
      {
        assert items[..i + 1][..i] == items[..i];
        VisitAssoc(items[i]);
        AppendAssoc(old(log.rows), AssocsRows(items[..i], render), AssocRows(items[i], render));
        i := i + 1;
      }
      assert items[..|items|] == items;
    }
  }

  /** The runner's collect step: visit the file with a root visitor whose accumulator starts at zero. */
  method Collect(file: File, log: Sink.Log<UnsafeRow>, render: Type -> string)
    modifies log
    ensures log.rows == old(log.rows) + FileRows(file, render)
  {
    var stats := new Stats(log, render);
    stats.VisitItems(file.items);
  }
}
