# crate-stats, modelled in Dafny

crate-stats collects statistics about how Rust crates published on
crates.io use the language. It has two parts. A downloader picks the most
downloaded recently updated crates from a crates.io database dump and fetches
the newest version of each. A set of classifiers walks the syntax tree of
every source file of those crates and writes rows to database tables. This
project models the downloader's selection logic and four classifiers.

- **traits** emits one row per trait definition, per `impl Trait for`, per
  trait named in an `impl Trait` or `dyn Trait` type inside a function
  argument or return type, and per trait bound in a `where` clause. Each row
  holds the number of generic arguments, associated-type bindings and generic
  associated types.
- **unsafe_code** emits one row per `unsafe` block and one row per free
  function, with the function's count of unsafe blocks. It also emits one row
  per call to `transmute`/`transmute_copy`, with the source and target type
  arguments as text.
- **async_code** works the same way for `async` blocks and `async fn`.
- **closures** emits one row per closure expression. The row records whether
  the closure sits in the callee position of a call.

Modules:

- `Syntax`: the part of the parsed syntax tree the classifiers look at.
- `Census`: an independent count of the constructs in a tree.
- `Sink`: the table a classifier appends rows to.
- `Seqs`, `Wrappers`: helpers.
- `Closures`, `UnsafeCode`, `AsyncCode`, `Traits`: the classifiers.
- `DownloadCrates`: the downloader.

Each classifier exists in two forms:

- Functions over the tree give the rows each node contributes, in visiting
  order (with one exception for traits, named under "## Left out").
- A visitor `class` has methods that append to a shared `Sink.Log`. Its
  context (the in-call flag, the position, the accumulator of blocks) lives
  in fields, as in the source. Each visiting method is proved to append
  exactly the rows the functions describe.

Lemmas then relate the rows to the census, to the shape of the rows, and to
the examples the source's own tests check.

Behaviour as the code has it, which the model follows:

- A trait definition counts every associated type that has generic parameters
  as a generic associated type, lifetime parameters included. `type Out<'a>;`
  therefore gives a gat count of 1.
- There is no list of marker traits that are skipped, and no "outermost
  type only" flag. Every `impl`/`dyn` type inside an argument or return type
  yields rows, however deeply it is nested in other types (references,
  generic arguments, function pointers). The exception is a type inside the
  bounds of another `impl`/`dyn` type, as the last point below says.
- The unsafe classifier writes a Function row for every free function. The
  async classifier writes one only for `async fn`, although it still visits the
  body of a plain function under a fresh accumulator.
- `src/stats/async_code.rs` declares a `CallParamList` visitor that it never
  uses.
- In `impl`/`dyn` types in argument or return position, the visitor does not
  descend into the bounds. A trait bound nested inside such a bound's generic
  arguments therefore gets no row of its own.

## Model

| member | source | states |
|---|---|---|
| Closures.Stats.VisitExprClosure | src/stats/closures.rs:4-18 | a closure appends its own row, carrying the current in-call flag, before the rows of its body, which is visited with the flag false |
| Closures.Stats.VisitExprCall | src/stats/closures.rs:20-34 | a call visits its callee with the flag true and its arguments with the flag false, appending exactly their rows |
| Closures.Stats.VisitExpr | src/stats/closures.rs:3-35 | any other expression passes the flag on unchanged; the rows appended are those of the expression under the current flag |
| Closures.Collect | src/stats/closures.rs:42-51 | a file is visited with the flag false and appends exactly the file's rows |
| Closures.ClosureRowFirst | src/stats/closures.rs:4-18 | a closure's rows are its own row with the inherited flag, followed by its body's rows under false |
| Closures.CallIgnoresContext | src/stats/closures.rs:20-34 | the rows of a call do not depend on the flag it was reached with; they number the closures in callee and arguments |
| Closures.ExprRowsCensus | src/stats/closures.rs:4-18 | an expression yields exactly one row per closure it contains; with no call inside it, no row is marked in-call unless the context was |
| Closures.FileRowsCensus | src/bin/count_closures.rs:12-17 | a file's closure rows are as many as the closures the closure counter counts; in a file without calls none is marked in-call |
| Closures.ImmediatelyCalledClosure | src/stats/closures.rs:20-26 | `(\|x\| x)(1)` yields one row, marked in-call |
| Closures.ClosureAsArgument | src/stats/closures.rs:27-33 | `f(\|x\| x)` yields one row, not marked in-call |
| Closures.NestedClosures | src/stats/closures.rs:4-34 | `let g = \|a\| (\|b\| b)(a);` yields a plain row for the outer closure, then an in-call row for the inner one |
| UnsafeCode.CallParamList.VisitGenericArgument | src/stats/unsafe_code.rs:20-27 | a type argument appends its rendered text; every other kind of argument appends nothing |
| UnsafeCode.CallParamList.VisitPathSegment | src/stats/unsafe_code.rs:20-27 | a segment appends the texts of its type arguments in order |
| UnsafeCode.Stats.VisitItemFn | src/stats/unsafe_code.rs:30-44 | a free fn visits its body under a fresh accumulator and appends the body's rows, then a Function row with that count; the parent's count is unchanged |
| UnsafeCode.Stats.VisitExprUnsafe | src/stats/unsafe_code.rs:46-57 | an unsafe block appends its contents' rows, then a Block row, and adds one to the count |
| UnsafeCode.Stats.VisitExprCall | src/stats/unsafe_code.rs:59-89 | a call appends the rows of callee and arguments, then a Transmute row exactly when the callee is a path ending in `transmute`/`transmute_copy` |
| UnsafeCode.Stats.VisitExpr | src/stats/unsafe_code.rs:29-90 | rows and count change exactly as the row and count functions of the expression say |
| UnsafeCode.Stats.VisitItem | src/stats/unsafe_code.rs:29-90 | items other than free fns (impls, traits) add to the enclosing count the blocks in their methods and in their associated consts' initializers |
| UnsafeCode.Collect | src/stats/unsafe_code.rs:98 | a file visited from a zero count appends exactly the file's rows |
| UnsafeCode.ExprCensus | src/stats/unsafe_code.rs:29-90 | an expression's rows hold one Block row per unsafe block, one Function row per free fn and one Transmute row per transmute call; its count never exceeds its unsafe blocks, and equals them when no free fn is inside |
| UnsafeCode.FileCensus | src/stats/unsafe_code.rs:98 | a file's rows hold one Block row per unsafe block, one Function row per free fn and one Transmute row per transmute call in the file; Block rows carry no count, Function rows one |
| UnsafeCode.BlockRowIsLast | src/stats/unsafe_code.rs:46-57 | an unsafe block's rows end with its Block row, preceded by one Block row per unsafe block inside |
| UnsafeCode.FunctionRowIsLast | src/stats/unsafe_code.rs:30-44 | a free fn's rows end with its Function row; its count is at most the unsafe blocks in the body, and equal when no nested fn is there |
| UnsafeCode.TwoNestedPairs | src/stats/unsafe_code.rs:123-129 | a fn holding two nested pairs of unsafe blocks yields four Block rows and a Function row with count 4 |
| UnsafeCode.NestedFnHasItsOwnCount | src/stats/unsafe_code.rs:30-44 | an unsafe block inside a nested fn counts for the nested fn and not for the outer one |
| UnsafeCode.UnsafeInAssocConst | src/stats/unsafe_code.rs:46-57 | an unsafe block in the initializer of an impl's associated const gets a Block row and adds 1 to the enclosing count |
| UnsafeCode.TransmuteWithArguments | src/stats/unsafe_code.rs:131-136 | `transmute::<A, B>(x)` yields a Transmute row with A's and B's texts |
| UnsafeCode.TransmuteWithoutArguments | src/stats/unsafe_code.rs:138-143 | `transmute(x)` still yields a Transmute row, with both types absent |
| UnsafeCode.TransmuteLifetimeSkipped | src/stats/unsafe_code.rs:21-26 | a lifetime argument is skipped when picking the from and to types |
| UnsafeCode.NestedTransmuteFirst | src/stats/unsafe_code.rs:59-61 | a transmute call nested in the arguments of another gets its row first |
| AsyncCode.Stats.VisitItemFn | src/stats/async_code.rs:30-49 | a free fn's body is visited under a fresh accumulator; a Function row with that count follows only when the fn is async; the parent's count is unchanged |
| AsyncCode.Stats.VisitExprAsync | src/stats/async_code.rs:51-62 | an async block appends its contents' rows, then a Block row, and adds one to the count |
| AsyncCode.Stats.VisitExpr | src/stats/async_code.rs:29-63 | rows and count change exactly as the row and count functions of the expression say |
| AsyncCode.Collect | src/stats/async_code.rs:71 | a file visited from a zero count appends exactly the file's rows |
| AsyncCode.ExprCensus | src/stats/async_code.rs:29-63 | an expression's rows hold one Block row per async block and one Function row per async free fn; its count is at most its async blocks, and equal when no free fn is inside |
| AsyncCode.FileCensus | src/stats/async_code.rs:71 | a file's rows hold one Block row per async block and one Function row per async free fn |
| AsyncCode.FunctionRowOnlyIfAsync | src/stats/async_code.rs:30-49 | a fn adds a Function row if and only if it is async; a plain fn yields exactly its body's rows; an async fn's row is last and carries its body's count |
| AsyncCode.BlockRowIsLast | src/stats/async_code.rs:51-62 | an async block's rows end with its Block row, preceded by one Block row per async block inside |
| AsyncCode.AsyncFnCountsFour | src/stats/async_code.rs:89-95 | an async fn holding two nested pairs of async blocks yields four Block rows and a Function row with count 4 |
| AsyncCode.PlainFnBlockOnly | src/stats/async_code.rs:37-39 | an async block in a plain fn yields a Block row and no Function row |
| Traits.TraitParamCounter.VisitGenericArgument | src/stats/traits.rs:46-54 | a type argument adds one generic, a binding adds one associated type, anything else adds nothing |
| Traits.TraitParamCounter.VisitParenthesizedGenericArguments | src/stats/traits.rs:56-62 | `Fn(A, B) -> C` adds one generic per input and one associated type for an explicit output |
| Traits.TraitParamCounter.VisitAngleBracketedGenericArguments | src/stats/traits.rs:45-63 | a list of arguments adds the sum of its arguments' counts |
| Traits.TraitParamCounter.VisitPathArguments | src/stats/traits.rs:45-63 | a segment's arguments add their counts |
| Traits.TraitParamCounter.VisitSegments | src/stats/traits.rs:45-63 | visiting segments in order adds, for each segment, the counts of its arguments |
| Traits.TraitParamCounter.VisitPath | src/stats/traits.rs:45-63 | a path adds the counts of all its segments' arguments, not only the last segment's |
| Traits.CountPathParams | src/stats/traits.rs:303-305 | a fresh counter run over a path ends with exactly the path's counts |
| Traits.Stats.CollectTraitPath | src/stats/traits.rs:288-320 | a path with no segments appends nothing; otherwise one row named after the last segment, with the path's counts plus the base associated-type count |
| Traits.Stats.CollectTypeParamBound | src/stats/traits.rs:264-286 | a lifetime bound appends nothing; a trait bound appends its path's row with no base count and no gat count |
| Traits.Stats.CollectBounds | src/stats/traits.rs:78-87 | the bounds of a list, in order, each append their row carrying the given trait- and lifetime-bound counts |
| Traits.Stats.CollectBoundList | src/stats/traits.rs:72-87 | a bound list appends one row per trait bound, in order, each carrying the list's trait-bound count and the remainder as lifetime-bound count |
| Traits.Stats.VisitType | src/stats/traits.rs:71-107 | in argument or return position, `impl`/`dyn` types append their bound list's rows tagged TypeImpl/TypeDyn and are not entered; elsewhere the type is walked |
| Traits.Stats.VisitTypes | src/stats/traits.rs:65-108 | a list of types appends its members' rows in order |
| Traits.Stats.VisitReturnType | src/stats/traits.rs:155-165 | the base visitor walks a return type in Return position; a positional visitor keeps its own position |
| Traits.Stats.VisitPath | src/stats/traits.rs:65-108 | a type path appends the rows of the types in its generic arguments |
| Traits.Stats.VisitSegments | src/stats/traits.rs:65-108 | segments append their arguments' rows in order |
| Traits.Stats.VisitArguments | src/stats/traits.rs:65-108 | angle-bracketed and parenthesized arguments append the rows of the types inside them |
| Traits.Stats.VisitGenericArg | src/stats/traits.rs:65-108 | type arguments, bindings and constraints append the rows of what they hold |
| Traits.Stats.VisitGenericArgs | src/stats/traits.rs:65-108 | a list of generic arguments appends its members' rows in order |
| Traits.Stats.VisitBound | src/stats/traits.rs:65-108 | a bound outside a where clause appends the rows of its path's arguments |
| Traits.Stats.VisitBounds | src/stats/traits.rs:65-108 | a list of bounds appends its members' rows in order |
| Traits.Stats.VisitGenericParam | src/stats/traits.rs:142-261 | a type parameter's inline bounds get no rows of their own, only the rows of the types inside their paths; a type parameter's default and a const parameter's type are walked |
| Traits.Stats.VisitGenericParams | src/stats/traits.rs:142-261 | a parameter list appends its members' rows in order |
| Traits.Stats.VisitWherePredicate | src/stats/traits.rs:167-184 | a where predicate appends its bound list's rows tagged WhereClause |
| Traits.Stats.VisitWherePredicates | src/stats/traits.rs:167-184 | a where clause appends its predicates' rows in order |
| Traits.Stats.VisitGenerics | src/stats/traits.rs:142-261 | generics append the parameters' rows, then the where clause's |
| Traits.Stats.VisitPredicateType | src/stats/traits.rs:167-184 | the bounds of a where predicate append one WhereClause row per trait bound, with no position |
| Traits.Stats.VisitFnArg | src/stats/traits.rs:143-153 | a function argument is walked by a positional visitor in Argument position |
| Traits.Stats.VisitFnArgs | src/stats/traits.rs:143-153 | a list of arguments appends their rows in order |
| Traits.Stats.VisitSignature | src/stats/traits.rs:142-165 | a signature appends the rows of its generics, its arguments and its return type |
| Traits.Stats.VisitItemImpl | src/stats/traits.rs:186-219 | an inherent impl appends nothing; a trait impl appends its trait path's ImplFor row, with the associated types and generic associated types of its items |
| Traits.Stats.VisitItemTrait | src/stats/traits.rs:221-260 | a trait definition appends one TraitDef row and nothing for its items, bounds or generics |
| Traits.Stats.VisitItem | src/stats/traits.rs:142-261 | a function appends its signature's and body's rows; other items as above |
| Traits.Stats.VisitStmt | src/stats/traits.rs:142-261 | a statement appends the rows of the items and expressions it holds |
| Traits.Stats.VisitExpr | src/stats/traits.rs:142-261 | an expression appends the rows of the items, expressions and types it holds (a cast's target type, turbofish arguments, a struct literal's path) |
| Traits.Collect | src/stats/traits.rs:324 | a file visited by the base visitor appends exactly the file's rows |
| Traits.BoundListFacts | src/stats/traits.rs:72-87 | a bound list yields one row per named trait bound; every row has the given syntax and position, no gat count, and trait and lifetime bound counts that add up to the list's length |
| Traits.PositionalRows | src/stats/traits.rs:65-108 | every row a positional visitor emits is a TypeImpl or TypeDyn row carrying its position |
| Traits.PositionalImplNotEntered | src/stats/traits.rs:71-107 | in a position, an `impl`/`dyn` type yields exactly one row per named trait bound and nothing from inside its bounds |
| Traits.FnArgRowsAreArguments | src/stats/traits.rs:143-153 | every row from a function argument is an Argument-position TypeImpl/TypeDyn row |
| Traits.ReturnRowsAreReturns | src/stats/traits.rs:155-165 | every row from a return type is a Return-position TypeImpl/TypeDyn row |
| Traits.PredicateFacts | src/stats/traits.rs:167-184 | a where predicate yields one WhereClause row per named trait bound, whatever the bounded type |
| Traits.ImplForRow | src/stats/traits.rs:186-219 | an impl without a trait yields no row; a trait impl yields one ImplFor row named after the last segment, with the path's generics, the path's bindings plus the items' associated types, and the generic associated types |
| Traits.TraitDefRow | src/stats/traits.rs:221-260 | a trait definition yields one TraitDef row with its type parameters, associated types and generic associated types counted |
| Traits.FileRowsWellShaped | src/stats/traits.rs:27-37 | every row of a file is well shaped: a position exactly on TypeImpl/TypeDyn, a gat count exactly on TraitDef/ImplFor and never above the associated types, and a trait-bound count otherwise |
| Traits.AllTypeArgsCount | src/stats/traits.rs:46-54 | arguments that are all types count as that many generics and no associated types |
| Traits.FnSugarCounts | src/stats/traits.rs:56-62 | `Fn(A, B) -> C` counts two generics and one associated type |
| Traits.SegmentCountsAppend | src/stats/traits.rs:303-305 | a further segment adds its own arguments' counts, so a path's counts sum over all its segments, not only the last |
| Traits.ImplForIterator | src/stats/traits.rs:351-358 | `impl Iterator for Mock { type Item = ..; fn next .. }` yields an ImplFor row with one associated type and gat count 0 |
| Traits.IteratorArg | src/stats/traits.rs:360-367 | `fn f(_: impl Iterator<Item = T>)` yields a TypeImpl row in Argument position with one associated type and one trait bound |
| Traits.IteratorRet | src/stats/traits.rs:369-376 | `fn f() -> impl Iterator<Item = T>` yields a TypeImpl row in Return position |
| Traits.DynIteratorArg | src/stats/traits.rs:387-394 | `fn f(_: Box<dyn Iterator<Item = T>>)` yields a TypeDyn row in Argument position |
| Traits.ManyGenericsTrait | src/stats/traits.rs:396-402 | `trait Mock<A, B, C> { type Item; }` yields a TraitDef row with three generics and one associated type |
| Traits.ManyGenericsArg | src/stats/traits.rs:403-405 | `impl Mock<A, B, C>` as an argument yields a TypeImpl row with three generics |
| Traits.DefineGat | mocks/define_gat.rs:1-7 | the `LendingIterator` trait with `type Item<'a>` yields a TraitDef row with one associated type and gat count 1 |
| Traits.WhereClauseExample | src/stats/traits.rs:417-424 | `where T: Iterator<Item = U>` yields a WhereClause row with one associated type and one trait bound |
| Traits.ReturnInsideArgument | src/stats/traits.rs:143-165 | in `fn f(g: fn() -> Box<dyn Debug>)` the `dyn` type in the return type of a function-pointer argument gets an Argument row, not a Return row |
| Traits.CastToFnPointer | src/stats/traits.rs:155-165 | in `g as fn() -> Box<dyn Debug>` the cast's target type is walked, and its `dyn` type gets a Return row |
| Traits.DefaultTypeParam | src/stats/traits.rs:155-165 | in `struct S<F = fn() -> Box<dyn Debug>>` the default type is walked, and its `dyn` type gets a Return row |
| DownloadCrates.LatestDump | src/bin/download_crates.rs:83-86 | no dumps is the error "no crates.io database dump downloaded"; otherwise the result is one of the dumps |
| DownloadCrates.LatestDumpIsGreatest | src/bin/download_crates.rs:83-86 | the chosen dump's name is greatest in character order, and it is the last dump with that name |
| DownloadCrates.RetainKeepsRecent | src/bin/download_crates.rs:94-95 | a crate is kept exactly when it was updated after the cutoff; the kept crates are a sub-multiset of the input |
| DownloadCrates.SortByDownloads | src/bin/download_crates.rs:96 | the result is a permutation of the input, sorted by downloads with the most downloaded first |
| DownloadCrates.Truncate | src/bin/download_crates.rs:97 | the result is the prefix of length at most n |
| DownloadCrates.TopDesc | src/bin/download_crates.rs:96-97 | after sorting and truncation, every kept crate has at least as many downloads as every dropped one |
| DownloadCrates.SelectedFacts | src/bin/download_crates.rs:93-97 | the selection has at most the requested number of crates, all updated after the cutoff and taken from the input, sorted by downloads, and none of the dropped recent crates has more downloads than a kept one |
| DownloadCrates.InitVersions | src/bin/download_crates.rs:99-103 | the version map has one empty list for each selected crate's id and no other key |
| DownloadCrates.FillVersions | src/bin/download_crates.rs:105-115 | each list grows by the version rows of its crate that are not yanked, in input order; versions of other crates are dropped and no key is added |
| DownloadCrates.CollectedFacts | src/bin/download_crates.rs:110-113 | a version is collected for a crate exactly when it belongs to that crate and is not yanked |
| DownloadCrates.VersionsOfAfterFill | src/bin/download_crates.rs:99-115 | the map built by the two loops is the map from each selected id to its collected versions |
| DownloadCrates.LastMaxIsLastMaximal | src/bin/download_crates.rs:121-123 | the newest version has the greatest creation time, and no later version in the list ties it |
| DownloadCrates.NewestVersion | src/bin/download_crates.rs:121-123 | there is a newest version exactly when the list is non-empty, and it is one of the list's versions |
| DownloadCrates.UrlEndsWithDirName | src/bin/download_crates.rs:130-141 | the download URL is the crate's directory on `static.crates.io` followed by the version's directory name plus `.crate` |
| DownloadCrates.DownloadFor | src/bin/download_crates.rs:120-141 | a crate is downloaded exactly when it has a version and its directory is not already present, from the URL of its newest version |
| DownloadCrates.PlanFacts | src/bin/download_crates.rs:120-143 | a URL is planned exactly when some selected crate needs it; there are at most as many downloads as crates |
| DownloadCrates.PlanDownloads | src/bin/download_crates.rs:120-143 | the loop skips crates without versions or already present and yields the planned URLs in order |
| DownloadCrates.SelectAndDownload | src/bin/download_crates.rs:83-143 | with no dump the result is the "no dump" error; otherwise it is the download plan for the selected crates and their collected versions |

## Left out

- Database tables, SQL statements, `sql_enum` types, tracing, file names, line numbers and version ids are not modelled. A row is the values of a table's columns, appended to a `Sink.Log`.
- Parsing Rust with `syn` is not modelled. The model starts from a syntax tree that keeps the nodes some classifier reacts to or walks through, except the two kinds named on the next line. Rendering a type as text (`to_token_stream().to_string()`) is a parameter `render`.
- The syntax tree drops enum discriminant expressions (`enum E { A = e }`) and the signatures of functions declared in `extern` blocks. `TypeDecl` keeps only the field types, and an `extern` block is an `OtherItem`. syn's default visitor walks both: an `unsafe` block or a `transmute` call in a discriminant would give rows and add to the count of an enclosing function, and an `impl Trait`/`dyn Trait` in a foreign function's arguments or return type would give a traits row. The model gives no rows for either.
- Traits.Stats.VisitExpr: like `Traits.ExprRows`, which specifies it, an `OtherExpr` lists the rows of its types after the rows of its subexpressions. syn visits a struct literal's path before its fields, and a method call's turbofish after the receiver and before the arguments. So when both the types and the subexpressions of such an expression give rows, the model's order of those rows differs from the source's; the set and number of rows are the same.
- Types carry no expressions: array lengths, const generic arguments and the defaults of const generic parameters are dropped. So the positional visitor never reaches items or expressions inside a type.
- UnsafeCode.CallParamList.VisitPathSegment: parenthesized arguments on a callee segment give no type texts. The source would collect the type arguments nested inside them, but Rust does not allow `Fn(..)` sugar on an expression path.
- The file-level driver (`src/stats.rs`), the command line (`src/main.rs`), the walk over crates and months, parallelism and transactions are outside this model. So are the I/O of `src/bin/count_closures.rs` and `iterator_to_generators.rs`.
- DownloadCrates: reading directories and CSV files, their errors and the `?` error paths are not modelled. Dumps, crate rows and version rows are inputs, and a dump path is its file name.
- DownloadCrates: HTTP, unpacking tarballs and the errors of `unpack_tar_gz` are not modelled. The result is the list of URLs the loop would fetch, in order.
- DownloadCrates.DownloadFor: which directories already exist is a fixed set `present`. A download made earlier in the same loop does not add to it.
- DownloadCrates.SortByDownloads: the order among crates with equal downloads is whatever `sort_unstable_by_key` picks. The model fixes one order, by insertion sort. SelectedFacts and TopDesc hold for any sorted permutation.
- DownloadCrates.SelectAndDownload: the clock is a parameter `now`. Times are integer seconds, so the overflow of `now - max_age` is not modelled.
- Counts are unbounded naturals. The `usize` counters and the `as i32` casts written to the database cannot overflow in the model.
- The rows a test would log for `impl Iterator` with lifetime bounds are not modelled as an example. That test expects two lifetime bounds in a type that has none.
