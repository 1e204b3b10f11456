# benda, modelled in Dafny

benda lets a Python program use Bend, a language that runs on the HVM. The
crate has two halves, and this project models both:

- **The transpiler** (`Parser` in `crates/benda/src/parser/mod.rs`). It walks
  the statement list of a Python module and fills a Bend book:
  - a dataclass becomes a one-constructor datatype;
  - `N = A | B` merges two datatypes into a tagged union;
  - a function body becomes a nested Bend statement through `parse_vec`,
    `parse_match`, `parse_switch` and the expression translation;
  - a zero-parameter `main` is synthesised from the call of the traced
    function.
- **The value marshalling** between Python values and Bend terms:
  - the 24-bit number types `u24` and `i24`;
  - the type-name dispatch that picks a Bend literal for a Python value;
  - the built-in `Leaf`/`Node`/`Tree` types;
  - the decoder of HVM's lambda-encoded results back into constructor
    objects, and the encoder of user-ADT instances;
  - the generated constructor classes `Ctr1`..`Ctr8`, `Book::new`, and the
    preparation of the book a `Definition` call runs.

The project also models three example programs written for the transpiler:
`quicksort_mock.py`, `quicksort.py` and `fib.py`.

How the Rust code is represented:

- A Rust `panic!`, `todo!`, `unreachable!` or failed `unwrap` is
  `Err(Panic(msg))`, with the message the Rust runtime would print.
- An error returned to Python (`PyErr`) is `Err(Raise(msg))`.
- An `IndexMap` is a sequence of key/value entries, so insertion order is
  kept: it decides which constructor is found first and which slot a
  constructor takes.
- Arithmetic overflow follows a debug build: an overflowing `+` or `-`
  panics. The one exception is `PyErr::fetch` with no Python error set,
  which follows the release build (see "## Left out").

Layout, one module per file:

| file | models |
|---|---|
| `support.dfy` | `Option`, `Result`, the two error kinds, `str::split`, `split_once`, decimal rendering |
| `index_map.dfy` | the `IndexMap` operations the crate uses (`get`, `insert`, `swap_remove`, `shift_remove`) |
| `bits.dfy` | `&` on naturals, and the fact that masking with `2^k - 1` keeps the value modulo `2^k` |
| `bend.dfy` | the Bend data the crate builds and reads: numbers, `imp` expressions and statements, datatypes, the book, result terms |
| `u24.dfy`, `i24.dfy` | `types/u24.rs`, `types/i24.rs` |
| `trees.dfy`, `tree_args.dfy` | `types/tree.rs`: lowering of the tree types, and the argument scans of `Node(...)` and `Tree(...)` |
| `host.dfy` | the Python values the crate receives (otherwise opaque) |
| `builtins.dfy`, `dispatch.dfy` | `types/mod.rs`: `BuiltinType::from`, the number extraction, `extract_type` |
| `ctr_objects.dfy` | `types/book.rs`: `Ctr1`..`Ctr8` (`__call__`, `__setattr__`, `__getattr__`, `arity`) and `Ctrs` |
| `user_adt.dfy` | `types/user_adt.rs`: `num_to_i32`, the term decoder, `UserAdt::new`, `UserAdt::to_bend` |
| `books.dfy` | `types/book.rs`: `BendRuntime`, `Definition(s)`, `Adts`, `Book::new`, `Definition.__call__` |
| `py_ast.dfy` | the part of the Python AST the transpiler looks at |
| `lowering.dfy` | `parser/mod.rs`: `parse_expr_type`, `parse_bin_op`, `parse_vec`, `parse_match`, `parse_switch`, `find_in_ctrs` |
| `parsers.dfy` | `parser/mod.rs`: `add_adt`, the union and dataclass rules, `parse_main`, `parse` (the class `Parser`) |
| `quicksort_mock.dfy`, `quicksort.dfy`, `fib.dfy` | the three example programs |

## Model

| member | source | states |
|---|---|---|
| Support.JoinSplit | crates/benda/src/types/book.rs:718 | `split` loses nothing: joining the pieces with the separator gives the string back, and no piece contains the separator |
| Support.SplitOnce | crates/benda/src/types/user_adt.rs:269 | `split_once` fails exactly when the separator is absent; otherwise the string is the part before, the separator, then the part after, and the part before holds no separator |
| Support.SplitOnceFirstSegment | crates/benda/src/types/user_adt.rs:269 | when the separator occurs, the part before the first one is the first piece of `split`, so `UserAdt::new` and `to_bend` agree on a constructor's datatype |
| Support.NatToStringInjective | crates/benda/src/types/book.rs:482 | distinct numbers render as distinct decimal strings, so the names `arg<i>` never collide |
| IndexMaps.InsertSpec | crates/benda/src/parser/mod.rs:594-614 | `insert` keeps the keys distinct and maps the key to the new value. Every other key's lookup is unchanged. An existing key keeps its position, and a new key is appended |
| IndexMaps.SwapRemoveSpec | crates/benda/src/parser/mod.rs:694-705 | `swap_remove` returns the key's value, or `None` when the key is absent. The key is gone, the other keys keep their lookups, and exactly that entry is removed from the multiset of entries |
| IndexMaps.ShiftRemoveSpec | crates/benda/src/types/book.rs:855-856 | `shift_remove` removes the key, keeps every other lookup, and keeps the remaining keys in order |
| IndexMaps.GetAppend | crates/benda/src/parser/mod.rs:591-595 | appending entries leaves the lookups of keys already present unchanged |
| IndexMaps.SwapRemoveTwice | crates/benda/src/parser/mod.rs:694-705 | after two `swap_remove`s both keys are gone and every other lookup is unchanged |
| Bits.AndLowMask | crates/benda/src/types/u24.rs:27-29 | `x & (2^k - 1) == x % 2^k`, the fact behind both 24-bit masks |
| UInt24.New | crates/benda/src/types/u24.rs:24-29 | `U24::new(v)` is `v & 0xffffff`, which is `v mod 2^24`: always at most `0xffffff`, and `v` itself when `v` fits |
| UInt24.Add | crates/benda/src/types/u24.rs:60-66 | the sum modulo 2^24. The `u32` addition overflows, and panics, exactly when the sum reaches 2^32 |
| UInt24.AddAgreesWithBend | crates/benda/src/types/u24.rs:60-66 | on stored values the sum never overflows the `u32`. It is the plain sum below 2^24, and the sum minus 2^24 above |
| UInt24.Sub | crates/benda/src/types/u24.rs:68-74 | defined exactly when `b <= a`, because the `u32` subtraction underflows otherwise. The result is the difference modulo 2^24 |
| UInt24.Mul | crates/benda/src/types/u24.rs:94-96 | `__mul__` is the product modulo 2^32 (`wrapping_mul`), with no mask; a product below 2^32 is exact |
| UInt24.MulLeavesRange | crates/benda/src/types/u24.rs:94-96 | `__mul__` wraps modulo 2^32 and is not masked, so `0x1000 * 0x1000` gives `0x1000000`, above the 24-bit maximum |
| UInt24.MulThenNew | crates/benda/src/types/u24.rs:94-96 | masking the unmasked product with `new` gives the product modulo 2^24, so the 2^32 wrap loses nothing a later `new` keeps |
| UInt24.TrueDiv | crates/benda/src/types/u24.rs:98-103 | a zero divisor raises "division by zero"; otherwise the truncated quotient `q` with `q*b <= a < (q+1)*b` |
| UInt24.FloorDiv | crates/benda/src/types/u24.rs:105-110 | the same as `__truediv__`: the truncated quotient, or "division by zero" |
| UInt24.Int | crates/benda/src/types/u24.rs:120-122 | `__int__` succeeds exactly when the value fits an `i32`, and then returns it unchanged |
| UInt24.RichCmp | crates/benda/src/types/u24.rs:124-133 | the derived equality compares the stored numbers, so `==` holds exactly when they are equal and `!=` is its negation. `>=` is the negation of `<`, `>` is `<` with the sides swapped, and `<=` is the negation of `>` |
| UInt24.RichCmpAgreesWithInt | crates/benda/src/types/u24.rs:124-133 | wherever `__int__` succeeds on both sides, each of the six comparisons gives the answer Python gives for the two `int`s |
| UInt24.RichCmpAfterMask | crates/benda/src/types/u24.rs:124-133 | comparisons see the masked values: `new(2^24 + 1) < new(2)` holds, although `2^24 + 1 < 2` does not |
| UInt24.ToBendRoundTrip | crates/benda/src/types/u24.rs:15-21 | `to_bend` emits a `U24` literal from which the value is read back unchanged, and `new` of a stored value is the identity |
| UInt24.OverflowExample | crates/benda/src/types/u24.rs:189-197 | `new(1 << 25)` is 0, the value Bend computes for `(<< 1 25)` |
| UInt24.SumExample | crates/benda/src/types/u24.rs:199-207 | `new(25 + 10)` is 35 |
| Int24.Bits32 | crates/benda/src/types/i24.rs:24-26 | the two's-complement bits of an `i32` agree with the value modulo 2^24 |
| Int24.New | crates/benda/src/types/i24.rs:21-26 | `i24::new(v)` is `v & 0xffffff`, which is `v mod 2^24` and never negative. A value in `[0, 2^24)` is kept |
| Int24.NegativeOneExample | crates/benda/src/types/i24.rs:24-26 | `new(-1)` stores 16777215 |
| Int24.ToBend | crates/benda/src/types/i24.rs:14-18 | `to_bend` emits an `I24` number literal |
| Int24.ToBendRoundTrip | crates/benda/src/types/i24.rs:14-18 | the literal `to_bend` emits reads back to the stored value, and `new` of a stored value keeps it |
| Int24.Add | crates/benda/src/types/i24.rs:57-63 | the sum modulo 2^24 |
| Int24.Sub | crates/benda/src/types/i24.rs:65-71 | the difference modulo 2^24. When `a < b` it is `a - b + 2^24`, not the negative difference |
| Trees.LeafNew | crates/benda/src/types/tree.rs:24-32 | `Leaf(v)` accepts exactly the `u32` range and stores `v mod 2^24` |
| Trees.TreeToBendOk | crates/benda/src/types/tree.rs:115-127 | a tree lowers without error exactly when every tree on the way down has a leaf or a node. A tree with neither is the `todo!()` panic |
| Trees.NodeToBendOk | crates/benda/src/types/tree.rs:82-106 | a node lowers to `Tree/Node` with one argument per present side, or fails with a side's error |
| Trees.TreeRoundTrip | crates/benda/src/types/tree.rs:82-127 | lowering a tree that is a leaf, or a node with both sides, and reading the lowered term back gives the tree |
| Trees.TreeTypeFrom | crates/benda/src/types/tree.rs:136-145 | exactly `benda.Leaf`, `benda.Node` and `benda.Tree` are accepted, each to its own kind; any other name panics |
| TreeArgs.NewTree | crates/benda/src/types/tree.rs:52-64 | one argument of `Node(...)` gives a tree exactly when it is a tree value of the kind its class name selects, and then it is that value as a tree |
| TreeArgs.NodeNew | crates/benda/src/types/tree.rs:45-79 | the loop of `Node::new` computes the scan `NodeScan` |
| TreeArgs.NodeNewFirstTwo | crates/benda/src/types/tree.rs:66-75 | when the first two arguments are trees, they become the left and right subtrees, in order |
| TreeArgs.TreeValueAccepted | crates/benda/src/types/tree.rs:52-64 | every tree value passes its class-name dispatch and its downcast |
| TreeArgs.NodeNewTooFew | crates/benda/src/types/tree.rs:78 | with fewer than two tree arguments, `Node(...)` panics "Node must receive two trees in its constructor" |
| TreeArgs.NodeNewRejects | crates/benda/src/types/tree.rs:52 | an argument of another class, met before two trees, panics in `TreeType::from` |
| TreeArgs.TreeNew | crates/benda/src/types/tree.rs:151-174 | the loop of `Tree::new` computes the scan `TreeScan` |
| TreeArgs.TreeNewLeafFirst | crates/benda/src/types/tree.rs:158-165 | a leaf as the first argument gives the leaf-only tree |
| TreeArgs.TreeNewNodeFirst | crates/benda/src/types/tree.rs:167-169 | a node or a tree as the first argument panics "Tree must receive a Leaf in constructor" |
| TreeArgs.TreeScanAt | crates/benda/src/types/tree.rs:152-170 | one step of the scan: a leaf ends it with the leaf-only tree; any other tree kind panics |
| TreeArgs.TreeScanLeafOnly | crates/benda/src/types/tree.rs:151-174 | whatever `Tree(...)` builds has a leaf and no node |
| TreeArgs.LeafAccepted | crates/benda/src/types/tree.rs:158-160 | a leaf value's class name selects the leaf kind, and the downcast gives it back |
| TreeArgs.NodeOrTreeAccepted | crates/benda/src/types/tree.rs:136-145 | a node or tree value's class name selects its own kind |
| Builtins.BuiltinTypeFrom | crates/benda/src/types/mod.rs:94-106 | each of the six known type names maps to its own type; every other name maps to a user ADT, in both directions |
| Builtins.ExtractInner | crates/benda/src/types/mod.rs:20-29 | `extract_inner` returns the value exactly when the downcast to the class succeeds |
| Builtins.ExtractInnerByName | crates/benda/src/types/mod.rs:20-29 | a `u24` or tree value passes the downcast that its own type name selects |
| Builtins.ParseI32 | crates/benda/src/types/mod.rs:36 | `parse::<i32>` yields only values in the `i32` range |
| Builtins.ParseI32OfStr | crates/benda/src/types/mod.rs:36-44 | a Python `int`, printed and parsed as `i32`, comes back exactly when it fits, and is `None` otherwise |
| Builtins.ParseUnsigned | crates/benda/src/types/mod.rs:36-44 | a string of decimal digits parses as `i32` to its value exactly when the value is at most `i32::MAX` |
| Builtins.ParseNegative | crates/benda/src/types/mod.rs:36-44 | a minus sign followed by decimal digits parses as `i32` to the negated value exactly when it is at least `i32::MIN` |
| Builtins.RawToBend | crates/benda/src/types/mod.rs:108-130 | a `u24` or `u32` gives a `U24` literal, an `i32` an unmasked `I24` literal, a float an `F24` literal |
| Builtins.ExtractNumRaw | crates/benda/src/types/mod.rs:31-40 | `int` yields an `i32` and `float` a float; a failed parse panics, and any other type is unreachable |
| Builtins.ExtractNum | crates/benda/src/types/mod.rs:42-48 | the same parse lowered at once: it fails exactly when the raw extraction fails |
| Builtins.ExtractTypeRaw | crates/benda/src/types/mod.rs:50-64 | a value only for `u24`, `int` and `float`. Tree types and user ADTs give `None`, and the only failures are panics |
| Builtins.ExtractTypeRawNumbers | crates/benda/src/types/mod.rs:42-64 | an `int` in the `i32` range becomes an unmasked `I24` literal, and one outside it panics. A `u24` becomes a `U24` literal of its stored value |
| Dispatch.ExtractTypeAgrees | crates/benda/src/types/mod.rs:66-81 | `extract_type` lowers numbers as `extract_type_raw` then `to_bend`, and tree values by their own lowering. Any other value lowers only as a recognised user ADT; an unrecognised one panics at the `unwrap` |
| Dispatch.ExtractTypeNone | crates/benda/src/types/mod.rs:79 | Python's `None` goes to the user-ADT branch and panics |
| CtrObjects.ParseUsize | crates/benda/src/types/book.rs:237 | `parse::<usize>` accepts only an optional `+` followed by digits, with a value below 2^64 |
| CtrObjects.ParseUsizeNatToString | crates/benda/src/types/book.rs:237 | a number's decimal rendering parses back to the number |
| CtrObjects.CallValue | crates/benda/src/types/book.rs:189-200 | `__call__` succeeds exactly when there are at least as many arguments as fields. Field i then holds argument i, extra arguments are ignored, and names and order are kept |
| CtrObjects.SetAttrValue | crates/benda/src/types/book.rs:202-210 | `__setattr__` changes only an existing field, to the new value. An unknown name leaves the object unchanged, and every other field keeps its value |
| CtrObjects.GetAttrPrecedence | crates/benda/src/types/book.rs:220-249 | `__getattr__` checks, in order: `__variant`/`__ctr_type__` give the full name; `0` underflows `n - 1` and panics; `1..arity` give that field; a name outside those succeeds exactly when it is a field; a raised error means no such field |
| CtrObjects.CallThenGetAttr | crates/benda/src/types/book.rs:195-242 | after a call, attribute `n` reads the n-th argument for every n from 1 to the arity |
| CtrObjects.SetThenGetAttr | crates/benda/src/types/book.rs:207-245 | after `__setattr__` of an existing plain field, reading it gives the value set |
| CtrObjects.Ctr.Call | crates/benda/src/types/book.rs:189-200 | the fields are set in place one by one. The resulting object is `CallValue` of the old one, and a call with too few arguments panics after updating the first fields |
| CtrObjects.Ctr.SetAttr | crates/benda/src/types/book.rs:202-210 | the object's new state is `SetAttrValue` of its old state |
| CtrObjects.BaseCaseFrom | crates/benda/src/types/book.rs:324-350 | `get_base_case` returns the first slot with arity 0; `None` when all eight slots are filled with nonzero arity; a panic when an empty slot comes before any arity-0 slot |
| CtrObjects.CtrsGetAttr | crates/benda/src/types/book.rs:355-361 | a constructor object is found exactly when its short name is present, and it is the object stored under that name |
| CtrObjects.PyGetAttr | crates/benda/src/types/user_adt.rs:311-314 | a constructor object or other object fetched through `getattr` is smaller than its container, so walking attributes ends |
| Books.CommandSpec | crates/benda/src/types/book.rs:384-412 | each runtime has its own command (`run`, `run-c`, `run-cu`), every command starts with `run`, and an unset runtime runs on Rust |
| Books.DefinitionsGetAttr | crates/benda/src/types/book.rs:610-622 | a definition is found exactly when its name is present, with the collection's runtime stamped on; otherwise an error is raised |
| Books.AdtsGetAttr | crates/benda/src/types/book.rs:662-672 | a datatype's constructor objects are found exactly when its name is present |
| Books.SetCmd | crates/benda/src/types/book.rs:878-880 | `set_cmd` sets the runtime and changes nothing else |
| Books.DefsOf | crates/benda/src/types/book.rs:900-907 | the `defs` getter hands out the definitions with the book's runtime |
| Books.BookGetAttr | crates/benda/src/types/book.rs:922-926 | any other attribute of the book raises an error |
| Books.SetCmdThenLookup | crates/benda/src/types/book.rs:610-622 | a definition fetched after `set_cmd(rt)` runs on `rt` and keeps its arity |
| Books.FieldTableSpec | crates/benda/src/types/book.rs:726-728 | a fresh constructor object lists every declared field once, each unset; with distinct field names they are in declaration order |
| Books.CtrsOfSlots | crates/benda/src/types/book.rs:715-839 | a datatype with at most 8 constructors fills the first slots in order and leaves the rest empty; a ninth constructor panics |
| Books.CtrsOfNames | crates/benda/src/types/book.rs:718-732 | each constructor is reachable by the last `/`-segment of its name, and with distinct short names each gives its own object |
| Books.AdtTableSpec | crates/benda/src/types/book.rs:703-842 | the datatype table fails exactly when some datatype has more than 8 constructors; otherwise it lists every datatype in order with its constructor objects |
| Books.AdtTableFails | crates/benda/src/types/book.rs:703-842 | the first datatype that does not fit stops the table with its panic |
| Books.DefTableSpec | crates/benda/src/types/book.rs:846-853 | every definition, `main` and `Main` included, is recorded in order with its arity |
| Books.BookNewSpec | crates/benda/src/types/book.rs:700-868 | `Book::new` succeeds exactly when every datatype fits 8 slots. The Python book lists all definitions, with no runtime set. The global book keeps the datatypes, the constructors and every definition except `Main` and `main` |
| Books.BuildFields | crates/benda/src/types/book.rs:726-728 | the field loop builds `FieldTable` |
| Books.BuildCtrs | crates/benda/src/types/book.rs:715-839 | the constructor loop builds `CtrsOf`, panicking at a ninth constructor |
| Books.Runtime.NewBook | crates/benda/src/types/book.rs:700-868 | the loops build `BookNew`. On success both thread-locals are installed; a panic leaves them as they were |
| Books.ArgNameSpec | crates/benda/src/types/book.rs:482 | the names `arg<i>` are distinct and never `main` |
| Books.ArgBody | crates/benda/src/types/book.rs:484-509 | a `Term` or `Fan` argument is passed as its term. Every other failure is a panic: a raised error of the ADT lowering becomes the `unwrap` panic, and a panic inside it keeps its own message |
| Books.AdtBody | crates/benda/src/types/book.rs:499-500 | an ADT argument succeeds exactly when its lowering does, and is then that expression. A raised error of the lowering becomes the `unwrap` panic; a panic inside it propagates with its own message |
| Books.ArgBodyValues | crates/benda/src/types/book.rs:494-506 | an `int` in range is passed as an `I24` literal; a tree value is neither a user ADT nor a number and panics |
| Books.ArgDefsSpec | crates/benda/src/types/book.rs:481-527 | the argument loop fails exactly when an argument cannot be converted. Otherwise argument i is bound to `arg<i>`, the call's variables are `arg0, arg1, ...` in order, and no other definition changes |
| Books.CallBookSpec | crates/benda/src/types/book.rs:478-546 | when all arguments convert, the book handed to the evaluator is the global book plus `arg<i>` per argument and a `main` that calls the function on them in order. Datatypes, constructors and all other definitions are unchanged |
| Books.CallOutcomeSpec | crates/benda/src/types/book.rs:468-572 | an argument count that differs from a nonzero arity is an error, and arity 0 accepts any count. Without a global book nothing runs. Otherwise the call prepares `CallBook` and puts the global book back |
| Books.Runtime.Call | crates/benda/src/types/book.rs:465-553 | the method's result and the new `GLOBAL_BOOK` are those of `CallOutcome` |
| Books.ArityErrorLosesBook | crates/benda/src/types/book.rs:468-553 | as written, an arity error leaves `GLOBAL_BOOK` empty, and every later call fails with "Could not execute function" |
| Books.CallOutcomeRestoring | crates/benda/src/types/book.rs:468-553 | the corrected call gives the same result and always puts the global book back |
| Books.RestoringRecovers | crates/benda/src/types/book.rs:468-553 | with the book restored, a well-formed call after any failed call prepares the same book as on its own |
| UserAdts.NumToI32 | crates/benda/src/types/user_adt.rs:41-47 | a `U24` is an `i32` exactly when it lies in the `i32` range, and it keeps its value. An `I24` always converts unchanged. A converted `F24` is its value rounded toward zero |
| UserAdts.SlotCtr | crates/benda/src/types/user_adt.rs:142-176 | the application of a variable to a number selects the constructor in that slot. This succeeds exactly when the number is an `i32` between 0 and 7 and the slot is filled |
| UserAdts.DecodeLeaves | crates/benda/src/types/user_adt.rs:92-219 | a number decodes to an `I32` of its value. A variable or any other leaf decodes to nothing. A slot selection succeeds exactly when the slot exists |
| UserAdts.UnappliedCtrPanics | crates/benda/src/types/user_adt.rs:100-140 | a lambda whose body selects a constructor that still expects fields reaches a `todo!()` |
| UserAdts.DecodedFields | crates/benda/src/types/user_adt.rs:178-215 | the first k decoded fields of a constructor value are k values |
| UserAdts.CallIgnoresExtra | crates/benda/src/types/book.rs:189-200 | calling a constructor with more arguments than its arity builds the same object as with exactly its arity |
| UserAdts.DecodeEncode | crates/benda/src/types/user_adt.rs:92-220 | decoding the Scott-encoded term of a well-typed value gives the value back: an integer as `I32`, a constructor as the object its slot's constructor builds from the decoded fields |
| UserAdts.DecodeSpine | crates/benda/src/types/user_adt.rs:142-215 | the spine `x tag f1 … fk` decodes to the slot's constructor, collecting the first k decoded fields in order |
| UserAdts.SpineHead | crates/benda/src/types/user_adt.rs:142-176 | the head `x tag` of a spine decodes to the constructor in slot `tag` |
| UserAdts.SpineCollects | crates/benda/src/types/user_adt.rs:178-215 | combining the next decoded field with what the spine has collected so far appends that field |
| UserAdts.SpineStep | crates/benda/src/types/user_adt.rs:178-215 | one more application on the spine decodes to what the shorter spine gave, combined with the decoded field |
| UserAdts.FindCtrFrom | crates/benda/src/types/user_adt.rs:266-284 | a value is recognised only under a constructor name of the book, together with the datatype its qualifier names. `None` means no later entry has that name. A book whose names are all qualified and whose datatypes exist never panics |
| UserAdts.UserAdtNew | crates/benda/src/types/user_adt.rs:256-287 | Python's `None` is not recognised. A recognised value is a constructor or another object whose name is a constructor of the book. Errors are panics only, and none occurs on a well-formed book |
| UserAdts.UserAdtNewCtr | crates/benda/src/types/user_adt.rs:256-287 | on a well-formed book, a constructor object is recognised exactly when its qualified name is a constructor of the book. It is paired with the datatype its qualifier names |
| UserAdts.CtrBinding | crates/benda/src/types/user_adt.rs:264-269 | the name `UserAdt::new` searches for a constructor object is its qualified name |
| UserAdts.FindCtrFound | crates/benda/src/types/user_adt.rs:266-284 | on a well-formed book, the search finds a name exactly when the constructor table holds it |
| UserAdts.FindUserAdt | crates/benda/src/types/user_adt.rs:256-287 | the loop over the constructor table gives exactly what `UserAdtNew` specifies |
| UserAdts.NullaryCtrs | crates/benda/src/types/user_adt.rs:322-336 | the fallback lists every field-less constructor of the datatype and nothing else, as constructor expressions without arguments, one at most per declaration |
| UserAdts.NullaryCtrsAppend | crates/benda/src/types/user_adt.rs:329-336 | the constructors collected from two runs of declarations are those of the first run followed by those of the second, so the result keeps declaration order |
| UserAdts.NullaryCtrsOne | crates/benda/src/types/user_adt.rs:329-336 | one declaration contributes its constructor exactly when it has no fields |
| UserAdts.FieldSpec | crates/benda/src/types/user_adt.rs:306-338 | every failure in lowering one field is a panic, because the only raised errors come from the nested lowering and the `unwrap` turns them into panics |
| UserAdts.FieldSpecNested | crates/benda/src/types/user_adt.rs:318-320 | a field holding an instance of a user ADT lowers to that instance's expression. A raised error of the nested lowering becomes the `unwrap` panic, and a panic inside it keeps its own message |
| UserAdts.FieldsFrom | crates/benda/src/types/user_adt.rs:306-338 | every failure in lowering the fields is a panic |
| UserAdts.MatchFrom | crates/benda/src/types/user_adt.rs:302-348 | a success is a constructor expression named like the value. A Python error is raised exactly when no remaining constructor has the value's name |
| UserAdts.ToBendSpec | crates/benda/src/types/user_adt.rs:300-349 | a success is a constructor expression named like the value. A Python error is raised exactly when the name is not a constructor of the value's datatype; every other failure is a panic |
| UserAdts.LowerUserAdt | crates/benda/src/types/user_adt.rs:300-349 | the two nested loops of `to_bend` give exactly `ToBendSpec` |
| UserAdts.LowerField | crates/benda/src/types/user_adt.rs:306-338 | one pass of the field loop gives exactly `FieldSpec`, including the nested lowering's propagated panic |
| UserAdts.LowerFields | crates/benda/src/types/user_adt.rs:304-339 | the loop over the matching constructor's fields gives exactly `FieldsFrom` from the first field, stopping at the first failing field |
| UserAdts.CollectNullary | crates/benda/src/types/user_adt.rs:322-336 | the fallback loop collects exactly `NullaryCtrs` |
| UserAdts.LowerIntFields | crates/benda/src/types/user_adt.rs:300-349 | an object whose declared fields all hold `i32` integers lowers to its constructor applied to those integers as `I24` literals, in field order |
| UserAdts.I24Literals | crates/benda/src/types/mod.rs:108-141 | integer literals in the same number and order as the integers |
| UserAdts.FieldOfInt | crates/benda/src/types/user_adt.rs:306-318 | an integer field lowers to exactly one `I24` literal of its value |
| UserAdts.FieldsOfInts | crates/benda/src/types/user_adt.rs:306-338 | fields that each lower to a literal lower, as a list, to those literals in order |
| UserAdts.MatchSkips | crates/benda/src/types/user_adt.rs:302-304 | constructors with other names are passed over |
| Lowering.GetVarName | crates/benda/src/parser/mod.rs:24-33 | a name comes back exactly for a variable expression, and it is that variable's name |
| Lowering.StmtOf | crates/benda/src/parser/mod.rs:485-491 | a statement is extracted exactly when the lowered piece is one |
| Lowering.NxtStmt | crates/benda/src/parser/mod.rs:389-395 | the continuation is accepted exactly when it is absent or a statement, and then it is that statement. Any other lowered piece reaches `todo!()` |
| Lowering.FindInCtrs | crates/benda/src/parser/mod.rs:402-411 | nothing is found exactly when no registered constructor has the name among its `/`-separated parts. A found constructor is registered and has the name among its parts |
| Lowering.FindInCtrsFirst | crates/benda/src/parser/mod.rs:402-411 | the constructor found is the first one, in registration order, with the name among its parts |
| Lowering.TargetName | crates/benda/src/parser/mod.rs:426-430 | an assignment has a name exactly when its first target is a plain name, and that is the name |
| Lowering.PatternName | crates/benda/src/parser/mod.rs:279-313 | only a value or class pattern lowers; any other pattern reaches `todo!()`. The constructor it names is present exactly when the value (or the class) lowers to a name, and is that name. A class pattern adds its `MatchAs` names to those bound so far, and a value pattern adds none |
| Lowering.BoundNames | crates/benda/src/parser/mod.rs:293-309 | the names a class pattern binds are exactly those of its `MatchAs` sub-patterns |
| Lowering.MatchCase | crates/benda/src/parser/mod.rs:276-345 | each case only adds to the bound names seen so far |
| Lowering.MatchCaseArm | crates/benda/src/parser/mod.rs:315-333 | a case's body is lowered in the match context over the subject's name when the subject lowers to a name, so every name bound so far reads in the body as a field of the subject. The case gives an arm exactly when its pattern names a constructor and its body lowers to a statement. The arm is tagged with the book constructor found for that name |
| Lowering.MatchArmsNext | crates/benda/src/parser/mod.rs:279-334 | the arm of case i, if it gives one, comes right after the arms of the earlier cases, and collection goes on from case i + 1 with the names and context case i leaves |
| Lowering.NameLowering | crates/benda/src/parser/mod.rs:140-159 | inside a match arm a name the patterns bound is read as a field of the subject (`subject.name`); everywhere else a name stays as written |
| Lowering.ExprNeverStatement | crates/benda/src/parser/mod.rs:64-262 | an expression never lowers to a statement |
| Lowering.BinOpOfNames | crates/benda/src/parser/mod.rs:205-250 | two bare-name operands make a field list. The list holds both names when either names a datatype, and is empty otherwise. `@`, `%` and `//` panic first |
| Lowering.BinOpOfExprs | crates/benda/src/parser/mod.rs:205-261 | operands that are not both bare names make the binary operation of the mapped operator. An unsupported operator panics |
| Lowering.SumOfNamesIsNoExpr | crates/benda/src/parser/mod.rs:221-250 | `a + b` on two names that are not datatypes lowers to an empty field list, so `return a + b` reaches `todo!()` |
| Lowering.ArgsOfNames | crates/benda/src/parser/mod.rs:168-175 | call arguments that are plain names are all kept, in order, each as written in the context |
| Lowering.CallOfName | crates/benda/src/parser/mod.rs:162-193 | a call of a name is a constructor application when the name is found among the constructors, and a function call otherwise |
| Lowering.ParseVecNothing | crates/benda/src/parser/mod.rs:418-576 | past the end, at a bare `return` and at an unsupported statement kind, nothing is lowered and the context is kept |
| Lowering.ParseVecExprStmt | crates/benda/src/parser/mod.rs:539-568 | an expression statement is the final `return` only in the main context when it calls the traced function; otherwise it lowers to nothing. Only the main context can fail here |
| Lowering.ParseVecAssign | crates/benda/src/parser/mod.rs:481-492 | outside the main context, `x = e` becomes an assignment whose continuation is the rest of the list. A rest that is not a statement reaches `todo!()` |
| Lowering.MainSkipsAssign | crates/benda/src/parser/mod.rs:432-462 | in the main context, an assignment to a non-parameter that does not call the traced function is skipped |
| Lowering.ParseVecIf | crates/benda/src/parser/mod.rs:497-525 | an `if` lowers only when its test is an expression and both branches are statements. Otherwise it panics with "If Statement must have an else." |
| Lowering.IfWithoutElse | crates/benda/src/parser/mod.rs:497-525 | an `if` without an `else` panics once its parts lower |
| Lowering.VecCtx | crates/benda/src/parser/mod.rs:413-578 | lowering a statement list leaves either the context it started with or none |
| Lowering.AssignCtx | crates/benda/src/parser/mod.rs:426-495 | the same holds for an assignment |
| Lowering.IfCtx | crates/benda/src/parser/mod.rs:497-525 | the same holds for an `if` |
| Lowering.MatchLeavesNoCtx | crates/benda/src/parser/mod.rs:271-363 | after a `match` no context is left |
| Lowering.SwitchCtx | crates/benda/src/parser/mod.rs:365-400 | a switch leaves the context it started with or none |
| Lowering.SwitchArmsCtx | crates/benda/src/parser/mod.rs:365-384 | the switch's arms leave the context they started with or none |
| Lowering.MatchPattAccumulates | crates/benda/src/parser/mod.rs:276-345 | the names bound by the patterns of a match only grow from case to case |
| Lowering.MatchArmsInOrder | crates/benda/src/parser/mod.rs:276-345 | the arms keep case order, with at most one arm per case |
| Lowering.ParseMatchShape | crates/benda/src/parser/mod.rs:271-363 | a lowered `match` leaves no context, binds its subject exactly when the subject is a variable, and has at most one arm per case. It is lowered exactly when its subject lowers to an expression |
| Lowering.ParseMatchArms | crates/benda/src/parser/mod.rs:271-363 | the arms of a lowered `match` are exactly those the case loop collects from the first case, with no names bound yet |
| Lowering.SwitchArmsNoCtx | crates/benda/src/parser/mod.rs:365-384 | with no context, the switch's arms are the case bodies that lower to statements, in order |
| Lowering.ParseSwitchShape | crates/benda/src/parser/mod.rs:365-400 | a switch without a following `match` lowers to nothing and leaves the context unchanged. With a following `match` (which `SwitchNxtIsMatch` shows is always reached with no context) it is a `switch` on the subject, bound to the assigned name, whose arms are the case bodies and whose continuation is the lowered rest |
| Lowering.SwitchNxtIsMatch | crates/benda/src/parser/mod.rs:438-479 | in any context, including inside a match arm: in `main` the assignment is the final `return` or is skipped, as for any assignment. Otherwise the `match` after it is lowered first and clears the context, so `parse_switch` runs with no context, binds `x`, and continues with that `match` |
| Parsers.Owned | crates/benda/src/parser/mod.rs:590-595 | each constructor is owned by the datatype, in order |
| Parsers.RegisterCtrsSpec | crates/benda/src/parser/mod.rs:590-612 | registering fresh constructors appends them, each owned by the datatype. A constructor already owned makes registration fail |
| Parsers.RegisterFresh | crates/benda/src/parser/mod.rs:590-612 | fresh constructors are appended in order, each owned by the datatype |
| Parsers.RegisterTaken | crates/benda/src/parser/mod.rs:596-609 | a constructor already owned by some datatype makes registration fail |
| Parsers.AppendFresh | crates/benda/src/parser/mod.rs:594 | appending a fresh key keeps the keys distinct and adds that key at the end |
| Parsers.RegisteredSpec | crates/benda/src/parser/mod.rs:580-615 | `add_adt` succeeds exactly when neither the datatype nor any of its constructors is taken. A taken datatype panics with the builtin or repeated message. On success the datatype is registered and owns each constructor, and every other lookup and the definitions stay |
| Parsers.RegisteredLookups | crates/benda/src/parser/mod.rs:590-614 | on success the new book is the old one with the datatype inserted and its constructors appended |
| Parsers.RegisteredIs | crates/benda/src/parser/mod.rs:590-614 | with a fresh name and no constructor taken, `add_adt` appends each constructor, owned by the new datatype, in declaration order |
| Parsers.OwnedLookups | crates/benda/src/parser/mod.rs:591-595 | after the append, each new constructor looks up to its datatype and every other constructor keeps its owner |
| Parsers.RegisteredConsistent | crates/benda/src/parser/mod.rs:580-615 | registering keeps the book consistent: constructors and datatypes refer to each other |
| Parsers.AppendedCtrsDistinct | crates/benda/src/parser/mod.rs:590-612 | the constructor table keeps distinct keys |
| Parsers.AppendedOwners | crates/benda/src/parser/mod.rs:590-614 | every constructor's owner is a registered datatype that declares it |
| Parsers.AppendedDeclared | crates/benda/src/parser/mod.rs:590-614 | every constructor a registered datatype declares is owned by that datatype |
| Parsers.AllFields | crates/benda/src/parser/mod.rs:707-712 | the fields of a one-constructor datatype are that constructor's fields |
| Parsers.CollectFields | crates/benda/src/parser/mod.rs:707-712 | the nested field loop collects exactly `AllFields` |
| Parsers.UnionStep | crates/benda/src/parser/mod.rs:697-718 | each member of a union removes its constructor and that constructor's datatype, and adds `Name/member` with all of that datatype's fields |
| Parsers.UnionOfUnknown | crates/benda/src/parser/mod.rs:697-705 | a member that is not a registered constructor panics on the `unwrap` |
| Parsers.UnionOfTwo | crates/benda/src/parser/mod.rs:683-722 | `Name = A \| B` removes both constructors and both datatypes, and builds `Name/A` and `Name/B` with all of their fields. Every other entry and the definitions stay |
| Parsers.RemovedBoth | crates/benda/src/parser/mod.rs:697-705 | after both removals the two constructors and datatypes are gone, and everything else is unchanged |
| Parsers.UnionFirst | crates/benda/src/parser/mod.rs:697-718 | the first member's step of the union |
| Parsers.UnionSecond | crates/benda/src/parser/mod.rs:697-718 | the second member's step, appended after the first |
| Parsers.FieldOf | crates/benda/src/parser/mod.rs:744-753 | a dataclass attribute becomes a recursive field |
| Parsers.DataclassFrom | crates/benda/src/parser/mod.rs:740-771 | attributes collect into the one constructor named after the class, in order |
| Parsers.DataclassShape | crates/benda/src/parser/mod.rs:740-771 | a dataclass of attributes has one constructor named after the class, with one recursive field per attribute, or none for an empty body. Any other statement in the body reaches `todo!()` |
| Parsers.DataclassTodo | crates/benda/src/parser/mod.rs:770 | a non-attribute statement in a dataclass body reaches `todo!()` |
| Parsers.Dataclass | crates/benda/src/parser/mod.rs:740-771 | the body loop gives exactly what `DataclassShape` describes |
| Parsers.StepFacts | crates/benda/src/parser/mod.rs:662-780 | one top-level statement never touches the book's definitions, only adds lowered functions, and never sets a context |
| Parsers.RegisteredDefs | crates/benda/src/parser/mod.rs:580-615 | registering a datatype leaves the definitions alone |
| Parsers.UnionDefs | crates/benda/src/parser/mod.rs:697-718 | building a union leaves the definitions alone |
| Parsers.AdtFromBodyFacts | crates/benda/src/parser/mod.rs:683-722 | a top-level assignment changes only the datatypes and constructors |
| Parsers.ParseAllFacts | crates/benda/src/parser/mod.rs:662-780 | the statement loop never touches the definitions of the book, only adds lowered functions, and never sets a context |
| Parsers.StepDataclass | crates/benda/src/parser/mod.rs:724-775 | a dataclass whose name is fresh is registered with its one constructor, owned by the class. Nothing else of the state changes |
| Parsers.StepPlainClass | crates/benda/src/parser/mod.rs:724-737 | a class without the `dataclass` decorator is ignored |
| Parsers.StepUnion | crates/benda/src/parser/mod.rs:683-722 | `Name = A \| B` over two registered constructors succeeds exactly when the union datatype can be registered, and then only the book changes |
| Parsers.UnionLowering | crates/benda/src/parser/mod.rs:221-250 | `A \| B` lowers to the field list of both names when one of them is a datatype |
| Parsers.StepEmptyAdt | crates/benda/src/parser/mod.rs:683-722 | an assignment whose value is not a union registers a datatype without constructors, which succeeds when the name is fresh |
| Parsers.DefsFromLast | crates/benda/src/parser/mod.rs:782-785 | after the definition loop, each name holds its last definition |
| Parsers.DefsFromUntouched | crates/benda/src/parser/mod.rs:782-785 | a name that no remaining definition has keeps its old lookup |
| Parsers.MainDefinitionShape | crates/benda/src/parser/mod.rs:617-659 | the entry point, when found, is named `main` and has no parameters |
| Parsers.MainCallPanics | crates/benda/src/parser/mod.rs:643-653 | assigning a call of the traced function to a non-parameter panics, with the "must have arguments" message when the call has no arguments and `todo!()` otherwise |
| Parsers.MainOfScript | crates/benda/src/parser/mod.rs:617-659 | for the script `x = v; y = f(x)` with x the parameter, `main` assigns v to x and returns `f(x)` |
| Parsers.ScriptBody | crates/benda/src/parser/mod.rs:426-492 | the lowering of that script in the main context |
| Parsers.ScriptReturn | crates/benda/src/parser/mod.rs:432-455 | the traced call in the main context becomes the final `return` |
| Parsers.MainCallLowering | crates/benda/src/parser/mod.rs:140-193 | a call of the traced function on its parameter lowers to the same function call |
| Parsers.ParsedBook | crates/benda/src/parser/mod.rs:661-791 | a parsed book has the datatypes and constructors of the statement loop, and a `main` without parameters. Without an entry point, the `unwrap` panics |
| Parsers.Parser.constructor | crates/benda/src/parser/mod.rs:54-61 | a new parser holds the statements, an empty book, no definitions and no context |
| Parsers.Parser.AddAdt | crates/benda/src/parser/mod.rs:580-615 | the book becomes exactly what `Registered` gives, or the error is its panic. Nothing else changes |
| Parsers.Parser.Union | crates/benda/src/parser/mod.rs:693-718 | the book and the constructor list are exactly what `UnionCtrs` gives. Nothing else changes |
| Parsers.Parser.ParseMain | crates/benda/src/parser/mod.rs:617-659 | the result and the context left are exactly those of `ParseMainFrom`, from the main context. The book and definitions stay |
| Parsers.Parser.ParseStatement | crates/benda/src/parser/mod.rs:663-780 | the state after one statement is exactly `Step` |
| Parsers.Parser.ParseFunctionDef | crates/benda/src/parser/mod.rs:664-682 | the state after a function definition is exactly `Step` |
| Parsers.Parser.ParseAssignment | crates/benda/src/parser/mod.rs:683-722 | the state after a top-level assignment is exactly `Step` |
| Parsers.Parser.AssignDatatype | crates/benda/src/parser/mod.rs:686-722 | the state after a datatype assignment is exactly `AssignAdt` |
| Parsers.Parser.RegisterBody | crates/benda/src/parser/mod.rs:693-721 | the state after registering the assignment's datatype is exactly `AdtFromBody` |
| Parsers.Parser.ParseClassDef | crates/benda/src/parser/mod.rs:724-775 | the state after a class is exactly `Step` |
| Parsers.Parser.Parse | crates/benda/src/parser/mod.rs:661-791 | the book the parser builds is exactly `ParseFrom`, and a success leaves it in the parser |
| QuicksortMock.LengthElems | examples/quicksort_mock.py:12-23 | a cons list's length is the number of its values |
| QuicksortMock.Partition | examples/quicksort_mock.py:41-54 | the `while True` loop gives exactly `PartitionFrom` |
| QuicksortMock.PartitionLeft | examples/quicksort_mock.py:41-54 | every value the loop sends left is at most the pivot |
| QuicksortMock.PartitionRight | examples/quicksort_mock.py:41-54 | every value the loop sends right is above the pivot |
| QuicksortMock.PartitionValues | examples/quicksort_mock.py:41-54 | the two sides end up with exactly their starting values plus the list's values |
| QuicksortMock.PartitionSpec | examples/quicksort_mock.py:41-54 | `partition` splits the list into the values at most the pivot and those above it. Together the two parts hold exactly the list's values, so both are shorter than a non-empty list |
| QuicksortMock.Concat | examples/quicksort_mock.py:57-63 | `concat` gives the first list's values followed by the second's |
| QuicksortMock.MockSortSpec | examples/quicksort_mock.py:66-74 | `mock_sort` returns its input's values sorted ascending, and a permutation of them |
| QuicksortMock.MockSortUnfold | examples/quicksort_mock.py:66-74 | for a non-empty list the result is the sorted left part, the pivot, then the sorted right part |
| QuicksortMock.AroundPivot | examples/quicksort_mock.py:66-74 | a sorted permutation of the lower part, the pivot, then a sorted permutation of the upper part is sorted and holds exactly those values |
| QuicksortMock.BoundByMultiset | examples/quicksort_mock.py:66-74 | a bound on the values survives a permutation |
| QuicksortMock.SortedAround | examples/quicksort_mock.py:66-74 | a sorted lower part, the pivot, then a sorted upper part is sorted |
| Quicksort.ElemsOfSeq | examples/quicksort.py:24-36 | a sequence's cons list holds its values, in order |
| Quicksort.OfSeqOfElems | examples/quicksort.py:39-48 | a cons list is the cons list of its values |
| Quicksort.GenList | examples/quicksort.py:16-21 | a zero or negative n gives the empty list, a positive n with a negative `max_value` raises `ValueError`, and otherwise the list holds the n random draws in order, each in [0, max_value] |
| Quicksort.GenListDefault | examples/quicksort.py:16-21 | with the default `max_value` of `0xffffff` the call never raises and every value fits in 24 bits |
| Quicksort.ToConsList | examples/quicksort.py:24-36 | the cons list holds the values of the Python list, in the same order |
| Quicksort.FromConsList | examples/quicksort.py:39-48 | the Python list holds the values of the cons list up to `List_Nil`, and converting back gives the cons list |
| Quicksort.MockedSorted | examples/quicksort.py:51-66 | the mocked result is sorted ascending and a permutation of the data, as `sorted(data)` is |
| Quicksort.RoundTrip | examples/quicksort.py:24-48 | converting to a cons list and back gives the original list |
| Fib.GoShift | examples/fib.py:34-48 | started from two consecutive Fibonacci numbers, `go` walks n steps along the sequence |
| Fib.FibEquivalence | examples/fib.py:19-48 | `fib_iterative(n)` equals `fib_recursive(n)` for every non-negative n |
| Fib.GoLinear | examples/fib.py:42-46 | `go` from any pair (a, b) is a linear combination of the pair with Fibonacci coefficients |

## Left out

- Running Bend is not modelled. This covers `run` and the evaluator behind it, the `println!` of the book, and the string `Parser::parse` returns (crates/benda/src/parser/mod.rs:793-802). `Parsers.Parser.Parse` ends with the book that would run. `Books.Runtime.Call` ends with the book a `Definition` call would run (crates/benda/src/types/book.rs:548-569).
- `to_fun` (Bend's conversion of an `imp` definition to a function) is assumed to succeed. Its `unwrap`s (crates/benda/src/parser/mod.rs:783, 791) are not modelled as failures.
- Host glue in `lib.rs`, `main.rs`, `test.rs` and `benda_ffi/mod.rs` is not part of this model. This covers module registration, reading and parsing the Python source, and the Bend file loader.
- PyO3 mechanics are not modelled: the GIL, reference counting, `Py`/`Bound` handles and `downcast`. A Python value is a value of a small datatype whose type name is known. In particular `Ctrs.__getattr__` (crates/benda/src/types/book.rs:355-361) hands out the stored `Py` handle, so calling a constructor fetched through `book.adts.T.C` (crates/benda/src/types/book.rs:195-199) sets the arguments on the very object the `Ctrs` map holds; `CtrObjects.CtrsGetAttr` returns a value, so the model does not capture that aliasing.
- Floating point is not modelled. `f24.rs` is not part of this model, and an `F24` or `F32` value is carried as a `real` without rounding to the format.
- `fan.rs` is not part of this model. It is not referenced by the core.
- The parser's `ctx` field is threaded through the lowering functions as a value. Only the top-level state (`statements`, `book`, `definitions`, `ctx`) is a class.
- Source positions (`TextRange`) and the `kwargs` of calls are not modelled; the crate always leaves `kwargs` empty.
- `random.randint` in `gen_list` is not modelled. Its results are the parameter `draws` of `Quicksort.GenList`. The text of the `ValueError` it raises on an empty range varies between Python versions, so the model uses one fixed message.
- `Fib.FibRecursive`, `Fib.Go`, `Fib.FibIterative` take a non-negative n. For negative n the Python functions never reach a base case, and that non-termination is not modelled.
- The printing in the `main` functions of the examples is not modelled. The other programs under `examples/` are not part of this model.
- `UserAdts.FieldSpec`, `UserAdts.FieldsFrom`: their own contracts only say that every failure is a panic. What they compute is stated by `UserAdts.LowerIntFields` and `UserAdts.FieldOfInt` for integer fields, by `UserAdts.FieldSpecNested` for a nested user ADT, and by `UserAdts.NullaryCtrs` for the fallback.
- `UserAdts.MatchFrom`, `UserAdts.ToBendSpec`, `UserAdts.LowerUserAdt`: when no constructor of the datatype has the value's name, `to_bend` returns `PyErr::fetch` with no Python error set. The model gives the `SystemError` that a release build of PyO3 returns there, "attempted to fetch exception but none was set". A debug build panics with that message instead, and then the `unwrap` of a nested `to_bend` (user_adt.rs:320, book.rs:500) can never fail. The model does not state the debug-build panic for this case.
- `UserAdts.DecodedFields`: its own contract gives only the count. Its values are those of `UserAdts.DecodeSpine`.
- `Lowering.MatchCase`: its own contract states only that the bound names grow. The arm it builds and the context its body is lowered in are stated by `Lowering.MatchCaseArm`, and their place among the arms by `Lowering.MatchArmsNext` and `Lowering.ParseMatchArms`.
- `Parsers.AllFields`: stated in closed form only for a one-constructor datatype, which is what a dataclass registers. For more constructors, `Parsers.CollectFields` ties the loop to the function.

## Findings

| source | as written | input that shows it | evidently intended | confidence | as-written member | corrected member |
|---|---|---|---|---|---|---|
| crates/benda/src/types/book.rs:468-553 | `Definition.__call__` takes the book out of `GLOBAL_BOOK` and only then checks the argument count. On a mismatch it returns the error without putting the book back | a call with the wrong number of arguments, then any well-formed call: the second call fails with "Could not execute function" | the book is restored on every path, so a failed call does not affect later ones | not executed | Books.ArityErrorLosesBook | Books.RestoringRecovers |
