# Feeny: a verified model of the bytecode VM, the AST interpreter and the calculator

Feeny is a small object-oriented teaching language. Its C implementation has
three parts, and this project models each of them.

- **The bytecode VM** (`src/vm.c`, `src/bytecode.c`, `src/utils.c`).
  - It reads a compiled program: constants, global slots, an entry method.
  - It links that program into one code buffer. It lays the instructions out
    byte by byte with aligned fields, leaves placeholders (patches) for labels,
    functions, class tags, class arities and global indices, and overwrites the
    placeholders once every table is known.
  - It runs the program with an operand stack, a frame stack, a global
    environment and a heap of 16 KB semispaces collected by a Cheney copying
    collector.
- **The AST interpreter** (`src/ast.c`). It reads a serialised syntax tree and
  evaluates it over environments chained through their parents.
- **The calculator** (`src/main.c`).
  - It lexes and parses `let x = e` and `e` lines over `+ - * /` and
    parentheses.
  - It evaluates them directly, or compiles them to a small stack code (LIT,
    GET, SET, arithmetic, END) and runs that.

## Modules

Each module is one `.dfy` file.

- `Wrappers` (`wrappers.dfy`): `Result` (`Ok` / `Fatal(msg)`), `Option` and
  `Outcome` (`Pass` / `Fail(msg)`). A C `printf` followed by `exit(-1)` is a
  `Fatal` or `Fail` carrying the message.
- `Bytes` (`bytes.dfy`): bytes, C `int`/`short`/`char` truncation,
  little-endian encodings, and C's truncating `/` and `%`.
- `Utils` (`utils.dfy`): the growable `Vector` as a class over an array; its
  operations as functions on sequences; `print_string`.
- `Input` and `Bytecode` (`input.dfy`, `bytecode.dfy`): the byte readers and
  the program reader.
  - Each reader is a `Reader` method proved against a parsing function.
  - An encoder is the reader's partner: every well-formed program is read back
    exactly from its encoding.
- `Ast` (`ast.dfy`): the syntax-tree reader, with the same read-back results.
- `AstEval` (`astinterp.dfy`): the evaluator.
  - The heap is an arena of objects in class `Interp`.
  - Environments, lookup through the parent chain, assignment, primitives,
    `print_format`, and the evaluation methods.
- `Calc` (`calc.dfy`): the calculator.
  - The lexer and parser are a class (`Frontend`) proved against functions.
  - A printer is the parser's partner: the printed tokens parse back.
  - It has an evaluator and a compiler, and `CompileCorrect` proves that the
    compiled code computes what the evaluator computes.
- `VmCode` (`vm_code.dfy`): the code buffer's instruction tags, alignment,
  writers and `next_*` readers.
- `VmLink` (`vm_link.dfy`): the linker as functions.
  - One instruction (`Emit`), the four passes of `link_program` and `Link`.
  - Lemmas about the tables, the placeholders, the frame headers and the
    patch resolution.
- `VmHeap` (`vm_heap.dfy`): heap records, `sizeof_obj` and `link_ptr`; the
  scans and `run_gc` as functions; `halloc`; the collector's invariants.
- `VmExec` (`vm_exec.dfy`): the machine state, slot lookup, and one function
  per instruction of `runvm`, with lemmas about the call protocol, the
  primitives and branching.
- `VmMachine` (`vm_machine.dfy`): class `Vm`, which holds every process-wide
  global of `vm.c`:
  - the code buffer, patches, tables, globals and classes;
  - the registers `ip`, `fp`, `n`;
  - `vstack`, `fstack`, `genv`;
  - the heap, `nullobj`, `zeroobj`.

  Every C routine is a method with a field-granular `modifies` clause. Each
  method is proved against the function that specifies it: `Follows`,
  `Built` and `ReadAs` tie the method's outcome and new state to that
  function's result.

### Representation choices

- **Addresses.**
  - The code buffer sits at address `CODE_BASE = 8`, so offset `o` is address
    `8 + o` and 0 stays the null `ip` that ends `runvm`.
  - Heap records live in a map from byte address to record. The two
    semispaces start at `SPACE_A` and `SPACE_B`.
  - A broken heart is `Forward(dst)`.
- **String pointers.** A string pointer written into the code (a `printf`
  format, a slot name) is the index of its string constant.
- **Integers.**
  - A C `int` result is wrapped to 32 bits (`Bytes.Wrap32`).
  - A `short` field is read back modulo 2^16.
  - A `char` from a file is sign-extended (`Bytes.Signed8`).
  - `/` and `%` truncate toward zero (`Bytes.CDiv`, `Bytes.CMod`).
- **Undefined behaviour.** A read the C code does not guard stops the model
  with the `UNDEFINED` message. This covers a read past the code buffer, a
  reference to no record, and a copy past the end of a space.

## Model

| member | source | states |
|---|---|---|
| Bytes.Wrap32 | src/vm.c:1110-1115 | a C int result: in the 32-bit range, congruent to the exact value modulo 2^32, and the value itself when it fits |
| Bytes.Wrap16 | src/vm.c:528-531 | a value stored into a C short (the class tag of an arity patch): in the 16-bit range, congruent modulo 2^16, unchanged when it fits |
| Bytes.Signed8 | src/main.c:804 | a byte read as a signed char lies in -128..127 and is congruent to the byte modulo 256 |
| Bytes.Short | src/bytecode.c:25-29 | the two bytes of a short, read low byte first, give back the value modulo 2^16 |
| Bytes.Int | src/bytecode.c:30-36 | the four bytes of an int read back as the value modulo 2^32, and as a signed int as its 32-bit wrap |
| Bytes.Word | src/vm.c:67-72 | the eight bytes of a word read back as the value modulo 2^64 |
| Bytes.CModMagnitude | src/vm.c:1118-1119 | C's `%` is the remainder of the magnitudes carrying the dividend's sign |
| Bytes.CDivMod | src/vm.c:1116-1119 | C's remainder is smaller than the divisor in magnitude and is zero or has the dividend's sign |
| Utils.Max | src/utils.c:10-12 | the result is at least both arguments and is one of them |
| Utils.GetAt | src/utils.c:111-117 | vector_get succeeds exactly when `0 <= i < size`, and then yields element `i` |
| Utils.PeekLast | src/utils.c:94-100 | vector_peek succeeds exactly on a non-empty vector, and yields its last element |
| Utils.SetAt | src/utils.c:119-128 | vector_set succeeds exactly when `0 <= i <= size`; element `i` becomes `x`, the size grows only when `i` is the size, and every other element is kept |
| Utils.SetLength | src/utils.c:66-77 | vector_set_length succeeds exactly for a non-negative length; the result has that length, keeps the old elements below it, and pads with `x` |
| Utils.PopLast | src/utils.c:85-92 | vector_pop succeeds exactly on a non-empty vector; what remains, followed by the popped element, is the old vector |
| Utils.Vector.constructor | src/utils.c:47-53 | make_vector: an empty vector with capacity 8 |
| Utils.Vector.EnsureCapacity | src/utils.c:55-64 | the elements are kept; below `c` the capacity becomes the larger of twice the old one and `c` in a fresh array, otherwise nothing changes |
| Utils.Vector.Add | src/utils.c:79-83 | the elements become the old ones followed by `x` |
| Utils.Vector.Pop | src/utils.c:85-92 | fatal exactly on an empty vector (nothing changes); otherwise returns the last element and removes it, as PopLast says |
| Utils.Vector.Peek | src/utils.c:94-100 | fatal exactly on an empty vector; otherwise the last element, with nothing changed |
| Utils.Vector.Clear | src/utils.c:102-104 | no elements remain; the storage is kept |
| Utils.Vector.Get | src/utils.c:111-117 | fatal unless `0 <= i < size`; otherwise element `i` |
| Utils.Vector.Set | src/utils.c:119-128 | passes exactly when SetAt does, and then holds SetAt's elements; on failure nothing changes |
| Utils.Vector.SetLen | src/utils.c:66-77 | passes exactly for a non-negative length, and then holds SetLength's elements; on failure nothing changes |
| Utils.CString | src/utils.c:20-35 | the text up to the first NUL: a prefix with no NUL, followed in the input by a NUL when shorter |
| Utils.Escaped | src/utils.c:23-38 | the escaped text contains no raw newline and is at least as long as the text |
| Utils.UnescapeEscaped | src/utils.c:18-41 | unescaping the escaped text gives the text back, so print_string loses nothing |
| Utils.PrintString | src/utils.c:18-41 | the output is the escaped C string between double quotes, and its inside unescapes to the C string |
| Input.ParseByte | src/bytecode.c:17-24 | read_byte succeeds exactly when a byte is left and consumes one byte |
| Input.ParseChar | src/bytecode.c:17-24 | a byte stored in a char: succeeds exactly when a byte is left, gives -128..127, consumes one byte |
| Input.ParseShort | src/bytecode.c:25-29 | read_short succeeds exactly when two bytes are left, consumes two, and gives 0..65535 |
| Input.ParseInt | src/bytecode.c:30-36 | read_int succeeds exactly when four bytes are left, consumes four, and gives a C int |
| Input.ParseStrChar | src/bytecode.c:40-42 | one string byte: succeeds exactly when a byte is left and consumes one byte |
| Input.ParseN | src/bytecode.c:180-186 | a counted list holds as many items as the count (none for a negative count) |
| Input.ParseNConsumes | src/bytecode.c:180-186 | items of fixed width `w` make a list that consumes `w` bytes per item |
| Input.ParseNAdvances | src/bytecode.c:180-186 | a list of readers that never move back never moves back |
| Input.ParseString | src/bytecode.c:37-44 | read_string consumes the four-byte length and then one byte per character |
| Input.ReadBackShort | src/bytecode.c:25-29 | an encoded short reads back as itself and consumes two bytes |
| Input.ReadBackInt | src/bytecode.c:30-36 | an encoded C int reads back as itself and consumes four bytes |
| Input.ReadBackChar | src/bytecode.c:17-24 | an encoded signed char reads back as itself |
| Input.ReadBackString | src/bytecode.c:37-44 | an encoded string reads back as itself and consumes exactly its encoding |
| Input.ParseNCons | src/bytecode.c:180-186 | a list reads back when its first item and the rest do |
| Input.Reader.ReadByte | src/bytecode.c:17-24 | the result and the new position are those of ParseByte |
| Input.Reader.ReadChar | src/bytecode.c:17-24 | the result and the new position are those of ParseChar |
| Input.Reader.ReadShort | src/bytecode.c:25-29 | the result and the new position are those of ParseShort |
| Input.Reader.ReadInt | src/bytecode.c:30-36 | the result and the new position are those of ParseInt |
| Input.Reader.ReadString | src/bytecode.c:37-44 | the result and the new position are those of ParseString |
| Bytecode.ParseIns | src/bytecode.c:68-126 | read_ins consumes at least the opcode byte and stays within the input |
| Bytecode.ReadBackIns | src/bytecode.c:68-126 | every well-formed instruction reads back from its encoding, stopping right after it |
| Bytecode.ReadBackCode | src/bytecode.c:196-202 | a method body reads back from its count and instructions |
| Bytecode.ReadBackSlots | src/bytecode.c:180-186 | a slot list reads back from its count and shorts |
| Bytecode.ReadBackMethodFields | src/bytecode.c:163-172 | a method's name, argument count, local count and body read back in that order |
| Bytecode.ReadBackValue | src/bytecode.c:151-178 | every well-formed constant reads back from its tag and fields |
| Bytecode.ReadBackValues | src/bytecode.c:188-194 | a constant pool reads back from its count and constants |
| Bytecode.ReadBackProgramAt | src/bytecode.c:204-210 | a well-formed program reads back from its encoding wherever the encoding sits |
| Bytecode.ReadBackProgram | src/bytecode.c:204-210 | every well-formed program is read back exactly from its encoding, consuming all of it |
| Bytecode.ReadIns | src/bytecode.c:68-126 | the result and the reader position are those of ParseIns |
| Bytecode.ReadCode | src/bytecode.c:196-202 | the result and the reader position are those of ParseCode |
| Bytecode.ReadSlots | src/bytecode.c:180-186 | the result and the reader position are those of ParseSlots |
| Bytecode.ReadValue | src/bytecode.c:151-178 | the result and the reader position are those of ParseValue |
| Bytecode.ReadValues | src/bytecode.c:188-194 | the result and the reader position are those of ParseValues |
| Bytecode.ReadProgram | src/bytecode.c:204-210 | the result and the reader position are those of ParseProgram |
| Ast.ParseStrings | src/ast.c:380-385 | read_strings yields as many strings as asked and moves forward |
| Ast.ParseExp | src/ast.c:399-475 | read_exp reads a well-formed expression and moves forward; an unknown tag is fatal |
| Ast.ParseExps | src/ast.c:386-391 | read_exps yields as many expressions as asked |
| Ast.ParseSlot | src/ast.c:477-497 | read_slot accepts only VAR_STMT and FN_STMT |
| Ast.ParseSlots | src/ast.c:392-397 | read_slots yields as many slots as asked |
| Ast.ParseScope | src/ast.c:499-529 | read_scopestmt accepts only VAR_STMT, FN_STMT, SEQ_STMT and EXP_STMT |
| Ast.ReadBackStrings | src/ast.c:380-385 | a list of strings reads back from its encoding |
| Ast.ReadBackExps | src/ast.c:386-391 | a list of expressions reads back from its encoding |
| Ast.ReadBackSlots | src/ast.c:392-397 | a list of slots reads back from its encoding |
| Ast.ReadBackExp | src/ast.c:399-475 | every well-formed expression reads back from its encoding, and the reader stops right after it |
| Ast.ReadBackIntExp | src/ast.c:402-405 | INT_EXP reads back |
| Ast.ReadBackPrintfExp | src/ast.c:409-414 | PRINTF_EXP reads back: format, count, arguments |
| Ast.ReadBackArrayExp | src/ast.c:415-419 | ARRAY_EXP reads back: length, then initial value |
| Ast.ReadBackObjectExp | src/ast.c:420-425 | OBJECT_EXP reads back: parent, count, slots |
| Ast.ReadBackSlotExp | src/ast.c:426-430 | SLOT_EXP reads back |
| Ast.ReadBackSetSlotExp | src/ast.c:431-436 | SET_SLOT_EXP reads back |
| Ast.ReadBackCallSlotExp | src/ast.c:437-443 | CALL_SLOT_EXP reads back |
| Ast.ReadBackCallExp | src/ast.c:444-449 | CALL_EXP reads back |
| Ast.ReadBackSetExp | src/ast.c:450-454 | SET_EXP reads back |
| Ast.ReadBackIfExp | src/ast.c:455-460 | IF_EXP reads back: predicate, consequent, alternative |
| Ast.ReadBackWhileExp | src/ast.c:461-465 | WHILE_EXP reads back |
| Ast.ReadBackRefExp | src/ast.c:466-469 | REF_EXP reads back |
| Ast.ReadBackNullExp | src/ast.c:406-408 | NULL_EXP reads back |
| Ast.ReadBackSlot | src/ast.c:477-497 | every well-formed slot reads back from its encoding |
| Ast.ReadBackScope | src/ast.c:499-529 | every well-formed scope statement reads back from its encoding |
| Ast.ReadExp | src/ast.c:399-475 | the result and the reader position are those of ParseExp |
| Ast.ReadExps | src/ast.c:386-391 | the result and the reader position are those of ParseExps |
| Ast.ReadStrings | src/ast.c:380-385 | the result and the reader position are those of ParseStrings |
| Ast.ReadSlot | src/ast.c:477-497 | the result and the reader position are those of ParseSlot |
| Ast.ReadSlots | src/ast.c:392-397 | the result and the reader position are those of ParseSlots |
| Ast.ReadScope | src/ast.c:499-529 | the result and the reader position are those of ParseScope |
| Ast.ReadAst | src/ast.c:531-540 | the tree read from the file's bytes is ParseScope's from offset 0 |
| Ast.ReadAstOfEncoding | src/ast.c:531-540 | a file written from a well-formed tree reads back as that tree |
| AstEval.LookupFrame | src/ast.c:682-689 | lookup_frame finds the first entry with the name and none before it, or reports that no entry has it |
| AstEval.LookupFrameAppend | src/ast.c:682-689 | searching two runs of entries finds what the first holds, or else what the second holds |
| AstEval.VisibleStep | src/ast.c:691-701 | what a name denotes is the frame's own entry, or else what it denotes from the parent, which lies below |
| AstEval.LookupEnv | src/ast.c:691-701 | lookup_env succeeds exactly when the name denotes an entry, and returns the place of that entry |
| AstEval.LookupFn | src/ast.c:703-710 | lookup_fn succeeds exactly when the name denotes a function, and returns it |
| AstEval.LookupVar | src/ast.c:712-719 | lookup_var succeeds exactly when the name denotes a variable, and returns the place that holds it |
| AstEval.LookupVarStep | src/ast.c:691-719 | a frame without the name defers to its parent; otherwise lookup_var stops at the frame |
| AstEval.AssignedVisible | src/ast.c:973-979 | after assigning at the place lookup_var found, the name denotes the new value |
| AstEval.AddEntryVisible | src/ast.c:1018-1024 | adding an entry changes what a name denotes only when the frame lacked that name |
| AstEval.BoolObjTruthy | src/ast.c:776-779 | bool_obj gives a value that is not null exactly for true |
| AstEval.IntOp | src/ast.c:781-808 | the Int primitives succeed exactly on a known name and a nonzero divisor, and give C ints |
| AstEval.IntOpExact | src/ast.c:795-804 | without overflow add and sub are exact, and div and mod put the dividend back together |
| AstEval.FormatArguments | src/ast.c:862-884 | print_format succeeds exactly when the `~` count is the argument count, and then shows the arguments in order |
| AstEval.FormatStep | src/ast.c:864-882 | each format character is either the next argument (for `~`) or itself |
| AstEval.Frame | src/ast.c:845-853 | a call frame has one entry per parameter, plus "this" for a method |
| AstEval.FrameThis | src/ast.c:849 | in a method frame, "this" denotes the receiver whatever the parameters are called |
| AstEval.FrameParam | src/ast.c:966-969 | a parameter not shadowed by an earlier one denotes its argument |
| AstEval.ScopeAdded | src/ast.c:1021-1022 | an added entry extends the scope seen from that environment |
| AstEval.Interp.constructor | src/ast.c:733-736 | init_eval: the arena holds exactly the shared null and the shared zero |
| AstEval.Interp.MakeInt | src/ast.c:617-622 | a fresh Int at the end of the arena; nothing else changes |
| AstEval.Interp.MakeEnv | src/ast.c:634-640 | a fresh empty environment under the parent |
| AstEval.Interp.MakeArray | src/ast.c:624-632 | a fresh array of `length` copies of `x`, empty for a negative length |
| AstEval.Interp.AddEntry | src/ast.c:1021-1022 | the entry is appended to that environment's entries |
| AstEval.Interp.SetVar | src/ast.c:976-977 | only the value of that entry changes |
| AstEval.Interp.SetItem | src/ast.c:822 | only that item of that array changes |
| AstEval.Interp.PrintFormat | src/ast.c:862-884 | passes exactly when Format succeeds, and then appends Format's text to the output |
| AstEval.Interp.MakeFrame | src/ast.c:845-853 | a fresh environment under the parent holding Frame's entries |
| AstEval.RefValue | src/ast.c:1003-1007 | a variable reference succeeds exactly when the name denotes a variable, and gives that variable's value |
| AstEval.EnsureIndex | src/ast.c:752-758 | ensure_index passes exactly on an Int inside the array's bounds, and gives it |
| AstEval.FormatPrints | src/ast.c:862-884 | when the format succeeds, what was printed up to the NUL is Format's text |
| AstEval.EvExp | src/ast.c:886-1014 | eval_exp as a function of the arena and output: the arena only grows and keeps every object's kind, output is only appended to, and a result is a valid reference |
| AstEval.EvExps | src/ast.c:900-901 | one valid reference per argument, the arena only growing |
| AstEval.EvSlots | src/ast.c:919-933 | the entries follow the slots' kinds and names in order and refer into the arena |
| AstEval.Literals | src/ast.c:888-895 | INT_EXP allocates an Int holding its value; NULL_EXP is the shared null, with nothing allocated |
| AstEval.ExpsAppend | src/ast.c:900-901 | arguments are evaluated left to right: evaluating a+b is evaluating a, then b from the state a left, values in that order |
| AstEval.PrintfShows | src/ast.c:897-904 | after the arguments, the format prints up to the NUL or the first `~` without an argument; it passes exactly when the `~` count is the argument count, gives null, and shows the arguments in order |
| AstEval.ArrayMade | src/ast.c:906-912 | the length must be an Int; the new array has that length and every item is the initial value (none for a negative length) |
| AstEval.ObjectMade | src/ast.c:914-935 | a fresh environment whose entries follow the slots in order, and whose parent is null or an object |
| AstEval.SlotReads | src/ast.c:937-943 | passes exactly when the receiver is an object from which the name denotes a variable, and gives that variable's value |
| AstEval.SetSlotAssigns | src/ast.c:945-953 | after the receiver and the value, passes exactly when the name denotes a variable from the receiver; that variable then holds the value, and the result is null |
| AstEval.SetAssigns | src/ast.c:973-979 | after the value, passes exactly when the name denotes a variable; the name then denotes the value, and the result is null |
| AstEval.BodyFrame | src/ast.c:845-854 | a body runs in a fresh frame under the global environment where "this" denotes the receiver and each unshadowed parameter its argument |
| AstEval.CallRuns | src/ast.c:961-971 | a call needs a visible function of the call's arity; arguments are evaluated in the caller's environment, then the body runs in its frame |
| AstEval.CallSlotRuns | src/ast.c:834-860 | null has no slots, Ints and arrays take their primitives, and an object's method is called with the object as "this" |
| AstEval.IntSlotComputes | src/ast.c:781-808 | one Int argument; passes exactly when IntOp knows the name and the divisor is nonzero; a comparison gives a truthy-or-null result, arithmetic a fresh Int |
| AstEval.ArraySlotRuns | src/ast.c:810-832 | get and set are dispatched, length takes no argument and allocates the length, any other name fails without changing anything |
| AstEval.ArrayGetItem | src/ast.c:811-816 | one argument; passes exactly on an Int index inside the bounds, and gives the item at that index |
| AstEval.ArraySetStores | src/ast.c:817-824 | two arguments, both evaluated before the index check; passes exactly on an in-bounds Int index; that item becomes the value and every other item and object is unchanged |
| AstEval.ChildScope | src/ast.c:984 | a fresh environment under `env` sees exactly what `env` sees |
| AstEval.IfBranch | src/ast.c:981-989 | the consequent runs when the predicate is not null and the alternative otherwise, in a fresh environment that sees what the IF sees |
| AstEval.WhileRound | src/ast.c:991-1001 | the loop stops with null once the predicate is null; otherwise the body runs in a fresh environment and the loop starts again from the state the body left |
| AstEval.WhileNull | src/ast.c:1000 | a loop that ends without an error gives null, however many rounds it ran |
| AstEval.Defines | src/ast.c:1018-1030 | VAR and FN statements add an entry to the current frame, which the name then denotes unless the frame already held it; the result is null |
| AstEval.Interp.EvalExp | src/ast.c:886-1014 | leaves the arena, the output and the result EvExp gives, the arena only growing |
| AstEval.Interp.EvalExps | src/ast.c:900-901 | the loop evaluates the arguments exactly as EvExps does |
| AstEval.Interp.EvalPrintf | src/ast.c:897-904 | runs as EvPrintf says |
| AstEval.Interp.EvalArray | src/ast.c:906-912 | runs as EvArray says |
| AstEval.Interp.EvalObject | src/ast.c:914-935 | runs as EvObject says |
| AstEval.Interp.EvalSlots | src/ast.c:919-933 | the loop builds the entries exactly as EvSlots does |
| AstEval.Interp.EvalSlot | src/ast.c:937-943 | runs as EvSlot says |
| AstEval.Interp.Assign | src/ast.c:973-979 | passes exactly when the name denotes a variable, and then assigns at lookup_var's place; otherwise nothing changes |
| AstEval.Interp.EvalSetSlot | src/ast.c:945-953 | runs as EvSetSlot says |
| AstEval.Interp.EvalSet | src/ast.c:973-979 | runs as EvSet says |
| AstEval.Interp.CallBody | src/ast.c:965-970 | builds the frame and runs the body as EvBody says |
| AstEval.Interp.EvalCall | src/ast.c:961-971 | runs as EvCall says |
| AstEval.Interp.CallSlot | src/ast.c:834-860 | runs as EvCallSlot says |
| AstEval.Interp.CallIntSlot | src/ast.c:781-808 | runs as EvIntSlot says |
| AstEval.Interp.CallArraySlot | src/ast.c:810-832 | runs as EvArraySlot says |
| AstEval.Interp.ArrayGet | src/ast.c:811-816 | runs as EvArrayGet says |
| AstEval.Interp.ArraySet | src/ast.c:817-824 | runs as EvArraySet says |
| AstEval.Interp.EvalIf | src/ast.c:981-989 | runs as EvIf says |
| AstEval.Interp.EvalWhile | src/ast.c:991-1001 | the loop runs as EvWhile says, round by round |
| AstEval.Interp.EvalStmt | src/ast.c:1016-1044 | runs as EvStmt says |
| AstEval.Interpret | src/ast.c:1050-1054 | prints what Interpretation (the program run from the initial arena in a fresh global environment) prints, and passes exactly when it does; a program that only defines a function prints nothing and passes |
| Calc.Span | src/main.c:107-112 | eat_chars stops at the first character outside the class, every character before it being in the class |
| Calc.NumberAt | src/main.c:138-152 | eat_number takes exactly a digit, or a minus sign directly before a digit; it eats the whole run of digits, and the token's value is the digits' value, negated after the minus sign |
| Calc.SymbolAt | src/main.c:114-121 | eat_symbol yields a symbol token and moves forward |
| Calc.OperatorAt | src/main.c:123-130 | eat_operator moves forward by its character |
| Calc.ParenAt | src/main.c:154-166 | eat_paren moves forward |
| Calc.TokenAt | src/main.c:173-185 | whichever alternative of lex applies, the token moves forward |
| Calc.NumbersFirst | src/main.c:177 | numbers are tried before symbols and operators: a digit, or a minus directly before a digit, always lexes as an Int token (negative after the minus), though a symbol or an operator would also match there |
| Calc.SkipWs | src/main.c:168-171 | eat_whitespace skips exactly the spaces and newlines that follow, and nothing else |
| Calc.LexStep | src/main.c:173-185 | a character no eater takes is a lex error; otherwise the token, then whitespace, then the rest |
| Calc.LexEnd | src/main.c:177 | lex stops at the NUL |
| Calc.LexedTokens | src/main.c:173-185 | every lexeme is a number, a symbol or a paren |
| Calc.LeadingSpace | src/main.c:173-185 | whitespace is skipped only after a token: where a token is expected, a space, newline, tab or carriage return is a lex error |
| Calc.MinusBeforeDigit | src/main.c:138-152 | "a-1" lexes as `a` and -1, while "a - 1" lexes as `a`, `-`, 1 |
| Calc.OpAt | src/main.c:424-435 | is_op finds an operator of level `p` exactly when the token names one |
| Calc.Term | src/main.c:441-444 | parse_term consumes at least one token |
| Calc.Ops | src/main.c:446-468 | parse_ops never moves back |
| Calc.Atom | src/main.c:470-508 | parse_atom consumes at least one token |
| Calc.UncheckedStatement | src/main.c:524-533 | parse_stmt as written: a let exactly when a let is pending |
| Calc.Statement | src/main.c:524-533 | parse_stmt with the let's name checked: a let exactly when a let is pending, its name selects one of the 26 slots, and it agrees with parse_stmt as written except on the lets whose name selects none |
| Calc.TermUnparse | src/main.c:441-508 | parsing the printed tokens of `e` at level `p` gives `e` back and stops right after them |
| Calc.CalcRoundTrip | src/main.c:542-548 | a printed expression alone on a line parses back to itself |
| Calc.LetRoundTrip | src/main.c:510-548 | a let of a variable and a printed expression parses back to itself |
| Calc.LeftAssociative | src/main.c:446-468 | "a - b - c" parses as (a - b) - c |
| Calc.TimesBindsTighter | src/main.c:424-468 | `*` binds tighter than `+` on either side |
| Calc.TermChain | src/main.c:441-444 | parse_term below level 2 is parse_ops over the next level |
| Calc.OpsStep | src/main.c:446-468 | one turn of parse_ops: the operator, the right operand, then the left-folded rest |
| Calc.OpsStop | src/main.c:446-468 | parse_ops stops where no operator of its level follows |
| Calc.AtomParen | src/main.c:495-505 | a parenthesised expression is an atom |
| Calc.ParsedWf | src/main.c:470-548 | an accepted statement over C-int tokens names only the 26 variables, so it can run |
| Calc.LetNameUnchecked | src/main.c:524-533 | "A = 1" passes parse_stmt as written and selects slot -32; the corrected parser rejects it |
| Calc.LongLetName | src/main.c:524-533 | "abc = 1" is accepted as a let of the slot of `a`, since var_idx reads only the first character |
| Calc.Frontend.constructor | src/main.c:62-87 | an empty lexeme vector and buffer |
| Calc.Frontend.EatNChars | src/main.c:99-105 | consumes exactly `n` characters and returns them |
| Calc.Frontend.EatChars | src/main.c:107-112 | consumes up to Span and returns the consumed characters |
| Calc.Frontend.EatNumber | src/main.c:138-152 | the token and the position of NumberAt |
| Calc.Frontend.EatSymbol | src/main.c:114-121 | the token and the position of SymbolAt |
| Calc.Frontend.EatOperator | src/main.c:123-130 | the token and the position of OperatorAt |
| Calc.Frontend.EatParen | src/main.c:154-166 | the token and the position of ParenAt |
| Calc.Frontend.EatWhitespace | src/main.c:168-171 | the position of SkipWs |
| Calc.Frontend.EatToken | src/main.c:178-183 | the token and the position of TokenAt |
| Calc.Frontend.Lex | src/main.c:173-185 | passes exactly when LexFrom succeeds; then the lexemes are LexFrom's, otherwise its message |
| Calc.Frontend.ParseTerm | src/main.c:441-444 | the result and the token position of Term |
| Calc.Frontend.ParseOps | src/main.c:446-468 | the result and the token position of Ops |
| Calc.Frontend.ParseAtom | src/main.c:470-508 | the result and the token position of Atom |
| Calc.Frontend.ParseStmt | src/main.c:524-533 | the result and the token position of Statement |
| Calc.Frontend.ParseOneStmt | src/main.c:542-548 | the result of lexing and parsing the whole line |
| Calc.VarIdxRange | src/main.c:554-557 | a one-character name selects one of the 26 slots exactly when it is a lower-case letter, and a let's name exactly when its first character is |
| Calc.Arith | src/main.c:559-597 | fatal exactly on division by zero; otherwise a C int, the wrapped sum or difference for `+` and `-` |
| Calc.Eval | src/main.c:559-597 | a C int, or the division-by-zero error |
| Calc.RunStmt | src/main.c:599-622 | the statement's value; a calc leaves the environment alone, and a let sets its variable only |
| Calc.OpOfCode | src/main.c:686-701 | the opcode of an operator decodes back to it |
| Calc.LitBytes | src/main.c:741-751 | LIT carries four bytes |
| Calc.LitBytesHighFirst | src/main.c:741-751 | the bytes of a LIT are the int's bytes, high byte first |
| Calc.LitValue | src/main.c:804 | run_ins's decoding of a literal is a C int |
| Calc.LitRoundTrip | src/main.c:804 | a literal comes back from its bytes exactly when its three low bytes are below 128 |
| Calc.LitSigned | src/main.c:804 | the literal 128 decodes as -128 |
| Calc.Compiled | src/main.c:765-790 | compile ends with END; a calc is its expression's code, and a let adds SET of the variable |
| Calc.ExecCode | src/main.c:796-852 | the code of `e` pushes the value of the decoded expression, or traps as its evaluation does |
| Calc.CompileCorrect | src/main.c:765-852 | the compiled code halts with the value and environment run_stmt gives for the decoded statement |
| Calc.CompileExact | src/main.c:765-852 | when every literal survives its bytes, the code computes exactly what run_stmt does |
| Calc.PushIns | src/main.c:711-763 | writes exactly the code of `e` at `at` and returns its end; the rest of the buffer is kept |
| Calc.Compile | src/main.c:765-790 | a fresh buffer that holds the statement's compiled code |
| Calc.RunIns | src/main.c:796-852 | the outcome of executing the code; on halting the environment is the one that execution gives |
| Calc.CompileRun | src/main.c:854-861 | the outcome of run_stmt on the decoded statement, with the environment updated to match |
| VmCode.AlignUpBounds | src/vm.c:37-45 | the aligned address is a multiple of `k`, at least `x` and less than `x + k` |
| VmCode.AlignUpAligned | src/vm.c:37-45 | an aligned address stays put, so aligning twice is aligning once |
| VmCode.AlignUpBase | src/vm.c:37-45 | aligning an address of the buffer is aligning its offset |
| VmCode.Pad | src/vm.c:37-45 | the buffer grows to the next multiple of `k` and keeps its bytes |
| VmCode.PutChar | src/vm.c:47-51 | write_char appends exactly one byte |
| VmCode.PutShort | src/vm.c:53-58 | write_short appends two bytes at the next even offset |
| VmCode.PutInt | src/vm.c:60-65 | write_int appends four bytes at the next multiple of four |
| VmCode.PutPtr | src/vm.c:67-72 | write_ptr appends eight bytes at the next multiple of eight |
| VmCode.NextChar | src/vm.c:766-770 | next_char gives a byte and steps one |
| VmCode.NextShort | src/vm.c:772-777 | next_short gives 0..65535 from the next even address and steps past it |
| VmCode.NextInt | src/vm.c:779-784 | next_int gives a C int from the next multiple of four |
| VmCode.NextPtr | src/vm.c:786-791 | next_ptr gives a word from the next multiple of eight |
| VmCode.CharReadBack | src/vm.c:766-770 | a written char is read back where it was written |
| VmCode.ShortReadBack | src/vm.c:772-777 | a written short is read back unsigned, where it was written, whatever follows |
| VmCode.IntReadBack | src/vm.c:779-784 | a written int is read back as its C int |
| VmCode.PtrReadBack | src/vm.c:786-791 | a written pointer is read back as its word |
| VmLink.FindFrom | src/vm.c:188-197 | the table search finds the first entry answering the key (names compared as strcmp compares them), or reports that none does |
| VmLink.FindAppend | src/vm.c:180-186 | entries added later never hide an earlier answer |
| VmLink.GlobalFrom | src/vm.c:271-279 | get_global_idx finds the first global whose name strcmp finds equal, or reports that there is none |
| VmLink.LinkStr | src/vm.c:282-285 | link_str succeeds exactly on the index of a string constant, and gives its text |
| VmLink.WithClassArity | src/vm.c:105-112 | one zero byte at the end; its patch records exactly that offset |
| VmLink.WithClassTag | src/vm.c:114-122 | a zero short at the next even offset; its patch records that offset |
| VmLink.WithFunctionPtr | src/vm.c:124-132 | a zero word at the next multiple of eight; its patch records that offset |
| VmLink.WithGlobalIdx | src/vm.c:134-142 | a zero short at the next even offset; its patch records that offset |
| VmLink.WithLabel | src/vm.c:144-152 | a zero word at the next multiple of eight; its patch records that offset |
| VmLink.EmitGrows | src/vm.c:293-406 | one instruction only appends to the code, patches and table, and its placeholders come after the old code |
| VmLink.Frame | src/vm.c:74-79 | write_frame extends the code up to the header's end |
| VmLink.FrameOf | src/vm.c:74-79 | the bytes written by write_frame are a FRAME header |
| VmLink.FrameReadBack | src/vm.c:1067-1069 | the interpreter reads a header back as FRAME, the argument count and the local count (a short) |
| VmLink.CodePhaseOk | src/vm.c:474-482 | after the first pass each method entry starts its header and each placeholder lies, laid out, within the code |
| VmLink.ClassSlots | src/vm.c:429-455 | make_class's loop yields one slot per member |
| VmLink.ClassSlotsSpec | src/vm.c:429-455 | every member of a class fits its constant, with the variable slots counted in declaration order |
| VmLink.VarsNumbered | src/vm.c:433-440 | the variable slots are numbered 0, 1, ... in declaration order |
| VmLink.MakeClass | src/vm.c:424-464 | a made class has one slot per member and at most that many variables |
| VmLink.ClassPhaseShape | src/vm.c:485-491 | the reserved tags stay, every class gets the next tag from 3 on, and the pass only adds class entries |
| VmLink.ClassPhaseTags | src/vm.c:485-491 | a class index finds the tag 3 + (classes before it) exactly when that constant is a class |
| VmLink.GlobalPhaseSpec | src/vm.c:494-507 | every global slot is a variable or a method; the variables are numbered in order and the methods become function entries |
| VmLink.GlobalFunctions | src/vm.c:497-502 | a method global's function entry points at its method's entry |
| VmLink.Resolve | src/vm.c:510-543 | the resolved bytes have the placeholder's width |
| VmLink.Overwrite | src/vm.c:515-536 | exactly the placeholder's bytes are replaced; the rest of the code is kept |
| VmLink.PatchesResolved | src/vm.c:510-543 | the patch loop fails exactly when some target cannot be resolved, and otherwise every placeholder holds its target |
| VmLink.CodePhaseStops | src/vm.c:474-482 | the first error of the code pass ends it |
| VmLink.EmitAllStops | src/vm.c:479-480 | the first error in a method's body ends the pass |
| VmLink.ClassSlotsStop | src/vm.c:429-455 | the first error in make_class ends it |
| VmLink.ClassPhaseStops | src/vm.c:485-491 | the first error of the class pass ends it |
| VmLink.GlobalPhaseStops | src/vm.c:494-507 | the first error of the global pass ends it |
| VmLink.PatchesStop | src/vm.c:510-543 | the first unresolvable patch ends the loop |
| VmLink.Phases | src/vm.c:466-547 | a linked program passed the code pass, whose table and placeholders the later passes keep |
| VmLink.LinkedHeaders | src/vm.c:466-547 | after linking every method address in the table starts a FRAME header of that method, and so does the entry address |
| VmLink.LinkedPatches | src/vm.c:466-547 | after linking every placeholder is read back by the interpreter as its resolved target |
| VmHeap.Deref | src/vm.c:663-676 | reading a record succeeds exactly on a record's address |
| VmHeap.ClassSize | src/vm.c:668-670 | an object's size is 16 + 8 per variable of its class; an unknown tag is fatal |
| VmHeap.SizeOf | src/vm.c:663-676 | sizeof_obj is a multiple of 8 of at least 16, and defined for null, int and array records |
| VmHeap.SizeOfWords | src/vm.c:663-676 | sizeof_obj agrees with the words a record occupies |
| VmHeap.LinkPtr | src/vm.c:678-690 | link_ptr follows a forward, or copies the record to the allocation pointer and leaves a forward behind |
| VmHeap.LinkTwice | src/vm.c:678-690 | forwarding the same reference twice makes one copy |
| VmHeap.LinkLeavesForward | src/vm.c:656-661 | after link_ptr the old record is a forward to the returned address |
| VmHeap.LinkRange | src/vm.c:733-736 | the words outside the range are kept |
| VmHeap.LinkRangeForwards | src/vm.c:726-736 | every word of the range is replaced by the address its record now forwards to |
| VmHeap.ScanNext | src/vm.c:704-711 | scan_next steps over exactly the record's size |
| VmHeap.ScanFrom | src/vm.c:753-756 | the scan loop ends at or past the allocation pointer |
| VmHeap.ScanFrames | src/vm.c:713-724 | scan_fstack keeps the frame stack's length |
| VmHeap.FramesForward | src/vm.c:713-724 | scan_fstack forwards exactly the locals of the frames it walks and keeps the saved ip and fp words |
| VmHeap.Flip | src/vm.c:740-745 | the spaces swap and the new space starts empty |
| VmHeap.RunGc | src/vm.c:738-760 | run_gc keeps the registers and leaves the spaces swapped, with the allocation pointer inside the new space |
| VmHeap.Halloc | src/vm.c:606-618 | halloc reserves at the allocation pointer when there is room; otherwise it collects once and reserves, or runs out of memory |
| VmHeap.ScanToEnd | src/vm.c:753-756 | the scan loop stops exactly at the allocation pointer |
| VmHeap.ScanPending | src/vm.c:704-711 | scanning the first pending record leaves the rest pending, with its copies appended |
| VmHeap.StacksMoved | src/vm.c:738-752 | after the flip and the root scans every global, operand and local is replaced by where its record moved |
| VmHeap.RootsMoved | src/vm.c:738-752 | nullobj and zeroobj are moved too |
| VmHeap.GcScansToEnd | src/vm.c:753-756 | every record copied during the collection is scanned |
| VmHeap.GcMovesRoots | src/vm.c:738-760 | run_gc moves every root into the used part of the new space |
| VmHeap.MovedInto | src/vm.c:738-760 | every forward points into the used part of the new space |
| VmExec.PopN | src/vm.c:1073-1074 | `k` pops succeed exactly when `k` operands are there; they and what remains make up the stack |
| VmExec.PushInt | src/vm.c:1091-1093 | push_int pushes a fresh Int record holding the value and keeps the registers |
| VmExec.FindSlot | src/vm.c:1160-1164 | the first slot with the name from `i` on, or none |
| VmExec.LookupSlot | src/vm.c:1154-1167 | lookup_slot: the first slot with the name up the parent chain; fatal at Null |
| VmExec.LookupMethod | src/vm.c:1169-1176 | succeeds exactly when lookup_slot finds a method slot |
| VmExec.LookupVarSlot | src/vm.c:1178-1185 | succeeds exactly when lookup_slot finds a variable slot |
| VmExec.SlotRead | src/vm.c:957 | reading a slot succeeds exactly inside the object's slots |
| VmExec.SlotWrite | src/vm.c:971 | writing a slot succeeds exactly inside the object's slots, and only that slot changes |
| VmExec.EnsureIndex | src/vm.c:839-845 | ensure_index passes exactly on an Int inside the array |
| VmExec.Run | src/vm.c:891-1082 | a finished run stops at the null ip |
| VmExec.OwnSlotFound | src/vm.c:1160-1164 | a slot of the object's own class shadows the parent's |
| VmExec.InheritedSlotFound | src/vm.c:1165 | without such a slot, lookup finds what the parent finds |
| VmExec.InheritedSlotValue | src/vm.c:1154-1167 | in the corrected slot access, a variable the object's class lacks is read from the parent, as lookup_slot searches it |
| VmExec.SlotAsWrittenReadsReceiver | src/vm.c:956-957 | as written, `child.x` reads the child's own slot 0 rather than the parent's `x` |
| VmExec.SetSlotAsWrittenMissesOwner | src/vm.c:970-971 | as written, `child.x = o` writes the child's own slot, so reading `child.x` back misses it |
| VmExec.LookupAfterSlotWrite | src/vm.c:971 | writing a slot changes no lookup |
| VmExec.SlotRoundTrip | src/vm.c:960-974 | a slot written through an object reads back through it |
| VmExec.CallReturn | src/vm.c:1054-1061 | RETURN restores the caller's ip, fp and frame stack |
| VmExec.PopLocalsMoves | src/vm.c:1073-1074 | FRAME's pops put the top `i` operands into locals 0 to `i - 1`, in stack order |
| VmExec.FrameLayout | src/vm.c:1067-1076 | after a call of the right arity the frame holds the control words, the arguments in order, then null locals |
| VmExec.FrameArity | src/vm.c:1071 | FRAME is fatal unless the call's arity is the function's |
| VmExec.CallSlotObject | src/vm.c:993-1001 | CALL_SLOT on an object calls the method found for the name |
| VmExec.ReceiverInLocal0 | src/vm.c:975-1001 | the receiver of a method call ends up in local 0 of the method's frame |
| VmExec.ObjectLayout | src/vm.c:934-944 | OBJECT allocates first and then fills the object; without a collection it finds the operands where they were |
| VmExec.PlaceLayout | src/vm.c:939-944 | the top `arity` operands become the slots in stack order, the one below is the parent and is neither an Int nor an Array, and the object replaces them all |
| VmExec.BranchOnBool | src/vm.c:1084-1089 | a comparison pushes zeroobj for true and nullobj for false, and BRANCH jumps exactly on true |
| VmExec.BranchIff | src/vm.c:1040-1047 | BRANCH jumps exactly when the popped value is not Null |
| VmExec.IntSlotResult | src/vm.c:1095-1124 | an Int primitive gives AstEval.IntOp's result: a pushed bool or a fresh Int |
| VmExec.IntSlotChecks | src/vm.c:1096-1099 | Int primitives check the arity 2, then an Int argument |
| VmExec.ArraySetGet | src/vm.c:1127-1142 | set stores at its index only and pushes nullobj; get then yields the stored value |
| VmExec.ArraySlotArity | src/vm.c:1128-1144 | get takes 2 operands, set 3 and length 1 |
| VmExec.ArrayGetIndex | src/vm.c:1127-1133 | get is fatal unless the index is an Int inside the array |
| VmExec.ArrayLength | src/vm.c:1143-1147 | length pushes a fresh Int holding the item count |
| VmExec.LocalRoundTrip | src/vm.c:1014-1027 | a local set and read back yields the value SET_LOCAL left on the stack |
| VmExec.GlobalRoundTrip | src/vm.c:1028-1039 | a global set and read back yields the value SET_GLOBAL left on the stack |
| VmExec.InitReady | src/vm.c:793-812 | initvm's heap is consistent, nothing refers into free space, and nullobj and zeroobj hold Null and Int 0 |
| VmExec.RunMoreFuel | src/vm.c:891-892 | once the run has stopped, more rounds change nothing |
| VmMachine.Vm.constructor | src/vm.c:17-21 | empty code, patches, tables, globals and stacks, and the reserved classes |
| VmMachine.Vm.WriteChar | src/vm.c:47-51 | the code becomes PutChar's |
| VmMachine.Vm.Align | src/vm.c:37-45 | the code is padded to a multiple of `k` |
| VmMachine.Vm.WriteShort | src/vm.c:53-58 | the code becomes PutShort's |
| VmMachine.Vm.WriteInt | src/vm.c:60-65 | the code becomes PutInt's |
| VmMachine.Vm.WritePtr | src/vm.c:67-72 | the code becomes PutPtr's |
| VmMachine.Vm.WriteFrame | src/vm.c:74-79 | the code becomes Frame's |
| VmMachine.Vm.WriteClassArity | src/vm.c:105-112 | code and patches become WithClassArity's |
| VmMachine.Vm.WriteClassTag | src/vm.c:114-122 | code and patches become WithClassTag's |
| VmMachine.Vm.WriteFunctionPtr | src/vm.c:124-132 | code and patches become WithFunctionPtr's |
| VmMachine.Vm.WriteGlobalIdx | src/vm.c:134-142 | code and patches become WithGlobalIdx's |
| VmMachine.Vm.WriteLabel | src/vm.c:144-152 | code and patches become WithLabel's |
| VmMachine.Vm.GetEntry | src/vm.c:188-197 | the loop gives TableGet's answer: the payload of the first entry answering the key, or the error |
| VmMachine.Vm.GetGlobalIdx | src/vm.c:271-279 | the loop gives GlobalIdx's answer: the index of the first global strcmp finds equal to the name, or the error |
| VmMachine.Vm.SetLabel | src/vm.c:180-186 | the table gains the label at the current end of the code |
| VmMachine.Vm.SetMethodLabel | src/vm.c:199-205 | the table gains the method at the current end of the code |
| VmMachine.Vm.SetFunctionLabel | src/vm.c:222-228 | fails exactly when the method has no entry; otherwise the function gets the method's address |
| VmMachine.Vm.SetClassTag | src/vm.c:241-247 | the table gains the class tag |
| VmMachine.Vm.NewGlobal | src/vm.c:267-269 | the global is appended |
| VmMachine.Vm.LinkIns | src/vm.c:293-406 | code, patches and table become Emit's, or the error Emit gives |
| VmMachine.Vm.LinkLit | src/vm.c:300-313 | a literal is an INT or NULL instruction; any other constant is fatal |
| VmMachine.Vm.LinkStrIns | src/vm.c:314-350 | PRINTF, SLOT, SET_SLOT and CALL_SLOT as Emit says |
| VmMachine.Vm.LinkPatched | src/vm.c:351-393 | CALL, SET_GLOBAL, GET_GLOBAL, BRANCH and GOTO as Emit says |
| VmMachine.Vm.LinkMethod | src/vm.c:476-481 | a method's label, header and body, as EmitAll says |
| VmMachine.Vm.LinkCode | src/vm.c:474-482 | the whole first pass, as CodePhase says |
| VmMachine.Vm.LinkSlot | src/vm.c:431-453 | one member of a class, as SlotOf says |
| VmMachine.Vm.MakeClass | src/vm.c:424-464 | fails exactly when VmLink.MakeClass does; otherwise the class is appended and its tag returned |
| VmMachine.Vm.LinkClasses | src/vm.c:485-491 | classes and table become ClassPhase's, or its error |
| VmMachine.Vm.LinkGlobals | src/vm.c:494-507 | globals and table become GlobalPhase's, or its error |
| VmMachine.Vm.ResolvePatch | src/vm.c:512-541 | the bytes Resolve gives for the patch |
| VmMachine.Vm.RunPatches | src/vm.c:510-543 | the code becomes ApplyPatches's, or its error |
| VmMachine.Vm.LinkProgram | src/vm.c:466-547 | passes exactly when Link succeeds, and the loaded image is then Link's |
| VmMachine.Vm.InitVm | src/vm.c:793-812 | the machine state becomes Init of the loaded image, with a fresh global array |
| VmMachine.Vm.InitHeap | src/vm.c:598-628 | the first space holds nullobj then zeroobj |
| VmMachine.Vm.LinkPtr | src/vm.c:678-690 | the heap and the result are VmHeap.LinkPtr's |
| VmMachine.Vm.LinkWords | src/vm.c:692-702 | the heap and the words are LinkRange's |
| VmMachine.Vm.ScanFstack | src/vm.c:713-724 | the heap and the frame stack are ScanFrames's |
| VmMachine.Vm.ScanNext | src/vm.c:704-711 | the heap and the next cursor are VmHeap.ScanNext's |
| VmMachine.Vm.FlipHeap | src/vm.c:740-745 | the heap is Flip's |
| VmMachine.Vm.ScanGlobals | src/vm.c:733-736 | the heap and the globals are LinkRange's |
| VmMachine.Vm.ScanVstack | src/vm.c:726-731 | the heap and the operand stack are LinkRange's |
| VmMachine.Vm.ScanRoots | src/vm.c:738-752 | the state becomes Roots's |
| VmMachine.Vm.ScanHeap | src/vm.c:753-756 | the heap becomes ScanFrom's |
| VmMachine.Vm.RunGc | src/vm.c:738-760 | the state becomes VmHeap.RunGc's |
| VmMachine.Vm.Halloc | src/vm.c:606-618 | the state and the address are VmHeap.Halloc's |
| VmMachine.Vm.ReadChar | src/vm.c:766-770 | the value and ip are NextChar's |
| VmMachine.Vm.ReadShort | src/vm.c:772-777 | the value and ip are NextShort's |
| VmMachine.Vm.ReadInt | src/vm.c:779-784 | the value and ip are NextInt's |
| VmMachine.Vm.ReadPtr | src/vm.c:786-791 | the value and ip are NextPtr's |
| VmMachine.Vm.Pop | src/vm.c:1064 | the operand stack loses its top, as PopLast says |
| VmMachine.Vm.PopMany | src/vm.c:1073-1074 | `k` pops, as PopN says |
| VmMachine.Vm.PushIntObj | src/vm.c:1091-1093 | the state becomes PushInt's |
| VmMachine.Vm.DoInt | src/vm.c:898-904 | INT as ExecInt says |
| VmMachine.Vm.DoPrintf | src/vm.c:910-921 | PRINTF as ExecPrintf says |
| VmMachine.Vm.DoArray | src/vm.c:922-933 | ARRAY as ExecArray says |
| VmMachine.Vm.FinishArray | src/vm.c:926-932 | the array filled as FillArray says |
| VmMachine.Vm.DoObject | src/vm.c:934-946 | OBJECT as ExecObject says |
| VmMachine.Vm.FinishObject | src/vm.c:939-944 | the object placed as PlaceObject says |
| VmMachine.Vm.AttachObject | src/vm.c:942-944 | ensure_parent refuses an Int or Array parent; otherwise the object is stored and pushed, as Attach says |
| VmMachine.Vm.DoSlot | src/vm.c:947-959 | SLOT as ExecSlot says |
| VmMachine.Vm.DoSetSlot | src/vm.c:960-974 | SET_SLOT as ExecSetSlot says |
| VmMachine.Vm.SetSlotNamed | src/vm.c:970-971 | the store SetSlotValue gives |
| VmMachine.Vm.SetAndPushCall | src/vm.c:970-972 | the store, then the stored value pushed back, as SetAndPush says |
| VmMachine.Vm.StoreSlot | src/vm.c:971 | the store SlotWrite gives |
| VmMachine.Vm.CallTo | src/vm.c:1007-1011 | the state becomes Call's |
| VmMachine.Vm.DoCallSlot | src/vm.c:975-1002 | CALL_SLOT as ExecCallSlot says |
| VmMachine.Vm.IntSlotCall | src/vm.c:1095-1124 | as CallIntSlot says |
| VmMachine.Vm.IntApplyCall | src/vm.c:1099-1124 | ensure_int on the argument, then the comparison pushes zeroobj or nullobj and the arithmetic a fresh Int, as IntApply says |
| VmMachine.Vm.ArraySlotCall | src/vm.c:1126-1152 | as CallArraySlot says |
| VmMachine.Vm.ArrayGetCall | src/vm.c:1127-1133 | get as CallArraySlot says |
| VmMachine.Vm.ArraySetCall | src/vm.c:1134-1142 | set as ArraySet, the "set" case of CallArraySlot, says |
| VmMachine.Vm.StoreElement | src/vm.c:1139-1141 | the index checks and the store of set, as SetElement says |
| VmMachine.Vm.ArrayLengthCall | src/vm.c:1143-1147 | length as CallArraySlot says |
| VmMachine.Vm.DoCall | src/vm.c:1003-1013 | CALL as ExecCall says |
| VmMachine.Vm.SetFrameWord | src/vm.c:1074 | the frame stack becomes SetAt's, or its error |
| VmMachine.Vm.SetFrameLength | src/vm.c:1072 | the frame stack becomes SetLength's, padded with nullobj |
| VmMachine.Vm.DoSetLocal | src/vm.c:1014-1020 | SET_LOCAL as ExecSetLocal says |
| VmMachine.Vm.DoGetLocal | src/vm.c:1021-1027 | GET_LOCAL as ExecGetLocal says |
| VmMachine.Vm.DoSetGlobal | src/vm.c:1028-1033 | SET_GLOBAL as ExecSetGlobal says |
| VmMachine.Vm.DoGetGlobal | src/vm.c:1034-1039 | GET_GLOBAL as ExecGetGlobal says |
| VmMachine.Vm.DoBranch | src/vm.c:1040-1047 | BRANCH as ExecBranch says |
| VmMachine.Vm.DoGoto | src/vm.c:1048-1053 | GOTO as ExecGoto says |
| VmMachine.Vm.DoReturn | src/vm.c:1054-1061 | RETURN as ExecReturn says |
| VmMachine.Vm.DoDrop | src/vm.c:1062-1066 | DROP as ExecDrop says |
| VmMachine.Vm.DoFrame | src/vm.c:1067-1076 | FRAME as ExecFrame says |
| VmMachine.Vm.PopArgs | src/vm.c:1073-1074 | locals `i - 1` down to 0 as PopLocals says |
| VmMachine.Vm.StepOnce | src/vm.c:896-1080 | one round of runvm, as Step says |
| VmMachine.Vm.RunVm | src/vm.c:891-1082 | runvm's rounds, as Run says |
| VmMachine.ArrayFill | src/vm.c:806-807 | the array holds exactly the given words |

## Left out

- I/O.
  - Files (`load_bytecode`, `fopen`/`fgetc`) are not modelled: readers work on a byte sequence held in memory.
  - The REPL and test drivers of `src/main.c`, and `src/cfeeny.c`, are not modelled.
- Printing.
  - Printed text is modelled only where a contract is about it: `print_string`, `print_format` in the AST interpreter, and the error messages.
  - The disassemblers (`print_prog`, `print_ins`, `print_exp`, `print_obj`, `print_vstack`, `print_code_buffer`) are not modelled.
  - Diagnostics that print numbers or objects carry a constant message.
- Allocation.
  - `malloc`, `realloc` and `ensure_code_space` are not modelled: the code buffer is a sequence that grows, and the padding holds zeros where C leaves whatever was there.
  - `vector_free` and the other `free` calls are not modelled.
- C integer semantics.
  - AstEval.IntOp and the calculator (`src/ast.c`, `src/main.c`): arithmetic is on `int`, where C leaves signed overflow, including the minimum int divided by -1, undefined. The model wraps the result to 32 bits.
  - VmExec.IntSlotResult (`src/vm.c`): an Int holds a `long` (vm.c:556), so the sum, difference, product or quotient of two ints cannot overflow. `push_int(int)` then narrows the result, which C leaves implementation-defined. The model wraps it to 32 bits, as two's-complement compilers do.
  - In the VM and the AST interpreter, division by zero is fatal with a message, where C traps.
- VmExec.ExecReturn: RETURN casts the saved fp through `(int)`, and the model keeps it as the word pushed by the call.
- Negative lengths.
  - AstEval.Interp.MakeArray, AstEval.EvArray: a negative array length allocates an array with no items. C asks malloc for a negative size and stores no item.
  - VmExec.ExecArray: a negative array length stops with UNDEFINED. C would allocate a record shorter than its header.
  - A negative count in the bytecode or tree reader reads an empty list.
- VmExec.ExecArray: ARRAY_INS reads the length before allocating. The C code reads it after an allocation that may collect and overwrite that record.
- VmExec.ExecSlot: SLOT_INS and SET_SLOT_INS print a message for Int, Null and Array receivers, then go on to lookup_slot; the model stops with UNDEFINED there.
- VmExec.ExecSlot, VmExec.ExecSetSlot, VmExec.Step, VmExec.Run, VmMachine.Vm.DoSlot, VmMachine.Vm.DoSetSlot, VmMachine.Vm.SetSlotNamed, VmMachine.Vm.SetAndPushCall, VmMachine.Vm.StepOnce, VmMachine.Vm.RunVm: these model the corrected slot access of the first finding below. A variable is read from and written to the object on the parent chain whose class holds it. vm.c:957 and vm.c:971 instead index the receiver's own slots with that class's index. The as-written access is `VmExec.SlotValueAsWritten` and `VmExec.SetSlotValueAsWritten`.
- VmExec.ExecObject: an OBJECT with a reserved or unknown class tag stops with UNDEFINED.
- VmExec.LookupSlot: a cycle in the parent chain is fatal in the model, where C would loop forever. The search carries the set of objects already visited.
- VmExec.Run, VmMachine.Vm.RunVm: `runvm` is run for at most `fuel` rounds. A program that does not stop within them is not modelled.
- AstEval.Interp.EvalExp, AstEval.EvExp: calls and loop rounds spend fuel, so nontermination of a Feeny program is not modelled. Running out of fuel is a fatal error that C never reports.
- String pointers written into code are indices of string constants.
  - Pointer comparison and casts are not modelled.
  - A slot, label, function or global name is compared as `strcmp` compares the text up to its NUL.
- Heap records.
  - Records are a map from address to record. The collector copies them whole rather than word by word.
  - A copy that would run past the end of a space stops with UNDEFINED.
  - The flip empties the new space, where C leaves its old bytes, which nothing reads.
- VmHeap.MovedInto: that the running program never creates a reference into free space is not proved for the interpreter; it is proved for the state initvm builds (`VmExec.InitReady`) and preserved through a collection.
- VmMachine.Vm.ArrayGetCall, VmMachine.Vm.ArrayLengthCall: each requires its own slot name, which is the dispatch call_array_slot performs before the case begins.
- VmMachine.Vm.InitVm: it places nullobj and zeroobj directly (halloc's fast path, which a fresh space always takes) rather than through a collecting allocation.
- VmLink.Overwrite: a patch whose bytes would fall outside the code stops with UNDEFINED.
- VmMachine.Vm.LinkCode, VmMachine.Vm.LinkClasses, VmMachine.Vm.LinkGlobals: they require the empty tables that link_program's `init_*` calls set up right before them.
- AstEval.Interp.MakeFrame, AstEval.Interp.EvalObject: arguments and slot values are evaluated before the new environment is allocated, so arena indices differ from C's allocation order. Nothing observes the difference, since the new environment is unreachable during evaluation.
- Calc.LitValue: `run_ins` sign-extends each byte of a literal. This is modelled as written, and the compiler's correctness is stated for the decoded literal (`Calc.CompileCorrect`), not claimed as a round trip.
- Calc.RunIns: the 1024-word stack of `run_ins` is a sequence, and its overflow is not modelled.

## Findings

| source | as written | input that shows it | evidently intended | confidence | as-written member | corrected member |
|---|---|---|---|---|---|---|
| src/vm.c:947-974 | SLOT_INS and SET_SLOT_INS index the receiver's own slots with the index lookup_slot found, even when the slot was found in a parent's class | a child object whose class has one variable `y`, whose parent's class has a variable `x`: `child.x` reads `y`, and `child.x = o` overwrites `y` | the read and the write go to the object along the parent chain whose class holds the slot | not executed | VmExec.SlotAsWrittenReadsReceiver | VmExec.SlotRoundTrip |
| src/main.c:524-533 | parse_stmt accepts any symbol as the name of a let, and run_stmt then indexes the 26-slot environment with `name[0] - 'a'` | the line `A = 1`, which selects slot -32 | a let whose name's first character is not a lower-case letter is rejected, since it selects no slot | not executed | Calc.LetNameUnchecked | Calc.ParsedWf |
