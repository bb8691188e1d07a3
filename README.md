# simple-lang core in Dafny

This project models the core of simple-lang, a small compiler and virtual machine written in C. The source text passes through these stages:

- **Lexer** (`lexer.c`). A scanner turns the source into tokens. Identifiers are interned: each distinct spelling gets one entry in a string table.
- **Parser** (`parser.c`). A recursive-descent parser turns tokens into expression trees. It has three binary precedence levels plus unary minus (level 0 of the precedence table) and parentheses.
- **Resolver** (the second half of `compiler.c`). It gives every declared variable a slot. It tags each use of a name with the slot of the innermost earlier declaration in scope.
- **Code generator** (the first half of `compiler.c`). It emits post-order stack code for expressions. For if/elif/else chains it emits JZ and JMP jumps and back-patches their targets.
- **VM** (`vm.c`). A stack machine with an operand stack and a call stack runs the code.

The code generator and the VM are also proved correct together. For a tree of literals, negations and binary operators, the compiled code pushes exactly the tree's value and leaves everything else as it was.

Three support libraries are modelled too:

- the string interner (`intern.c`);
- the open-addressing hash map (`map.c`);
- the stretchy-array header `stb_arr.h`. It ships with the repository. The compiler, the interner and the VM grow their buffers with `sb_*` macros instead, from a header that is not part of this model.

The model follows the C program's own form:

- **Classes for state the C code mutates.** The VM, the lexer's globals, the intern table, the hash map and the stretchy array are Dafny classes. Their methods update the fields the C functions update. Each method is proved against a pure specification function.
  - The VM's stacks are fixed 1024-slot arrays.
  - The stretchy array is an `array` with an explicit limit and length.
  - The code buffer is a sequence that compilation appends to and patches.
- **Loops stay loops.** Hash probing, the interner's search, the digit scanner, the memmove of `insertn`, the patch loop of an if chain and the scope walks of the resolver are all `while` loops with invariants.
- **Pure references are independent of the code they specify.** This applies to the grammar functions for the parser, `StmtCode` for the code generator, the lexically scoped `Resolve` for the resolver, and `StepF` for the VM. The properties of the system are proved about these references as lemmas.

Two error conventions are used:

- A fatal error is an `Err` result carrying the message the C code prints. This covers `fatal`, `internal_error` and an `assert` the program relies on.
- Undefined behaviour in C becomes a precondition. This covers signed overflow, stack overflow, non-ASCII input and positions past the string terminator.

## Model

| member | source | states |
|---|---|---|
| Common.ToS64 | vm.c:72-82 | the cast of a u64 literal to s64 keeps the bit pattern and is the identity below 2^63 |
| Interner.Find | intern.c:8-13 | the linear search finds the first entry with the given text or reports that none has it |
| Interner.MakeEntry | intern.c:14-19 | a new entry is a NUL-terminated copy whose length field and text match the input |
| Interner.StrLen | intern.c:22-25 | `strlen` stops at the first NUL, and the characters before it contain no NUL |
| Interner.InternTable.constructor | intern.c:3 | the table starts empty |
| Interner.InternTable.InternRange | intern.c:5-20 | the table and the returned index are those of the reference `InternF`: an existing equal entry is returned unchanged, otherwise an entry is appended and its index returned |
| Interner.InternTable.Intern | intern.c:22-25 | `str_intern` interns the text before the first NUL |
| Interner.InternFound | intern.c:10-12 | interning a text that is already present leaves the table alone and returns that entry |
| Interner.InternAppends | intern.c:14-19 | interning a new text appends exactly one entry and returns its index |
| Interner.InternPreserves | intern.c:5-20 | interning keeps the table valid, only extends it, and the returned entry spells the text |
| Interner.InternIdentity | intern.c:27-35 | two texts get the same intern index if and only if they are equal |
| Interner.InternIdempotent | intern.c:5-20 | re-interning the text of a returned entry changes nothing and returns the same index |
| Interner.InternF | intern.c:5-20 | the reference for one `str_intern_range` call: the first entry with the text and the table unchanged, or a new entry appended at the end and its index; the lemmas below prove its properties |
| Interner.InternTest | intern.c:27-35 | two distinct buffers holding "asdf" intern to the same index, and "ASDF" to a different one |
| Interner.StrLenOfEntry | intern.c:14-19 | the stored string, read as a C string, has the recorded length and the interned text |
| HashMap.Dist | map.c:24-25 | the probe distance from the home slot is 0 exactly at the home slot |
| HashMap.Home | map.c:13-16 | `key % size` is a slot index |
| HashMap.NextSlot | map.c:25 | the step `(position + 1) % size` advances the probe distance by one and wraps back to the home slot after `size` steps |
| HashMap.AbsentAtGap | map.c:37-38 | under the probing invariant, a free slot on the probe path means the key is absent |
| HashMap.PassedStep | map.c:22-26 | stepping past an occupied slot holding another key extends the set of slots known not to hold the key |
| HashMap.FillKeepsInvariants | map.c:27-29 | filling the first free slot on the probe path keeps the probing invariant and key uniqueness |
| HashMap.Map.constructor | map.c:3-11 | a fresh map of the given size has no slot taken |
| HashMap.Map.Hash | map.c:13-16 | the hash is the home slot of the key |
| HashMap.Map.Insert | map.c:18-30 | insertion succeeds exactly when the key is present or a slot is free; it overwrites the key's own slot or fills one free slot and changes no other; when the table is full of other keys it fails, where the C assertion at line 24 aborts |
| HashMap.Map.Index | map.c:32-47 | the lookup returns true exactly when the key is stored; it then writes that key's value into a non-null destination cell, and otherwise leaves that cell unchanged |
| HashMap.Map.Iter | map.c:49-56 | the iterator returns the next taken slot after `iter`, or -1 when none remains; for `iter` below -1 the comparison with the unsigned `size` (map.h:13) converts `iter + 1` to a huge value, so the result is -1 at once |
| HashMap.MapTest | map.c:58-69 | both lookups of `map_test` find their key and yield 0xDEAD and 0xBEEF |
| HashMap.TestInserts | map.c:58-62 | after the two inserts of `map_test`, 15 maps to 0xDEAD and 527 maps to 0xBEEF in distinct slots, although both hash to slot 15 |
| StbArr.NewLimit | stb_arr.h:252-282 | the grown capacity is the request for a NULL array, is never below the request or the old capacity, is kept when it suffices, and becomes twice the old capacity when that is at least 4 and the request lies below twice it |
| StbArr.Deleted | stb_arr.h:327-335 | deleting `n` elements at `i` keeps the prefix and shifts the suffix down by `n` |
| StbArr.ShiftUp | stb_arr.h:322 | the memmove of `insertn` moves `a[i..z]` up by `n` and leaves everything else as it was |
| StbArr.Arr.constructor | stb_arr.h:90 | a new stretchy array is NULL, with no elements |
| StbArr.Arr.Len | stb_arr.h:90 | the length is the number of elements, 0 for NULL |
| StbArr.Arr.Empty | stb_arr.h:62 | the array is empty exactly when it has no elements |
| StbArr.Arr.CurMax | stb_arr.h:149 | the capacity is the allocated size and is never below the length |
| StbArr.Arr.Grow | stb_arr.h:262-280 | reallocation keeps the length and the old contents and sets the new capacity |
| StbArr.Arr.ArrSize | stb_arr.h:247-284 | the capacity becomes `NewLimit`, the length is clamped to the capacity, and the elements kept are unchanged |
| StbArr.Arr.SetSize | stb_arr.h:286-291 | reserving capacity keeps the elements, truncated to the new capacity |
| StbArr.Arr.SetLen | stb_arr.h:293-302 | the length becomes `n` and the old elements below `n` are kept; no reallocation when `n` fits |
| StbArr.Arr.AddLen | stb_arr.h:304-307 | the length grows by `n` and the old elements are kept |
| StbArr.Arr.AddN | stb_arr.h:117-127 | `addn` returns the index of the first new element, grows in place when the elements fit and reallocates otherwise |
| StbArr.Arr.Set | stb_arr.h:64 | a store `a[i] = v` replaces exactly element `i` |
| StbArr.Arr.Push | stb_arr.h:63-64 | the pushed value is appended and the earlier elements are kept |
| StbArr.Arr.Pop | stb_arr.h:108 | pop returns the last element and removes exactly it, without reallocating |
| StbArr.Arr.InsertN | stb_arr.h:309-325 | `n` new slots open at `i`: the elements before `i` stay and the ones from `i` move up by `n` |
| StbArr.Arr.DeleteN | stb_arr.h:327-335 | the elements become `Deleted(old, i, n)`, and the storage is unchanged |
| StbArr.DeleteUndoesInsert | stb_arr.h:130-136 | `deleten(a, i, n)` after `insertn(a, i, n)` restores the original elements |
| StbArr.UsageExample | stb_arr.h:11-34 | the usage example ends with six elements, element 5 equal to 5 and element 1 equal to 1 (not 2, as line 18 asserts) |
| StbArr.UsageExampleTail | stb_arr.h:20-34 | after `add`, `addn(3)`, the four stores and the pop, the elements are 0, 1, 2, 3, 4, 5 in a capacity of 8 |
| Vm.TDiv | vm.c:16 | C's `/` truncates toward zero: `abs(q) = abs(x) / abs(y)`, and a non-zero quotient's sign is the product of the operands' signs |
| Vm.TMod | vm.c:17 | C's `%` has the sign of the dividend and a smaller magnitude than the divisor |
| Vm.TDivMod | vm.c:16-17 | `(x / y) * y + x % y == x` for C's truncating operators |
| Vm.TDivRange | vm.c:16 | the only s64 division that overflows is `S64_MIN / -1` |
| Vm.BinaryOp | vm.c:7-22 | each binary operator gives the C result, and it is undefined exactly on signed overflow, a zero divisor or `S64_MIN / -1`; comparisons give 0 or 1 |
| Vm.StepF | vm.c:61-111 | a step that is defined reads `insts[ip]` and advances `ip` by one; it halts exactly on HALT; a fatal error leaves the stacks as they were |
| Vm.Run | vm.c:125-138 | every continuing `vm_step` does `ip++` (line 62) and no executed instruction jumps, so a run that continues for `n` steps ends exactly `n` instructions on; a run that stops ends between its start and `n` instructions on |
| Vm.RunStops | vm.c:125-138 | once a step halts or fails, further steps change neither the outcome nor the state, so the loop's result is fixed at its first stopping step |
| Vm.OperatorStep | vm.c:3-36 | an operator with too few operands, and the missing LNEG entry, are undefined; otherwise NEG keeps the number of operands and a binary operator lowers it by one |
| Vm.StepFrame | vm.c:61-111 | a continuing step pops and pushes exactly the counts its instruction dictates and keeps every other stack slot, except the call slot that SAVE writes |
| Vm.OperatorResult | vm.c:3-36 | an operator replaces its one or two top operands by the operator's value and keeps the stack below them |
| Vm.RunSplit | vm.c:125-138 | running `a + b` steps is running `a` steps, then `b` steps |
| Vm.VM.constructor | vm.c:53-59 | a new VM has empty stacks, `ip == 0` and no instructions |
| Vm.VM.Init | vm.c:53-59 | `vm_init` resets both stack counters, `ip` and the instruction buffer |
| Vm.VM.Emit | compiler.c:116 | emitting appends one instruction to the buffer |
| Vm.VM.Patch | compiler.c:167 | patching replaces exactly the instruction at the given index |
| Vm.VM.Step | vm.c:61-111 | `vm_step` on the stack arrays computes the outcome and the next state of `StepF` on the abstract state |
| Vm.VM.PushCall | vm.c:72-74 | PUSHC pushes its value on the call stack and leaves everything else |
| Vm.VM.PushOperand | vm.c:80-82 | PUSHO and LOAD push a value on the operand stack and leave everything else |
| Vm.VM.PopCall | vm.c:75-79 | POPC removes the top of the call stack |
| Vm.VM.PopOperand | vm.c:83-87 | POPO removes the top of the operand stack |
| Vm.VM.SaveTop | vm.c:96-105 | SAVE pops the top operand into call slot `call_sp - offset` |
| Vm.VM.ApplyOperator | vm.c:69-71 | `operators[op](vm)` leaves the operand stack that `OperatorStep` specifies |
| Vm.TestTracePushC | vm.c:118 | the first step of the `vm_test` program pushes 12 on the call stack |
| Vm.TestTraceLoad | vm.c:119 | LOAD 1 copies 12 onto the operand stack |
| Vm.TestTracePushO | vm.c:120 | PUSHO 3 pushes 3 |
| Vm.TestTraceAdd | vm.c:121 | OP ADD leaves 15 |
| Vm.TestTraceEnd | vm.c:122-124 | SAVE 1 stores 15 in the call slot, POPC empties the call stack, HALT stops |
| Vm.RunTestProgram | vm.c:125-138 | the `vm_test` loop on the VM object ends with empty stacks and `ip == 7` |
| Vm.TestProgramHalts | vm.c:113-140 | the program of `vm_test` halts after exactly 7 steps with empty stacks |
| Vm.VmTest | vm.c:113-140 | `vm_test` builds the seven-instruction program and runs it to HALT, with both stack counters back at 0 and `ip` at 7 |
| Lexer.DigitEnd | lexer.c:84-88 | the digit loop stops at the first non-digit |
| Lexer.WordEnd | lexer.c:92-94 | the identifier loop stops at the first character that is not a letter, digit or `_` |
| Lexer.Scan | lexer.c:78-145 | from a non-space position a token starts there and ends after it; the end of the source, and only it, gives the end token (type 0); the intern table only grows |
| Lexer.Lex | lexer.c:104-111 | `_next_token` skips spaces, tabs and newlines and then scans the next token |
| Lexer.ScanLiteral | lexer.c:81-89 | a digit run gives a LITERAL token carrying its decimal value |
| Lexer.ScanWord | lexer.c:90-103 | a word is interned and gives LET, WHILE or IF when it is that keyword's entry, NAME otherwise |
| Lexer.ScanOperator | lexer.c:112-138 | `>`, `<` and `=` take a following `=` into a two-character token |
| Lexer.ScanOther | lexer.c:139-141 | any other character is a one-character token of its own code |
| Lexer.LessEqualIsGte | lexer.c:121-129 | `<=` is lexed as GTE (line 125), so the scanner never produces the LTE token |
| Lexer.DigitsValue | lexer.c:83-89 | the reference value of a digit run, read left to right as `val = val * 10 + digit`; `DigitsValueBound` and `ScanNumber` are stated with it |
| Lexer.WordKind | lexer.c:97-103 | the reference kind of an interned word: LET, WHILE or IF for the three keyword indices, NAME for every other index; `ScanWord` and `ScanName` are stated with it |
| Lexer.DigitsValueBound | lexer.c:83-89 | the value of `k` digits is below 10^k |
| Lexer.Next | lexer.c:147-153 | `next_token` moves forward and keeps the source and the keywords |
| Lexer.Tokens | lexer.c:147-153 | the token stream starts with the current token |
| Lexer.TokensAdvance | lexer.c:168-175 | advancing past a non-end token drops exactly the head of the token stream |
| Lexer.TokensTerminated | lexer.c:144 | every token stream ends in exactly one end token (type 0) |
| Lexer.LexInitF | lexer.c:60-70 | after interning `let`, `while` and `if`, the table holds the three keywords and extends the old one |
| Lexer.LexInit | lexer.c:60-70 | `lex_init` on the shared intern table does what `LexInitF` specifies |
| Lexer.Lexer.constructor | lexer.c:51-56 | the globals start with no source and the keywords interned |
| Lexer.Lexer.InitStream | lexer.c:72-76 | `init_stream` sets the source and reads the first token |
| Lexer.Lexer.NextToken | lexer.c:147-153 | one call moves the lexer to the state `Next` specifies |
| Lexer.Lexer.LexToken | lexer.c:78-145 | `_next_token` from a non-space position reaches the state `Next` specifies |
| Lexer.Lexer.ScanToken | lexer.c:80-144 | the dispatch on the first character produces the token, position and table of `Scan` |
| Lexer.Lexer.ScanNumber | lexer.c:81-89 | the digit loop ends at `DigitEnd` with the token's value equal to the digits' value |
| Lexer.Lexer.ScanName | lexer.c:90-103 | the word loop ends at `WordEnd`; the word is interned and its kind is chosen from the keyword indices |
| Lexer.Lexer.ScanOperatorToken | lexer.c:112-138 | a comparison character followed by `=` gives the two-character token, otherwise the one-character token |
| Lexer.Lexer.IsToken | lexer.c:155-158 | true exactly when the head of the token stream has the given type |
| Lexer.Lexer.IsTokenName | lexer.c:160-163 | true exactly when the head is a NAME with the given intern index |
| Lexer.Lexer.MatchToken | lexer.c:168-175 | on a match it advances by one token and returns true; otherwise it returns false and changes nothing |
| Lexer.Lexer.ExpectToken | lexer.c:189-196 | on a match it advances by one token; otherwise it fails with the "Expected token" message and does not move |
| Lexer.Lexer.CheckToken | lexer.c:198-201 | it succeeds exactly on a match and never advances |
| LexTest.SourceReadable | lexer.c:226-230 | the `lex_test` source is ASCII with small literals |
| LexTest.Step3 | lexer.c:227 | `15` in `let x = 15;` is one LITERAL token with value 15 |
| LexTest.Step7 | lexer.c:228 | `>=` in `while x >= 0 {` is one GTE token |
| LexTest.Indent | lexer.c:229 | the indentation before `let` is skipped |
| LexTest.Step19 | lexer.c:230 | the end of the source gives the end token (type 0) |
| LexTest.AssertToken | lexer.c:203-204 | the checking macro advances past a token of the expected type |
| LexTest.AssertTokenName | lexer.c:205-206 | the name-checking macro advances past the expected name |
| LexTest.AssertTokenLiteral | lexer.c:207-208 | the literal-checking macro advances past the expected value |
| LexTest.LexTest | lexer.c:224-251 | the whole token sequence `lex_test` asserts is what the lexer produces, ending at the end token with `x` interned once |
| LexTest.Line1 | lexer.c:232-236 | the assertions for the first source line hold and advance past it |
| LexTest.Line2 | lexer.c:237-241 | the assertions for the second source line hold |
| LexTest.Line3 | lexer.c:242-248 | the assertions for the third source line hold |
| LexTest.Line4 | lexer.c:249-250 | the closing `}` and `;` are followed by the end token |
| Parser.TokenToBinOp | parser.c:16-26 | the table maps every binary-operator token to a binary operator other than MOD and LTE |
| Parser.TokenToBinOpInverse | parser.c:16-26 | the table is inverted by `OpToken` on every parsed operator; `<=` and `>=` both map to GTE (line 25) |
| Parser.Atom | parser.c:133-154 | a successful atom consumes at least one token |
| Parser.Expr0 | parser.c:156-168 | a successful unary expression consumes at least one token |
| Parser.IsLevelOp | parser.c:170-216 | the operator tokens each binary level loops on: `*` `/` at level 1, `+` `-` at level 2, `==` `>` `<` GTE LTE at level 3; `%` is at no level |
| Parser.Level | parser.c:170-230 | after a level-`n` expression no operator of levels 1..n follows |
| Parser.Fold | parser.c:175-230 | the left-associative operator loop of a level stops at a token that is not one of its operators |
| Parser.Expression | parser.c:232-235 | a parsed expression stops at a token that is not a binary operator |
| Parser.ReadsFromTokens | parser.c:133-235 | a lexer whose token stream is the suffix of `ts` at `i` is positioned at `ts[i]` |
| Parser.Advance | parser.c:137-148 | consuming a non-end token moves the cursor to the next token of the stream |
| Parser.Expect | parser.c:150 | `expect_token` succeeds exactly on the expected token and then moves one token on |
| Parser.AtomCases | parser.c:133-154 | a literal or a name is an atom of one token; any token that cannot start an atom is the missing-atom error |
| Parser.AtomParenOk | parser.c:147-151 | `( e )` is an atom holding `e` |
| Parser.AtomParenErr | parser.c:147-151 | an error inside the parentheses propagates; a missing `)` is the "Expected token" error |
| Parser.FoldStep | parser.c:175-230 | an operator of the level combines the left operand with the next operand of the level below |
| Parser.FoldStop | parser.c:175-230 | a token that is not an operator of the level ends the level |
| Parser.ParseAtom | parser.c:133-154 | `parse_atom` on the lexer yields the tree, error and token position of `Atom` |
| Parser.ParseExpr0 | parser.c:156-168 | `parse_expr_0` yields the result of `Expr0` |
| Parser.ParseLevel | parser.c:170-230 | `parse_expr_1`, `parse_expr_2` and `parse_expr_3` yield the result of `Level` |
| Parser.ParseOperators | parser.c:175-230 | the operator loop of a level yields the result of `Fold` |
| Parser.ParseExpression | parser.c:232-235 | `parse_expression` reads the token stream and yields the tree or error of `Expression`, leaving the lexer after the expression |
| ParserProps.UnitParse | parser.c:133-168 | a fully parenthesised tree, read back from its tokens, parses to itself |
| ParserProps.ParseUnparse | parser.c:232-235 | `parse_expression` inverts fully parenthesised printing of every tree with operators the parser produces |
| ParserProps.Pair | parser.c:170-230 | `a op b` parses to `Binary(op, a, b)` at every level from the operator's level up |
| ParserProps.TripleSame | parser.c:175-230 | operators of one level associate to the left: `a op b op' c` is `(a op b) op' c` |
| ParserProps.TripleFirst | parser.c:114-121 | a tighter operator first groups first: `a * b + c` is `(a * b) + c` |
| ParserProps.TripleSecond | parser.c:114-121 | a tighter operator second groups first: `a + b * c` is `a + (b * c)` |
| ParserProps.Triple | parser.c:114-121 | every three-operand chain parses by the precedence table: the operator of the lower-numbered (tighter) level groups first, and of two operators at one level the left one does |
| ParserProps.NegBindsTighter | parser.c:156-168 | unary minus binds tighter than every binary operator: `-a op b` is `(-a) op b` |
| ParserProps.LteAsGte | parser.c:25 | `a <= b` parses to `Binary(GTE, a, b)` |
| ParserProps.ModStops | parser.c:16-26 | `%` is not a binary operator of the parser, so the expression ends before it |
| ParserProps.ErrLift | parser.c:170-230 | an error in the first operand is the error of every level |
| ParserProps.NoOperand | parser.c:133-154 | a token that cannot start an operand is the missing-atom error at every level |
| ParserProps.EmptyHasNoExpression | parser.c:232-235 | an empty token stream holds no expression |
| ParserProps.MissingParen | parser.c:147-151 | an unclosed parenthesis is the "Expected token" error at every level |
| ParserProps.ParenIsInner | parser.c:147-151 | parentheses add no node: `(e)` parses to `e` |
| Resolver.RetagExpr | compiler.c:194-221 | the reference for a sequence of `tag_names_in_expr` calls: every name node whose name is declared gets that declaration's slot, and nothing else changes; the lemmas below prove its properties |
| Resolver.RetagStmt | compiler.c:223-263 | the same reference lifted to statements, through every expression and nested scope |
| Resolver.Resolve | compiler.c:265-298 | the lexically scoped reference: each use of a name gets the slot of the innermost earlier declaration in scope, and the declarations come out in walking order with consecutive slots; `ReadDeclarations`, `ResolveRetagged` and `ResolveSlots` are stated with it |
| Resolver.RetagExprEmpty | compiler.c:194-221 | tagging with no declarations changes nothing |
| Resolver.RetagStmtEmpty | compiler.c:223-263 | tagging a statement with no declarations changes nothing |
| Resolver.RetagExprCompose | compiler.c:194-221 | two tagging passes are one pass with the later declarations overriding the earlier ones |
| Resolver.RetagStmtCompose | compiler.c:223-263 | the same for statements |
| Resolver.RetagWellScoped | compiler.c:225 | tagging preserves the scope shape that `tag_names` asserts |
| Resolver.ResolveRetagged | compiler.c:284-291 | reference resolution of a tree already tagged by outer declarations equals resolution with those declarations in the environment |
| Resolver.ResolveSlots | compiler.c:286-291 | the declarations found get the slots `count, count + 1, …`, in walking order, with the declared names |
| Resolver.SlotsDistinct | compiler.c:289 | no two declarations share a slot |
| Resolver.TagNamesInExpr | compiler.c:194-221 | `tag_names_in_expr` sets the slot of exactly the name nodes for the given name |
| Resolver.TagNames | compiler.c:223-263 | `tag_names` retags the statements of the scope from `start` on and keeps the earlier ones |
| Resolver.TagStatement | compiler.c:228-261 | one case of the switch retags the statement |
| Resolver.TagIf | compiler.c:236-248 | the if case retags the conditions, every branch scope and the else scope |
| Resolver.ReadDeclarations | compiler.c:265-298 | `read_declarations` appends the declarations and yields the tree of the lexically scoped reference `Resolve` |
| Resolver.ReadIf | compiler.c:268-276 | the if case resolves each branch, then the else scope, with slots continuing across them |
| Resolver.ReadScope | compiler.c:281-296 | the scope case gives each declaration the next slot and makes it visible to the rest of the scope only |
| Resolver.ReadFunctionDecls | compiler.c:300-305 | the declarations of a function body are numbered from 0 with the declared names and word size |
| Resolver.PrepareFunction | compiler.c:308-311 | `prepare_function` stores those declarations; the function body comes back resolved |
| Resolver.ResolveExample | compiler.c:281-296 | in `{ x; let x; x; { x; let x; x; } x; y; }` a use before the declaration keeps -1, later uses get slot 0, the inner declaration gets slot 1 and overrides slot 0 only inside its scope, and the undeclared `y` keeps -1 |
| Compiler.ExprCode | compiler.c:111-134 | the reference code of an expression: operands first, then OP, PUSHO for a literal, nothing for names and calls; it fails only with the indexing error |
| Compiler.StmtCode | compiler.c:136-186 | the reference code of a statement; it fails only with the indexing error or the failed assertion on the if statement's two arrays |
| Compiler.Branches | compiler.c:158-168 | the reference code of branches `i..` of an if chain (condition, JZ past the branch, scope, JMP to the end); it fails only with the indexing error or the if-count assertion of a nested if chain |
| Compiler.BodyCode | compiler.c:180-184 | the reference code of statements `i..` of a scope in order, each at its absolute position; it fails only with the indexing error or the if-count assertion of a nested if chain |
| Compiler.StmtCodeLen | compiler.c:136-186 | the code of a statement has the length `StmtLen` predicts, so an if chain's end is known before it is emitted |
| Compiler.ExprNoJumps | compiler.c:111-134 | expression code contains no jumps |
| Compiler.StmtTargets | compiler.c:136-186 | every jump in a statement's code targets a position inside that code or its end |
| Compiler.BranchTargets | compiler.c:160-168 | every jump of the branches lies between the chain's start and its end |
| Compiler.BranchesLayout | compiler.c:160-168 | branch `j` has its JZ after its condition and its JMP to the end |
| Compiler.IfChainLayout | compiler.c:147-175 | in an if chain, the JZ of each branch jumps to just after that branch's JMP, i.e. to the next condition or the else scope, and every JMP jumps to the end of the whole statement |
| Compiler.CompileExpression | compiler.c:111-134 | `compile_expression` appends the post-order code of `ExprCode`: operands first, then OP, PUSHO for a literal, nothing for names and calls, and the indexing error |
| Compiler.CompileStatement | compiler.c:136-186 | `compile_statement` appends the code of `StmtCode`, or fails with its error |
| Compiler.CompileScope | compiler.c:180-184 | a scope's statements are compiled in order |
| Compiler.CompileBranch | compiler.c:161-167 | one branch appends its condition, a JZ patched past the branch, its scope and a placeholder JMP, and returns where the JMP is |
| Compiler.PatchJumps | compiler.c:172-174 | patching the recorded JMPs turns the placeholders into the specified code |
| Compiler.BranchPass | compiler.c:160-168 | one iteration of the branch loop: on success the buffer holds the branches so far, with every placeholder JMP recorded, and the code before the chain is kept; a failure is the chain's own error |
| Compiler.CompileBranches | compiler.c:158-168 | the loop appends every branch with placeholder JMPs recorded in increasing order |
| Compiler.CompileIf | compiler.c:147-175 | the if case appends exactly `StmtCode` for the chain, including the else scope and the patched jumps; mismatched condition and scope counts give the assertion's error |
| Compiler.CompileFunction | compiler.c:188-192 | `ip_start` is the buffer length on entry, and the body's code is appended |
| Correctness.Eval | vm.c:3-36 | the value the operator table gives a tree of literals, NEG and binary operators; where it is defined it is an s64, and the tree compiles without error |
| Correctness.EffectConcat | vm.c:61-111 | straight-line PUSHO and OP code run in two pieces has the effect of the first piece and then the second |
| Correctness.ExprEffect | compiler.c:111-134 | the post-order code of an expression with a value, started with `Depth` free slots, pushes exactly that value and keeps the rest of the operand stack |
| Correctness.EffectRuns | vm.c:61-111 | straight-line code with an effect runs on the machine without stopping, has exactly that effect, and leaves the call stack alone |
| Correctness.ExprRuns | compiler.c:111-134 | the compiled code of an expression, wherever it sits in the buffer, runs through its instructions and leaves one more operand, the expression's value |
| Correctness.CompiledExpression | compiler.c:111-134 | the compiled code followed by HALT, run from instruction 0, ends with the call stack unchanged and the old operand stack plus the expression's value, and halts at the next step |

## Left out

- Printing is not modelled: `token_type_str`, `print_token`, `print_expression`, `print_statement`, `inst_type_to_str`, the debug `printf`s, the trace of `vm_test` and the "Tagged" and "Declaration" lines of the resolver. These are output only.
- The exact `fatal` message text of `fatal_expected` is not modelled. The Dafny message is the fixed prefix "Expected token", because the token names come from `token_type_str`.
- The statement parser (`parse_let`, `parse_while`, `parse_if`, `parse_statement`) and file loading are not part of this model. The parser is modelled from `parse_atom` to `parse_expression`.
- `parse_expr_1`, `parse_expr_2` and `parse_expr_3` are one method, `Parser.ParseLevel`. A level number 1–3 selects the operator set, which is what the three C functions differ in.
- `parse_atom` has a case the C code does not handle: a token that cannot start an atom returns an uninitialised value. The model reports it as the error `MSG_NO_ATOM`.
- The syntax tree is a value. The C code tags name nodes in place, through shared references. Here `tag_names` and `read_declarations` return the retagged tree, so aliasing between nodes is not modelled.
- `parse_atom` (parser.c:142-146) never sets the `decl_pos` of a new name node, and `malloc` leaves it uninitialised. The model starts every name at slot -1, for "no declaration". This value is the model's own choice.
- Resolver.TagNames, Resolver.TagStatement, Resolver.TagIf (`WellScoped`) and Resolver.ReadDeclarations, Resolver.ReadIf, Resolver.ReadScope, Resolver.ReadFunctionDecls, Resolver.PrepareFunction (`DeclsScoped`): require every statement they walk to be shaped as the `STMT_SCOPE` assert of compiler.c:225 demands. The C program aborts otherwise, and the model does not simulate that abort.
- Undefined behaviour becomes a precondition:
  - non-ASCII or NUL characters in the source;
  - digit runs beyond `int`;
  - signed overflow and division by zero in the VM;
  - stack overflow past 1024 slots;
  - running past the last instruction;
  - consuming the end token (type 0) with `match_token` or `expect_token`;
  - capacities beyond `int` in `stb_arr.h`;
  - a hash map of size 0, where `key % map->size` (map.c:15) divides by zero, so `Hash`, `Insert` and `Index` require `size > 0`;
  - an OP instruction with fewer operands on the stack than its operator pops, which `OperatorStep` makes undefined (vm.c:3-10 pop without a check);
  - `stb_arr_addn` of zero elements on a NULL array, where `stb_arr__grow` writes through the NULL header (stb_arr.h:116-122), so `AddN` requires `n > 0` there.
- Lexer.Lexer.MatchToken: requires that a match is not on the end token. Advancing past the terminator reads beyond the C string.
- The header vm.h lists an older instruction set (`INST_PUSH_OP`, `INST_PUSH_CALL`) that does not match vm.c. The model follows vm.c and its instruction names.
- The joint correctness theorem (`Correctness.CompiledExpression`) covers trees of literals, NEG and binary operators only. Names, calls and index expressions are left out, because their code depends on the rest of the function or does not compile. LNEG is left out because it has no table entry. Trees where some node overflows s64 or divides by zero are left out, and so is code that needs more than 1024 operand slots.
- The VM's LNEG entry of the operator table is NULL. Executing it is undefined, so the model leaves it undefined.
- The `EMIT` and `EMIT_ARG` macros are not part of this model. The placeholder jump they emit is taken to have target 0, its zero-initialised argument.
- `stb_arr.h`:
  - the allocator context and `stb_arr_malloc_parent` are left out;
  - `stb_arr_copy` and `stb_arr_free` are left out;
  - the debug signature check is left out;
  - a failed `realloc`, which the header ignores, is not modelled: allocation always succeeds;
  - the early return of `stb__arrsize_` for a zero element size is left out, because a Dafny array never has elements of size zero.
- StbArr.Arr.InsertN: the memmove is modelled by a top-down element copy. The result is the same, but the byte-level copy order is not modelled.
- The usage comment of `stb_arr.h` asserts `my_array[1] == 2.0f` right after the three pushes (stb_arr.h:14-18). At that point the elements are 0.0f, 1.0f and 2.0f, so element 1 is 1.0f (`StbArr.UsageExample` proves that the elements are `[0, 1, 2]` there): the comment is wrong and the code is right.
- HashMap.Map.constructor: requires `size <= INT_MAX`, and `Valid()` keeps that bound. Slot positions in map.c are C `int` (map.c:20, 34, 49), so a map with more slots than `INT_MAX` is outside the model. The only map the source builds, `make_map(512)` in `map_test`, is within it.
- HashMap.Map.Insert: where the C `assert` in the probe loop would abort on a full table, the model returns `ok == false` and leaves the map unchanged.
- `map_index` compares `counter++ >= size`, so on a full table it can revisit the home slot once. This costs one probe but changes no result, and the model follows the C loop.
- The intern table's memory (`malloc`, address identity) is modelled by entry indices. Two interned strings have the same address exactly when their indices are equal.
- `main.c`, `error.c` and the declarations in the headers are not part of this model, beyond the types they define.
