# libAliasToken in Dafny

libAliasToken turns the operands of LLVM IR instructions into canonical
*alias tokens*, the abstract memory locations of a points-to analysis. An
`Alias` token has four kinds:

- a value (kind 0);
- a heap object named by its type (kind 1);
- a function argument (kind 2);
- a synthetic named location (kind 3).

Each token also carries a scope function, a global flag and a field index
for one field of a structure.

`AliasTokens` is the store. It interns tokens under a canonical hash
string, so every request whose candidate has the same hash returns the
same token object. Its extraction rules map one instruction to the ordered list of
tokens for its operands, interning each one as they go.

The Dafny model has four modules:

- `IR` (ir.dfy) holds the IR as opaque handles.
  - A handle's `id` stands for its address.
  - A handle carries the attributes the library asks of it: its name, its
    owning function, and whether it is an argument, an instruction, a
    global variable or an integer constant (and if so, whether it is one),
    and for an instruction, whether it is an `alloca`. The rules demand
    that an `alloca` instruction's handle says so.
  - A basic block is a sequence of instructions.
  - `getPrevNonDebugInstruction` and `getNextNonDebugInstruction` are
    searches over that sequence.
- `Strings` (strings.dfy) holds the two pieces of the C++ library the hash
  and the order need:
  - `std::string`'s `operator<`;
  - `std::to_string` on an `int`, with its decoding partner.
- `Aliases` (alias.dfy) holds the token of lib/Alias.cpp.
  - The token is a record that keeps all four payload fields side by side,
    as the C++ class does, because `operator==` and `operator<` read the
    other token's field of the receiver's kind.
  - The `set` overloads, the constructors, `operator=` and the copy
    constructor are functions that return the updated record.
  - `setIndex` is a method whose loop is proved against the fold
    `IndexFold`.
- `Tokens` (alias_tokens.dfy) holds the store of lib/AliasToken.cpp.
  - The store is the class `AliasTokens` over a `map<string, Alias>`.
  - Its invariant `Valid()` says every key is the hash of the token filed
    under it.
  - Each mutating method is tied to a specification function of the store
    before the call: `Intern` for get-or-create, and `StoreRule`,
    `LoadRule`, `AllocaRule`, `ReturnRule`, `BitcastRule` and
    `ExtractRule` for the extraction rules.

A token is a value in the model, while the C++ store hands out `Alias*`
pointers. "The same token object" therefore becomes "the token filed under
that key", and a token is never changed after it is filed. The library
does the same, since callers treat returned tokens as read-only.

Three points about the code shape the model:

- The comment on `getHash` (lib/AliasToken.cpp:5-6) presents the hash as
  what keeps one alias from being filed twice. But the hash does not
  separate exactly the tokens that `operator==` separates:
  - it keys on a value's name, not its identity
    (`Tokens.HashIgnoresHandleIdentity`);
  - it reads the global flag, which `operator==` ignores
    (`Tokens.CopyChangesHash` together with `Aliases.Copy`).
- The C++ standard library requires a comparator used by `std::set` or
  `std::map` to be a strict weak ordering. `operator<` is the conjunction of
  three comparisons (two for type tokens, which skip the scope). Within one kind it is a strict order, but it is not a
  strict weak ordering (see Findings). `Aliases.LexLess` is the
  lexicographic order (payload, then scope, then field index) that is one.
- `getHash` calls `getFunctionName`, `getMemTypeName` and `getFieldIndex`,
  which none of the files modelled here declares or defines. The model
  reads them as the scope function's name (empty for type tokens and
  unscoped tokens), the type's printed text for type tokens (empty
  otherwise) and `Index`. It reads `isGlobalVar` as `IsGlobalVar`, which
  lib/Alias.cpp defines.

## Model

| member | source | states |
|---|---|---|
| IR.PrevNonDebug | lib/AliasToken.cpp:170 | The result is the nearest earlier position that is not a debug intrinsic, with only debug intrinsics in between. None means every earlier instruction is a debug intrinsic. |
| IR.NextNonDebug | lib/AliasToken.cpp:173 | The result is the nearest later position that is not a debug intrinsic, with only debug intrinsics in between. None means every later instruction is a debug intrinsic. |
| Strings.StrLess | lib/Alias.cpp:179 | The `std::string` order on synthetic names never relates a name to itself. |
| Strings.StrLessPrefix | lib/Alias.cpp:179 | A proper prefix is smaller than the longer name, and a name is never smaller than its own prefix. |
| Strings.StrLessTransitive | lib/Alias.cpp:179 | The `std::string` order used on synthetic names is transitive. |
| Strings.StrLessTotal | lib/Alias.cpp:179 | Any two different names are ordered one way or the other. |
| Strings.StartsWith | lib/AliasToken.cpp:172-187 | A name that starts with a mangling prefix is that prefix followed by the rest of the name. |
| Strings.IntToString | lib/AliasToken.cpp:13 | The text of the field index is non-empty and starts with a minus sign exactly for a negative index. |
| Strings.NatToDecimal | lib/AliasToken.cpp:13 | The decimal text of an index is non-empty and made of digits only. |
| Strings.DecimalRoundTrip | lib/AliasToken.cpp:13 | Reading the decimal text back gives the number. |
| Strings.IntToStringInjective | lib/AliasToken.cpp:13 | Different indices print differently. |
| Aliases.SetValue | lib/Alias.cpp:5-12 | Writes the value, kind, index, function and global flag, and leaves every other field as the receiver had it. |
| Aliases.SetType | lib/Alias.cpp:14-18 | Writes only the type, kind and index. The function and the global flag stay as they were. |
| Aliases.SetArgument | lib/Alias.cpp:20-26 | Writes the argument, kind, index and function. The global flag stays as it was. |
| Aliases.SetName | lib/Alias.cpp:28-35 | Writes the name, kind, index and function. It sets the global flag when the function is null and otherwise leaves the flag alone. |
| Aliases.FromValue | lib/Alias.cpp:37-49 | An argument becomes the argument token. Any other value becomes a kind-0 token scoped to the function that defines it. That token is global exactly when the value is not an argument or an instruction, and it is a seed point exactly when the value is not an instruction. Its name is the value's name. |
| Aliases.FromArgument | lib/Alias.cpp:51-53 | Kind 2, scoped to the argument's function, not global, named after the argument. |
| Aliases.FromType | lib/Alias.cpp:55 | Kind 1 with the given type and index, no name and no value. A seed point that is neither an argument nor a global value. |
| Aliases.Named | lib/Alias.cpp:57-59 | Kind 3 with the given name, function and index. It is marked global when the function is null, and it is never a seed point. |
| Aliases.Copy | lib/Alias.cpp:61-72 | The copy as written keeps the kind, index, name and value, and is `operator==` to the original in both directions, but it is never a global value token. |
| Aliases.CopyKeepingGlobal | lib/Alias.cpp:61-72 | The corrected copy also keeps the global flag, the seed-point status and the scope function. |
| Aliases.CopyKeepingGlobalOfConstructed | lib/Alias.cpp:61-72 | The corrected copy reproduces every token the value, type and named constructors build. |
| Aliases.Assign | lib/Alias.cpp:202-213 | The target takes the source's kind, index, name and value and is `operator==` to it. A type source leaves the target's function and flag as they were, and the target is never a global value token. |
| Aliases.AssignKeepingGlobal | lib/Alias.cpp:202-213 | The corrected assignment also carries the global flag and the scope function. |
| Aliases.GetValue | lib/Alias.cpp:103-108 | A value comes back only from a kind-0 token, and it is that token's payload. |
| Aliases.GetName | lib/Alias.cpp:136-145 | The name of the value, argument or synthetic name for kinds 0, 2 and 3, and "" for a type token. |
| Aliases.IsMem | lib/Alias.cpp:148 | A heap location has neither a name nor a value. |
| Aliases.IsGlobalVar | lib/Alias.cpp:151 | A global value token is not a heap location, and its value is its payload. |
| Aliases.IsArg | lib/Alias.cpp:154 | An argument token is neither a heap location nor a global value, and has no value. |
| Aliases.IsAllocaOrArgOrGlobal | lib/Alias.cpp:156-160 | The tokens outside it are exactly the named ones and the non-global value tokens. So the token of an alloca, a local value token, is outside it, contrary to the comment (see Findings). |
| Aliases.SameFunc | lib/Alias.cpp:163-166 | Holds exactly when the token has a scope function and it is the given one. It is false for a token without one. |
| Aliases.SameFuncOfConstructed | lib/Alias.cpp:163-166 | `sameFunc` holds for an argument or instruction token exactly at its own function, never for a global value, and for a named token exactly at the function it was given. |
| Aliases.AllocaTokenNotSeed | lib/Alias.cpp:156-160 | As written, the token of an alloca is not a seed point. |
| Aliases.SeedPointOfConstructed | lib/Alias.cpp:156-160 | With stack slots counted in, as the comment says, a value's token is a seed point exactly when the value is not an instruction or is an alloca, and every type token is one. |
| Aliases.IndexFold | lib/Alias.cpp:78-86 | The fold of the constant indices is never negative. |
| Aliases.IndexFoldSkipsNonConstants | lib/Alias.cpp:82-83 | Non-constant GEP indices do not affect the field index. |
| Aliases.IndexFoldBounds | lib/Alias.cpp:75-87 | The field index is at least 0 and below 2 to the number of constant indices. |
| Aliases.IndexFoldDecodes | lib/Alias.cpp:75-87 | The field index's binary digits are, in order, whether each constant index is one. So it is a binary encoding of the access path. |
| Aliases.IndexFoldExamples | lib/Alias.cpp:75-87 | An empty path gives 0. [0, 1, 1] gives 3, with or without non-constant indices in between. |
| Aliases.SetIndex | lib/Alias.cpp:75-100 | The loop over the GEP indices stores the fold as the field index, changes nothing else, and the stored index is in range. |
| Aliases.Equal | lib/Alias.cpp:185-200 | Equal tokens have the same index, the same scope function unless the receiver is a type token, and, when their kinds agree, the same name and value. |
| Aliases.Less | lib/Alias.cpp:168-183 | A smaller token has a smaller index and, unless the receiver is a type token, a smaller scope function; it is never `operator==`. |
| Aliases.EqualProperties | lib/Alias.cpp:185-200 | Within one kind, `operator==` is reflexive, symmetric and transitive. It ignores the global flag, and for type tokens it also ignores the function. |
| Aliases.EqualValueTokens | lib/Alias.cpp:185-200 | Two tokens built from values are equal exactly when they come from the same handle with the same index. For an argument against a non-argument, see Left out. |
| Aliases.LessStrictOrder | lib/Alias.cpp:168-183 | Within one kind, `operator<` is irreflexive, asymmetric and transitive, and never orders tokens that are `operator==`. |
| Aliases.LessUnorderedNotTransitive | lib/Alias.cpp:168-183 | Three type tokens where a, b are unordered and b, c are unordered, yet a < c. |
| Aliases.LexLessStrictWeakOrder | lib/Alias.cpp:168-183 | The lexicographic order is irreflexive and transitive. "Neither smaller" means "same key", which is transitive, and equal tokens share a key. |
| Tokens.FunctionName | lib/AliasToken.cpp:11 | The scope function's name, or "" for a type token or a token without a function. |
| Tokens.MemTypeName | lib/AliasToken.cpp:12 | The printed type of a type token, or "" for any other token. |
| Tokens.Hash | lib/AliasToken.cpp:7-15 | The hash is never empty, and it starts with "G" for a global value token. |
| Tokens.HashSeparatesIndex | lib/AliasToken.cpp:7-15 | Tokens that differ only in field index hash alike exactly when the indices are equal. |
| Tokens.HashIgnoresHandleIdentity | lib/AliasToken.cpp:7-15 | Distinct values of the same name and category hash alike, although their tokens are not `operator==`. |
| Tokens.CopyChangesHash | lib/Alias.cpp:61-72 | The copy as written keeps the hash exactly when the token is not a global value token. |
| Tokens.CopyKeepingGlobalKeepsHash | lib/Alias.cpp:61-72 | The corrected copy always keeps the hash. |
| Tokens.AssignChangesHash | lib/Alias.cpp:202-213 | After the assignment as written, the target hashes like the source exactly when the source is not a global value token. |
| Tokens.AssignKeepingGlobalKeepsHash | lib/Alias.cpp:202-213 | After the corrected assignment, the target always hashes like the source. |
| Tokens.EntriesHaveDistinctHashes | lib/AliasToken.cpp:25-34 | In a hash-keyed store, different entries hold tokens of different hashes. |
| Tokens.Intern | lib/AliasToken.cpp:74-78 | The returned token is the store's entry under the candidate's hash, and that key is present afterwards. The store gains that key and nothing else. No existing entry changes, and the store grows by at most one. A cached key leaves the store unchanged. A new key files the candidate itself. The store stays hash-keyed. |
| Tokens.InternIdempotent | lib/AliasToken.cpp:74-78 | A second request for a candidate of the same hash returns the same token and store. |
| Tokens.StoreRule | lib/AliasToken.cpp:118-127 | One token for a constant stored value, else two. The last token is the pointer's entry, and the first is the value's entry when the value is not constant. Entries are kept, the only new keys are the pointer's hash and, for a non-constant value, the value's hash, and a key new to the store holds that candidate itself. The store stays hash-keyed. |
| Tokens.LoadRule | lib/AliasToken.cpp:131-138 | Two tokens: the loaded result's entry, then the pointer's entry. Entries are kept, the only new keys are those two hashes, and a key new to the store holds that candidate itself. The store stays hash-keyed. |
| Tokens.AllocaRule | lib/AliasToken.cpp:142-151 | Two tokens: the slot's entry (the slot itself when it is new), then the entry of the named location "<slot token's name>-orig" scoped to the slot's function. Entries are kept, and the only new keys are the slot's hash and that named location's hash. A key new to the store holds that candidate itself. |
| Tokens.ReturnRule | lib/AliasToken.cpp:155-161 | One token: the returned value's entry. Entries are kept, and the only new key is that value's hash. When that key is new, it holds the value's own token. |
| Tokens.BitcastSecond | lib/AliasToken.cpp:170-194 | The two allocation patterns exclude each other. The second candidate is the destination type after new, cast, constructor; the source type after new, cast, constructor, cast; and the operand otherwise. |
| Tokens.BitcastRule | lib/AliasToken.cpp:165-199 | Two tokens: the cast's entry, then the entry of the second candidate. Entries are kept, and the only new keys are those two hashes. A key new to the store holds that candidate itself. |
| Tokens.ExtractRule | lib/AliasToken.cpp:95-114 | The number of tokens is the instruction kind's arity. Entries are kept, the store grows by at most that many, and it stays hash-keyed. |
| Tokens.UnsupportedLeavesStore | lib/AliasToken.cpp:107-113 | Any other instruction yields no tokens and leaves the store unchanged. |
| Tokens.AliasTokens.constructor | include/AliasToken.h:16-18 | A new store is empty and valid. |
| Tokens.AliasTokens.IsCached | lib/AliasToken.cpp:18-21 | In a valid store, a candidate is cached exactly when some entry's token has its hash. |
| Tokens.AliasTokens.Insert | lib/AliasToken.cpp:25-34 | Returns true exactly when the hash is new, and then adds exactly that key mapped to the candidate. Otherwise the store is unchanged. The invariant is kept. |
| Tokens.AliasTokens.GetToken | lib/AliasToken.cpp:74-78 | Performs `Intern` on the store: it returns the entry under the candidate's hash. A cached key leaves the store unchanged and returns the old entry. |
| Tokens.AliasTokens.GetValueToken | lib/AliasToken.cpp:38-43 | Performs `Intern` with the value's token as the candidate. |
| Tokens.AliasTokens.GetArgumentToken | lib/AliasToken.cpp:47-52 | Performs `Intern` with the argument's token as the candidate. |
| Tokens.AliasTokens.GetTypeToken | lib/AliasToken.cpp:56-61 | Performs `Intern` with the type's token as the candidate. |
| Tokens.AliasTokens.GetInstructionToken | lib/AliasToken.cpp:65-70 | Performs `Intern` with the instruction's token as the candidate. |
| Tokens.AliasTokens.GetNamedToken | lib/AliasToken.cpp:86-91 | Performs `Intern` with the named token as the candidate. |
| Tokens.AliasTokens.ExtractStore | lib/AliasToken.cpp:118-127 | Returns the tokens and new store of `StoreRule`: one token when the stored value is an integer constant, else two, as the test pass at test/pass.cpp:25-32 asserts. |
| Tokens.AliasTokens.ExtractLoad | lib/AliasToken.cpp:131-138 | Returns the tokens and new store of `LoadRule`, two tokens. |
| Tokens.AliasTokens.ExtractAlloca | lib/AliasToken.cpp:142-151 | Returns the tokens and new store of `AllocaRule`, two tokens. |
| Tokens.AliasTokens.ExtractReturn | lib/AliasToken.cpp:155-161 | Returns the tokens and new store of `ReturnRule`, one token. |
| Tokens.AliasTokens.ExtractBitcast | lib/AliasToken.cpp:165-199 | The nested pattern tests and the one-token fallback give the tokens and new store of `BitcastRule`, two tokens. |
| Tokens.AliasTokens.Extract | lib/AliasToken.cpp:95-114 | The dispatcher gives the tokens and new store of `ExtractRule`. |
| Tokens.RequestTwice | lib/AliasToken.cpp:38-91 | Two requests with candidates of the same hash return the same token. The store keeps every entry, grows by at most one and stays valid. |

## Left out

- Rendering: `print` writes to the error stream (lib/Alias.cpp:110-132). The "Unsupported Instruction" message of the dispatcher is output too. Both are I/O.
- Memory management: the `delete` of a duplicate candidate and the destructor's loop. A discarded candidate is simply not stored.
- LLVM itself is not part of this model. Values, types, functions and instructions are opaque handles with the attributes listed above. Detached arguments and instructions (those without a parent function) are not modelled.
- Tokens.AliasTokens.ExtractReturn: requires a returned value that is not an integer constant. For `ret void` or a constant, the C++ falls off the end of a function returning a vector, and `isa` on a null value is invalid. Neither has a defined result.
- Tokens.AliasTokens.ExtractBitcast: requires the neighbours it dereferences to exist and the calls among them to have a known callee (`BitcastDefined`). The C++ dereferences them unchecked.
- Tokens.AliasTokens.GetArgumentToken: does not promise an argument token back. When an earlier token of another kind already has the same hash, the C++ returns that token, and so does the model. `GetInstructionToken` is the same.
- Tokens.Hash: is not injective and does not agree with `operator==`. Names can collide when concatenated, and the flag and scope are read differently. The model states these gaps and proves nothing stronger.
- Aliases.SetIndex: does not model the overflow of `int a`. The fold is exact in the model, while from the 32nd constant index on `a * 2` can overflow in the C++, which is undefined behaviour for a signed `int`.
- Aliases.LessStrictOrder: is stated only for tokens of one kind. Across kinds, the receiver's payload field is compared against an unrelated field.
- Uninitialised fields start as None and false in the model. They are the payload pointers the chosen `set` never writes (`Ty` and `Arg` of a value token, `Val` and `Ty` of an argument token, `Val` and `Arg` of a type token, and all three of a named token), `Func` and `IsGlobal` of a type token, `IsGlobal` of an argument token, and `IsGlobal` of a named token built with a function. In the C++ they are indeterminate. No contract states their value except `Aliases.EqualValueTokens` and `Aliases.CopyKeepingGlobalOfConstructed`, listed below.
- Aliases.EqualValueTokens: its "only if" for an argument against a non-argument rests on the placeholders. `operator==` reads the other token's payload field of the receiver's kind (lib/Alias.cpp:187-194), and a token of the other kind never writes that field (lib/Alias.cpp:5-12, 20-26, 41-47). So in the C++ that comparison reads an indeterminate pointer and has no defined result. Between two arguments or two non-arguments, the lemma rests on written fields only.
- Aliases.FromType: says nothing of the scope function. A type token's `Func` is never written, so `sameFunc` on a type token reads an indeterminate pointer and the model states no result for it.
- Aliases.Named: states the global flag only for a null function. Otherwise the C++ leaves the flag unwritten.
- Aliases.CopyKeepingGlobalOfConstructed: equality of the whole record includes the placeholder fields. In the C++, those fields of the copy are as indeterminate as the original's.
- The `set` overloads, `operator=` and the copy constructor update an object in place. The model gives them the updated token as a value, because a token has no identity beyond its fields once it is filed.

## Findings

| source | as written | input that shows it | evidently intended | confidence | as-written member | corrected member |
|---|---|---|---|---|---|---|
| lib/Alias.cpp:64 | The copy constructor copies a value token with the `set` overload whose global flag defaults to false. | A token for a global variable `g` hashes as "Gg-1", and its copy hashes as "g-1". | Pass `A->IsGlobal` on, so the copy stays global and hashes alike. | medium; not executed | Tokens.CopyChangesHash | Tokens.CopyKeepingGlobalKeepsHash |
| lib/Alias.cpp:205 | `operator=` assigns a value token the same way and clears the global flag. | Assigning the token of a global variable `g` gives a target hashing as "g-1", not "Gg-1". | Pass `TheAlias.IsGlobal` on. | medium; not executed | Tokens.AssignChangesHash | Tokens.AssignKeepingGlobalKeepsHash |
| lib/Alias.cpp:156-160 | `isAllocaOrArgOrGlobal` is `isMem` or `IsGlobalVar` or `isArg`, although its name and comment count allocas in. | `%x = alloca i32` in a function gives a kind-0 local token, for which the predicate is false. | Also hold for the token of an alloca. | low; not executed | Aliases.AllocaTokenNotSeed | Aliases.SeedPointOfConstructed |
| lib/Alias.cpp:168-183 | `operator<` is the conjunction of payload-less, scope-less and index-less, so "neither is smaller" is not transitive. | Type tokens with type ids 1 < 2 < 3: (1, index 0) and (3, 0) are unordered, (3, 0) and (2, 1) are unordered, but (1, 0) < (2, 1). | Lexicographic: payload, then scope, then index, a strict weak ordering as sorted containers need. | medium; not executed | Aliases.LessUnorderedNotTransitive | Aliases.LexLessStrictWeakOrder |
