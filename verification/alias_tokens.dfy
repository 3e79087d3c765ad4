/** The interning store of lib/AliasToken.cpp.

    `AliasTokens` owns a map from a canonical hash string to a token.
    Every get-or-create call builds a candidate token, files it under its
    hash when that key is new, and otherwise returns the token already filed
    there. The extraction rules turn one instruction into the ordered list
    of tokens for its operands, interning each on the way. */
module Tokens {
  import opened IR
  import opened Strings
  import opened Aliases

  // ---------------------------------------------------------------------
  // The canonical hash
  // ---------------------------------------------------------------------

  /** getFunctionName: the name of the token's scope function; "" when it
      has none, and for type tokens, which belong to no function. */
  function FunctionName(a: Alias): (s: string)
    ensures IsMem(a) || a.func.None? ==> s == ""
    ensures !IsMem(a) && a.func.Some? ==> s == a.func.value.name
  {
    if a.kind != TypeKind && a.func.Some? then a.func.value.name else ""
  }

  /** getMemTypeName: the printed type of a type token, "" for the others. */
  function MemTypeName(a: Alias): (s: string)
    ensures !IsMem(a) || a.ty.None? ==> s == ""
    ensures IsMem(a) && a.ty.Some? ==> s == a.ty.value.text
  {
    if a.kind == TypeKind && a.ty.Some? then a.ty.value.text else ""
  }

  /** The text the hash starts with, before the field index. */
  function HashStem(a: Alias): string
  {
    (if IsGlobalVar(a) then "G" else "") + GetName(a) + FunctionName(a) + MemTypeName(a)
  }

  /** getHash: "G" for a global value, the name, the scope function's name,
      the type name, then the decimal field index. */
  function Hash(a: Alias): (h: string)
    ensures |h| > 0
    ensures IsGlobalVar(a) ==> h[0] == 'G'
  {
    HashStem(a) + IntToString(a.index)
  }

  /** Tokens that differ only in their field index hash alike exactly when
      the indices are the same: distinct fields of one object get distinct
      entries. */
  lemma HashSeparatesIndex(a: Alias, b: Alias)
    requires b == a.(index := b.index)
    ensures Hash(a) == Hash(b) <==> a.index == b.index
  {
    if Hash(a) == Hash(b) {
      var stem := HashStem(a);
      assert HashStem(b) == stem;
      assert Hash(a)[|stem|..] == IntToString(a.index);
      assert Hash(b)[|stem|..] == IntToString(b.index);
      IntToStringInjective(a.index, b.index);
    }
  }

  /** The hash sees a value's name, not its identity: two different values
      of the same kind, name and function get the same entry, although
      operator== tells their tokens apart. */
  lemma HashIgnoresHandleIdentity(v: Value, w: Value, i: int)
    requires v.name == w.name && v.category == w.category && v != w
    ensures Hash(FromValue(v, i)) == Hash(FromValue(w, i))
    ensures !Equal(FromValue(v, i), FromValue(w, i))
  {
    EqualValueTokens(v, w, i, i);
  }

  /** The copy constructor as written changes the hash of exactly the global
      value tokens: their copy loses the leading "G". */
  lemma CopyChangesHash(a: Alias)
    ensures Hash(Copy(a)) == Hash(a) <==> !IsGlobalVar(a)
  {
    if IsGlobalVar(a) {
      assert |Hash(Copy(a))| + 1 == |Hash(a)|;
    }
  }

  /** The copy constructor with the flag passed on keeps every hash. */
  lemma CopyKeepingGlobalKeepsHash(a: Alias)
    ensures Hash(CopyKeepingGlobal(a)) == Hash(a)
  {
  }

  /** operator= as written: the target's hash differs from the source's
      exactly when the source is a global value token. */
  lemma AssignChangesHash(self: Alias, other: Alias)
    ensures Hash(Assign(self, other)) == Hash(other) <==> !IsGlobalVar(other)
  {
    if IsGlobalVar(other) {
      assert |Hash(Assign(self, other))| + 1 == |Hash(other)|;
    }
  }

  /** operator= with the flag passed on: the target hashes as the source. */
  lemma AssignKeepingGlobalKeepsHash(self: Alias, other: Alias)
    ensures Hash(AssignKeepingGlobal(self, other)) == Hash(other)
  {
  }

  // ---------------------------------------------------------------------
  // The store, as a value
  // ---------------------------------------------------------------------

  type Bank = map<string, Alias>

  /** The store invariant: every token is filed under its own hash. */
  predicate HashKeyed(m: Bank)
  {
    forall k :: k in m ==> k == Hash(m[k])
  }

  /** `m'` keeps every entry of `m` unchanged. */
  predicate Extends(m: Bank, m': Bank)
  {
    forall k :: k in m ==> k in m' && m'[k] == m[k]
  }

  /** In a hash-keyed store, different entries hold tokens of different hashes. */
  lemma EntriesHaveDistinctHashes(m: Bank, k1: string, k2: string)
    requires HashKeyed(m) && k1 in m && k2 in m && k1 != k2
    ensures Hash(m[k1]) != Hash(m[k2])
  {
  }

  /** The token a get-or-create call returns, and the store after it. */
  datatype Interned = Interned(token: Alias, bank: Bank)

  /** One get-or-create step on candidate `a`. */
  function Intern(m: Bank, a: Alias): (r: Interned)
    ensures Hash(a) in r.bank && r.token == r.bank[Hash(a)]
    ensures Extends(m, r.bank) && r.bank.Keys == m.Keys + {Hash(a)}
    ensures Hash(a) in m ==> r.bank == m
    ensures Hash(a) !in m ==> r.token == a && |r.bank| == |m| + 1
    ensures |r.bank| <= |m| + 1
    ensures HashKeyed(m) ==> HashKeyed(r.bank) && Hash(r.token) == Hash(a)
  {
    var h := Hash(a);
    if h in m then Interned(m[h], m) else Interned(a, m[h := a])
  }

  /** A second request for a candidate of the same hash returns the same
      token and leaves the store as it was. */
  lemma InternIdempotent(m: Bank, a: Alias, b: Alias)
    requires Hash(a) == Hash(b)
    ensures Intern(Intern(m, a).bank, b) == Intern(m, a)
  {
  }

  /** The ordered tokens an extraction rule returns, and the store after it. */
  datatype Extraction = Extraction(tokens: seq<Alias>, bank: Bank)

  /** Interning one candidate, as a rule's result. */
  function InternOne(m: Bank, a: Alias): (r: Extraction)
    ensures |r.tokens| == 1
    ensures Hash(a) in r.bank && r.tokens[0] == r.bank[Hash(a)]
    ensures Hash(a) !in m ==> r.tokens[0] == a
    ensures Extends(m, r.bank) && |r.bank| <= |m| + 1
    ensures r.bank.Keys == m.Keys + {Hash(a)}
    ensures HashKeyed(m) ==> HashKeyed(r.bank)
  {
    var i := Intern(m, a);
    Extraction([i.token], i.bank)
  }

  /** Two get-or-create steps add exactly the two candidates' hashes. */
  lemma InternTwiceKeys(m: Bank, a: Alias, b: Alias)
    ensures Intern(Intern(m, a).bank, b).bank.Keys == m.Keys + {Hash(a), Hash(b)}
  {
    var i := Intern(m, a);
    assert i.bank.Keys == m.Keys + {Hash(a)};
  }

  /** Interning two candidates, first `a` then `b`, as a rule's result. Each
      returned token is the final store's entry for its candidate's hash,
      and a hash new to the store holds that candidate itself. */
  function InternPair(m: Bank, a: Alias, b: Alias): (r: Extraction)
    ensures |r.tokens| == 2
    ensures Hash(a) in r.bank && r.tokens[0] == r.bank[Hash(a)]
    ensures Hash(b) in r.bank && r.tokens[1] == r.bank[Hash(b)]
    ensures Hash(a) !in m ==> r.tokens[0] == a
    ensures Hash(b) !in m && Hash(b) != Hash(a) ==> r.tokens[1] == b
    ensures Extends(m, r.bank) && |r.bank| <= |m| + 2
    ensures r.bank.Keys == m.Keys + {Hash(a), Hash(b)}
    ensures HashKeyed(m) ==> HashKeyed(r.bank)
  {
    var i := Intern(m, a);
    var j := Intern(i.bank, b);
    InternTwiceKeys(m, a, b);
    Extraction([i.token, j.token], j.bank)
  }

  // ---------------------------------------------------------------------
  // Extraction rules, as functions of the store before the call
  // ---------------------------------------------------------------------

  /** Store: the stored value's token unless it is an integer constant,
      then the pointer's token. */
  function StoreRule(m: Bank, inst: Instruction): (r: Extraction)
    requires inst.op.Store?
    ensures var v, p := inst.op.valueOperand, FromValue(inst.op.pointerOperand, WholeObject);
      && |r.tokens| == (if v.IsConstantInt() then 1 else 2)
      && Hash(p) in r.bank && r.tokens[|r.tokens| - 1] == r.bank[Hash(p)]
      && (!v.IsConstantInt() ==>
            Hash(FromValue(v, WholeObject)) in r.bank
            && r.tokens[0] == r.bank[Hash(FromValue(v, WholeObject))])
    ensures var v, p := inst.op.valueOperand, FromValue(inst.op.pointerOperand, WholeObject);
      && (!v.IsConstantInt() && Hash(FromValue(v, WholeObject)) !in m ==>
            r.tokens[0] == FromValue(v, WholeObject))
      && (Hash(p) !in m && (v.IsConstantInt() || Hash(p) != Hash(FromValue(v, WholeObject))) ==>
            r.tokens[|r.tokens| - 1] == p)
    ensures Extends(m, r.bank) && |r.bank| <= |m| + |r.tokens|
    ensures var v, p := inst.op.valueOperand, FromValue(inst.op.pointerOperand, WholeObject);
      && (v.IsConstantInt() ==> r.bank.Keys == m.Keys + {Hash(p)})
      && (!v.IsConstantInt() ==> r.bank.Keys == m.Keys + {Hash(FromValue(v, WholeObject)), Hash(p)})
    ensures HashKeyed(m) ==> HashKeyed(r.bank)
  {
    var v, p := inst.op.valueOperand, FromValue(inst.op.pointerOperand, WholeObject);
    if v.IsConstantInt() then InternOne(m, p) else InternPair(m, FromValue(v, WholeObject), p)
  }

  /** Load: the loaded result's token, then the pointer's token. */
  function LoadRule(m: Bank, inst: Instruction): (r: Extraction)
    requires inst.op.Load?
    ensures var self, p := FromValue(inst.handle, WholeObject),
                           FromValue(inst.op.pointerOperand, WholeObject);
      && |r.tokens| == 2
      && Hash(self) in r.bank && r.tokens[0] == r.bank[Hash(self)]
      && Hash(p) in r.bank && r.tokens[1] == r.bank[Hash(p)]
      && (Hash(self) !in m ==> r.tokens[0] == self)
      && (Hash(p) !in m && Hash(p) != Hash(self) ==> r.tokens[1] == p)
      && r.bank.Keys == m.Keys + {Hash(self), Hash(p)}
    ensures Extends(m, r.bank) && |r.bank| <= |m| + 2
    ensures HashKeyed(m) ==> HashKeyed(r.bank)
  {
    InternPair(m, FromValue(inst.handle, WholeObject),
               FromValue(inst.op.pointerOperand, WholeObject))
  }

  /** The dummy location for what will first be stored into a stack slot:
      "<slot name>-orig", local to the slot's function. */
  function OrigName(slot: Alias, f: Function): Alias
  {
    Named(GetName(slot) + "-orig", Some(f), WholeObject)
  }

  /** Alloca: the slot's token, then the "-orig" token named after the slot
      token the store returned. */
  function AllocaRule(m: Bank, inst: Instruction): (r: Extraction)
    requires inst.op.Alloca? && inst.handle.IsAlloca()
    ensures var site := FromValue(inst.handle, WholeObject);
      && |r.tokens| == 2
      && Hash(site) in r.bank && r.tokens[0] == r.bank[Hash(site)]
      && (Hash(site) !in m ==> r.tokens[0] == site)
    ensures var orig := OrigName(r.tokens[0], inst.handle.category.owner);
      && orig.kind == NamedKind && orig.func == Some(inst.handle.category.owner)
      && Hash(orig) in r.bank && r.tokens[1] == r.bank[Hash(orig)]
    ensures var site, orig := FromValue(inst.handle, WholeObject),
                              OrigName(r.tokens[0], inst.handle.category.owner);
      && (Hash(orig) !in m && Hash(orig) != Hash(site) ==> r.tokens[1] == orig)
      && r.bank.Keys == m.Keys + {Hash(site), Hash(orig)}
    ensures Extends(m, r.bank) && |r.bank| <= |m| + 2
    ensures HashKeyed(m) ==> HashKeyed(r.bank)
  {
    var first := Intern(m, FromValue(inst.handle, WholeObject));
    var second := Intern(first.bank, OrigName(first.token, inst.handle.category.owner));
    InternTwiceKeys(m, FromValue(inst.handle, WholeObject),
                    OrigName(first.token, inst.handle.category.owner));
    Extraction([first.token, second.token], second.bank)
  }

  /** Return of a value that is not an integer constant: its token alone. */
  function ReturnRule(m: Bank, inst: Instruction): (r: Extraction)
    requires inst.op.Return? && inst.op.returnValue.Some?
    requires !inst.op.returnValue.value.IsConstantInt()
    ensures var v := FromValue(inst.op.returnValue.value, WholeObject);
      && |r.tokens| == 1 && Hash(v) in r.bank && r.tokens[0] == r.bank[Hash(v)]
      && (Hash(v) !in m ==> r.tokens[0] == v)
      && r.bank.Keys == m.Keys + {Hash(v)}
    ensures Extends(m, r.bank) && |r.bank| <= |m| + 1
    ensures HashKeyed(m) ==> HashKeyed(r.bank)
  {
    InternOne(m, FromValue(inst.op.returnValue.value, WholeObject))
  }

  // ---------------------------------------------------------------------
  // The bitcast rule's pattern matcher
  // ---------------------------------------------------------------------

  /** The previous non-debug instruction before position `j`, if `j` is one. */
  function Before(block: Block, j: Option<nat>): Option<nat>
  {
    if j.Some? && j.value < |block| then PrevNonDebug(block, j.value) else None
  }

  /** Position `j` holds a direct call whose callee's mangled name starts with `prefix`. */
  predicate CallsPrefixed(block: Block, j: Option<nat>, prefix: string)
  {
    j.Some? && j.value < |block| && block[j.value].op.Call? && block[j.value].op.callee.Some?
    && StartsWith(block[j.value].op.callee.value.name, prefix)
  }

  predicate IsBitCastAt(block: Block, j: Option<nat>)
  {
    j.Some? && j.value < |block| && block[j.value].op.BitCast?
  }

  /** Position `j` exists, and if it is a call its callee is known. */
  predicate CallResolved(block: Block, j: Option<nat>)
  {
    j.Some? && j.value < |block| && (block[j.value].op.Call? ==> block[j.value].op.callee.Some?)
  }

  /** The neighbours the bitcast rule dereferences exist, and the calls among
      them have a known callee: the rule reads them unchecked. */
  predicate BitcastDefined(block: Block, i: nat)
    requires i < |block|
  {
    var p := PrevNonDebug(block, i);
    CallResolved(block, p) &&
    (block[p.value].op.Call? ==>
      var name := block[p.value].op.callee.value.name;
      (StartsWith(name, "_Zn") ==> CallResolved(block, NextNonDebug(block, i))) &&
      (!StartsWith(name, "_Zn") && StartsWith(name, "_ZN") ==>
        var p2 := PrevNonDebug(block, p.value);
        p2.Some? &&
        (block[p2.value].op.BitCast? ==> CallResolved(block, PrevNonDebug(block, p2.value)))))
  }

  /** `call operator new` (mangled `_Zn...`), this cast, `call` of a nested
      name such as a constructor (mangled `_ZN...`): the cast's destination
      type names the new heap object. */
  predicate NewCastCtor(block: Block, i: nat)
    requires i < |block|
  {
    CallsPrefixed(block, PrevNonDebug(block, i), "_Zn") &&
    CallsPrefixed(block, NextNonDebug(block, i), "_ZN")
  }

  /** `call operator new`, a cast, a constructor call, this cast: the cast's
      source type names the heap object. */
  predicate NewCastCtorCast(block: Block, i: nat)
    requires i < |block|
  {
    var p1 := PrevNonDebug(block, i);
    var p2 := Before(block, p1);
    CallsPrefixed(block, p1, "_ZN") && IsBitCastAt(block, p2) &&
    CallsPrefixed(block, Before(block, p2), "_Zn")
  }

  /** The second token candidate of a bitcast, by the nested tests of the rule. */
  function BitcastSecond(block: Block, i: nat): (c: Alias)
    requires i < |block| && block[i].op.BitCast? && BitcastDefined(block, i)
    ensures !(NewCastCtor(block, i) && NewCastCtorCast(block, i))
    ensures NewCastCtor(block, i) ==> c == FromType(block[i].op.destTy, WholeObject)
    ensures NewCastCtorCast(block, i) ==> c == FromType(block[i].op.srcTy, WholeObject)
    ensures !NewCastCtor(block, i) && !NewCastCtorCast(block, i) ==>
              c == FromValue(block[i].op.operand, WholeObject)
  {
    var op := block[i].op;
    var fallback := FromValue(op.operand, WholeObject);
    var prev := PrevNonDebug(block, i).value;
    if block[prev].op.Call? then
      var name := block[prev].op.callee.value.name;
      if StartsWith(name, "_Zn") then
        var next := NextNonDebug(block, i).value;
        if block[next].op.Call? && StartsWith(block[next].op.callee.value.name, "_ZN") then
          FromType(op.destTy, WholeObject)
        else fallback
      else if StartsWith(name, "_ZN") then
        var p2 := PrevNonDebug(block, prev).value;
        if block[p2].op.BitCast? then
          var p3 := PrevNonDebug(block, p2).value;
          if block[p3].op.Call? && StartsWith(block[p3].op.callee.value.name, "_Zn") then
            FromType(op.srcTy, WholeObject)
          else fallback
        else fallback
      else fallback
    else fallback
  }

  /** Bitcast: the cast's token, then the heap object's type token when the
      allocation idiom surrounds the cast, else the operand's token. */
  function BitcastRule(m: Bank, block: Block, i: nat): (r: Extraction)
    requires i < |block| && block[i].op.BitCast? && BitcastDefined(block, i)
    ensures var self, second := FromValue(block[i].handle, WholeObject), BitcastSecond(block, i);
      && |r.tokens| == 2
      && Hash(self) in r.bank && r.tokens[0] == r.bank[Hash(self)]
      && Hash(second) in r.bank && r.tokens[1] == r.bank[Hash(second)]
      && (Hash(self) !in m ==> r.tokens[0] == self)
      && (Hash(second) !in m && Hash(second) != Hash(self) ==> r.tokens[1] == second)
      && r.bank.Keys == m.Keys + {Hash(self), Hash(second)}
    ensures Extends(m, r.bank) && |r.bank| <= |m| + 2
    ensures HashKeyed(m) ==> HashKeyed(r.bank)
  {
    InternPair(m, FromValue(block[i].handle, WholeObject), BitcastSecond(block, i))
  }

  // ---------------------------------------------------------------------
  // Dispatch
  // ---------------------------------------------------------------------

  /** The instruction kinds the dispatcher has no rule for. */
  predicate Unsupported(op: Op)
  {
    op.Call? || op.DebugIntrinsic? || op.Other?
  }

  /** What the rules demand of the instruction at `i`: a load and a
      bitcast are handled as instructions, an alloca's handle is an
      AllocaInst (its function is read), a return returns a value that is not an integer constant
      (otherwise the rule has no defined result), and a bitcast's
      neighbours exist. */
  predicate ExtractDefined(block: Block, i: nat)
    requires i < |block|
  {
    var op := block[i].op;
    (op.Load? || op.BitCast? ==> block[i].handle.IsInstruction()) &&
    (op.Alloca? ==> block[i].handle.IsAlloca()) &&
    (op.Return? ==> op.returnValue.Some? && !op.returnValue.value.IsConstantInt()) &&
    (op.BitCast? ==> BitcastDefined(block, i))
  }

  /** How many tokens an instruction yields: a store one or two, a load, an
      alloca and a bitcast two, a return one, any other instruction none. */
  function Arity(op: Op): nat
  {
    match op
    case Store(v, _) => if v.IsConstantInt() then 1 else 2
    case Load(_) => 2
    case Alloca => 2
    case BitCast(_, _, _) => 2
    case Return(_) => 1
    case _ => 0
  }

  /** extractAliasToken(Instruction*): one rule per supported kind; the
      others yield nothing and leave the store alone. */
  function ExtractRule(m: Bank, block: Block, i: nat): (r: Extraction)
    requires i < |block| && ExtractDefined(block, i)
    ensures |r.tokens| == Arity(block[i].op)
    ensures Extends(m, r.bank) && |r.bank| <= |m| + |r.tokens|
    ensures HashKeyed(m) ==> HashKeyed(r.bank)
  {
    var inst := block[i];
    match inst.op
    case Store(_, _) => StoreRule(m, inst)
    case Load(_) => LoadRule(m, inst)
    case Alloca => AllocaRule(m, inst)
    case BitCast(_, _, _) => BitcastRule(m, block, i)
    case Return(_) => ReturnRule(m, inst)
    case Call(_) => Extraction([], m)
    case DebugIntrinsic => Extraction([], m)
    case Other => Extraction([], m)
  }

  /** An instruction without a rule yields no tokens and leaves the store
      as it was. */
  lemma UnsupportedLeavesStore(m: Bank, block: Block, i: nat)
    requires i < |block| && Unsupported(block[i].op)
    ensures ExtractRule(m, block, i) == Extraction([], m)
  {
  }

  // ---------------------------------------------------------------------
  // The store object
  // ---------------------------------------------------------------------

  class AliasTokens {
    /** AliasBank */
    var bank: Bank

    ghost predicate Valid()
      reads this
    {
      HashKeyed(bank)
    }

    constructor ()
      ensures Valid() && bank == map[]
    {
      bank := map[];
    }

    /** isCached: in a valid store, some entry's token has the same hash. */
    predicate IsCached(a: Alias)
      reads this
      ensures Valid() ==> (IsCached(a) <==> exists k :: k in bank && Hash(bank[k]) == Hash(a))
    {
      Hash(a) in bank
    }

    /** insert: files `a` under its hash when that key is new; otherwise
        discards it. */
    method Insert(a: Alias) returns (inserted: bool)
      requires Valid()
      modifies this
      ensures Valid()
      ensures inserted <==> Hash(a) !in old(bank)
      ensures inserted ==> bank == old(bank)[Hash(a) := a]
      ensures !inserted ==> bank == old(bank)
      ensures bank == Intern(old(bank), a).bank
    {
      var cached := IsCached(a);
      if cached {
        return false;
      }
      var hash := Hash(a);
      bank := bank[hash := a];
      return true;
    }

    /** getAliasToken(Alias*): get-or-create for a ready candidate. */
    method GetToken(a: Alias) returns (t: Alias)
      requires Valid()
      modifies this
      ensures Valid()
      ensures Interned(t, bank) == Intern(old(bank), a)
      ensures Hash(a) in bank && t == bank[Hash(a)] && Hash(t) == Hash(a)
      ensures old(Hash(a) in bank) ==> bank == old(bank) && t == old(bank[Hash(a)])
    {
      var hash := Hash(a);
      var inserted := Insert(a);
      if inserted {
        return a;
      }
      t := bank[hash];
    }

    /** getAliasToken(Value*) */
    method GetValueToken(v: Value) returns (t: Alias)
      requires Valid()
      modifies this
      ensures Valid()
      ensures Interned(t, bank) == Intern(old(bank), FromValue(v, WholeObject))
    {
      t := GetToken(FromValue(v, WholeObject));
    }

    /** getAliasToken(Argument*) */
    method GetArgumentToken(arg: Value) returns (t: Alias)
      requires Valid() && arg.IsArgument()
      modifies this
      ensures Valid()
      ensures Interned(t, bank) == Intern(old(bank), FromArgument(arg, WholeObject))
    {
      t := GetToken(FromArgument(arg, WholeObject));
    }

    /** getAliasToken(Type*) */
    method GetTypeToken(ty: Type) returns (t: Alias)
      requires Valid()
      modifies this
      ensures Valid()
      ensures Interned(t, bank) == Intern(old(bank), FromType(ty, WholeObject))
    {
      t := GetToken(FromType(ty, WholeObject));
    }

    /** getAliasToken(Instruction*) */
    method GetInstructionToken(inst: Value) returns (t: Alias)
      requires Valid() && inst.IsInstruction()
      modifies this
      ensures Valid()
      ensures Interned(t, bank) == Intern(old(bank), FromValue(inst, WholeObject))
    {
      t := GetToken(FromValue(inst, WholeObject));
    }

    /** getAliasToken(string, Function*) */
    method GetNamedToken(s: string, f: Option<Function>) returns (t: Alias)
      requires Valid()
      modifies this
      ensures Valid()
      ensures Interned(t, bank) == Intern(old(bank), Named(s, f, WholeObject))
    {
      t := GetToken(Named(s, f, WholeObject));
    }

    /** extractAliasToken(StoreInst*) */
    method ExtractStore(inst: Instruction) returns (tokens: seq<Alias>)
      requires Valid() && inst.op.Store?
      modifies this
      ensures Valid()
      ensures Extraction(tokens, bank) == StoreRule(old(bank), inst)
      ensures |tokens| == if inst.op.valueOperand.IsConstantInt() then 1 else 2
    {
      var valOp := inst.op.valueOperand;
      if valOp.IsConstantInt() {
        var ptr := GetValueToken(inst.op.pointerOperand);
        tokens := [ptr];
      } else {
        var val := GetValueToken(valOp);
        var ptr := GetValueToken(inst.op.pointerOperand);
        tokens := [val, ptr];
      }
    }

    /** extractAliasToken(LoadInst*) */
    method ExtractLoad(inst: Instruction) returns (tokens: seq<Alias>)
      requires Valid() && inst.op.Load? && inst.handle.IsInstruction()
      modifies this
      ensures Valid()
      ensures Extraction(tokens, bank) == LoadRule(old(bank), inst)
      ensures |tokens| == 2
    {
      var self := GetInstructionToken(inst.handle);
      var ptr := GetValueToken(inst.op.pointerOperand);
      tokens := [self, ptr];
    }

    /** extractAliasToken(AllocaInst*) */
    method ExtractAlloca(inst: Instruction) returns (tokens: seq<Alias>)
      requires Valid() && inst.op.Alloca? && inst.handle.IsAlloca()
      modifies this
      ensures Valid()
      ensures Extraction(tokens, bank) == AllocaRule(old(bank), inst)
      ensures |tokens| == 2
    {
      var alloca := GetInstructionToken(inst.handle);
      var orig := GetNamedToken(GetName(alloca) + "-orig", Some(inst.handle.category.owner));
      tokens := [alloca, orig];
    }

    /** extractAliasToken(ReturnInst*), for a returned value that is not an
        integer constant. */
    method ExtractReturn(inst: Instruction) returns (tokens: seq<Alias>)
      requires Valid() && inst.op.Return?
      requires inst.op.returnValue.Some? && !inst.op.returnValue.value.IsConstantInt()
      modifies this
      ensures Valid()
      ensures Extraction(tokens, bank) == ReturnRule(old(bank), inst)
      ensures |tokens| == 1
    {
      var t := GetValueToken(inst.op.returnValue.value);
      tokens := [t];
    }

    /** extractAliasToken(BitCastInst*) */
    method ExtractBitcast(block: Block, i: nat) returns (tokens: seq<Alias>)
      requires Valid() && i < |block| && block[i].op.BitCast? && block[i].handle.IsInstruction()
      requires BitcastDefined(block, i)
      modifies this
      ensures Valid()
      ensures Extraction(tokens, bank) == BitcastRule(old(bank), block, i)
      ensures |tokens| == 2
    {
      var inst := block[i];
      var self := GetInstructionToken(inst.handle);
      tokens := [self];
      var prev := PrevNonDebug(block, i).value;
      if block[prev].op.Call? {
        var name := block[prev].op.callee.value.name;
        if StartsWith(name, "_Zn") {
          var next := NextNonDebug(block, i).value;
          if block[next].op.Call? && StartsWith(block[next].op.callee.value.name, "_ZN") {
            var t := GetTypeToken(inst.op.destTy);
            tokens := [self, t];
          }
        } else if StartsWith(name, "_ZN") {
          var p2 := PrevNonDebug(block, prev).value;
          if block[p2].op.BitCast? {
            var p3 := PrevNonDebug(block, p2).value;
            if block[p3].op.Call? && StartsWith(block[p3].op.callee.value.name, "_Zn") {
              var t := GetTypeToken(inst.op.srcTy);
              tokens := [self, t];
            }
          }
        }
      }
      if |tokens| == 1 {
        var t := GetValueToken(inst.op.operand);
        tokens := [self, t];
      }
    }

    /** extractAliasToken(Instruction*): the dispatcher. An unsupported kind
        yields no tokens and leaves the store alone. */
    method Extract(block: Block, i: nat) returns (tokens: seq<Alias>)
      requires Valid() && i < |block| && ExtractDefined(block, i)
      modifies this
      ensures Valid()
      ensures Extraction(tokens, bank) == ExtractRule(old(bank), block, i)
    {
      var inst := block[i];
      match inst.op
      case Store(_, _) =>
        tokens := ExtractStore(inst);
      case Load(_) =>
        tokens := ExtractLoad(inst);
      case Alloca =>
        tokens := ExtractAlloca(inst);
      case BitCast(_, _, _) =>
        tokens := ExtractBitcast(block, i);
      case Return(_) =>
        tokens := ExtractReturn(inst);
      case _ =>
        tokens := [];
    }
  }

  /** Two requests for candidates of the same hash, through the store
      object: the second returns the first's token and adds nothing. */
  method RequestTwice(store: AliasTokens, a: Alias, b: Alias) returns (t1: Alias, t2: Alias)
    requires store.Valid() && Hash(a) == Hash(b)
    modifies store
    ensures store.Valid()
    ensures t1 == t2 && Hash(t2) == Hash(b)
    ensures Extends(old(store.bank), store.bank) && |store.bank| <= |old(store.bank)| + 1
  {
    t1 := store.GetToken(a);
    ghost var between := store.bank;
    t2 := store.GetToken(b);
    assert store.bank == between;
  }
}
