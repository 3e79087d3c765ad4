/** The alias token of lib/Alias.cpp: one abstract memory location.

    The C++ class keeps all four payload fields side by side (`Val`, `Ty`,
    `Arg`, `name`) and a `Kind` tag saying which one is meant; its equality
    and ordering read the other token's field of the receiver's kind
    whatever that token's own kind is. The record below keeps that layout so
    those operators can be stated as written. Fields the C++ leaves
    uninitialised are None and false here: the payload pointers of the
    other kinds, which the chosen `set` never writes, a type token's `Func`
    and `IsGlobal`, an argument token's `IsGlobal`, and a named token's
    `IsGlobal` when it has a function. Only `EqualValueTokens` and
    `CopyKeepingGlobalOfConstructed` state something that rests on them. */
module Aliases {
  import opened IR
  import opened Strings

  /** The `Kind` tag: 0 Value, 1 Type, 2 Argument, 3 Named (a dummy location). */
  datatype Kind = ValueKind | TypeKind | ArgumentKind | NamedKind

  /** The default `Index`: the whole object rather than one field of it. */
  const WholeObject: int := -1

  datatype Alias = Alias(
    kind: Kind,
    val: Option<Value>,     // Val, meant for kind 0
    ty: Option<Type>,       // Ty, meant for kind 1
    arg: Option<Value>,     // Arg, meant for kind 2
    name: string,           // name, meant for kind 3
    func: Option<Function>, // the scope function; None is nullptr
    isGlobal: bool,
    index: int)

  /** A token before any `set` call. */
  const Unset: Alias := Alias(ValueKind, None, None, None, "", None, false, WholeObject)

  // ---------------------------------------------------------------------
  // The private `set` overloads: each writes some fields and leaves the
  // others as the receiver had them.
  // ---------------------------------------------------------------------

  function SetValue(self: Alias, v: Option<Value>, kind: Kind, index: int,
                    func: Option<Function>, global: bool): (r: Alias)
    ensures r.val == v && r.kind == kind && r.index == index
    ensures r.func == func && r.isGlobal == global
    ensures r.(val := self.val, kind := self.kind, index := self.index,
               func := self.func, isGlobal := self.isGlobal) == self
  {
    self.(val := v, kind := kind, index := index, func := func, isGlobal := global)
  }

  /** Writes neither `Func` nor `IsGlobal`. */
  function SetType(self: Alias, t: Option<Type>, kind: Kind, index: int): (r: Alias)
    ensures r.ty == t && r.kind == kind && r.index == index
    ensures r.(ty := self.ty, kind := self.kind, index := self.index) == self
  {
    self.(ty := t, kind := kind, index := index)
  }

  /** Does not write `IsGlobal`. */
  function SetArgument(self: Alias, a: Option<Value>, kind: Kind, index: int,
                       func: Option<Function>): (r: Alias)
    ensures r.arg == a && r.kind == kind && r.index == index && r.func == func
    ensures r.(arg := self.arg, kind := self.kind, index := self.index, func := self.func) == self
  {
    self.(arg := a, kind := kind, index := index, func := func)
  }

  /** Marks the token global when `func` is null and otherwise leaves `IsGlobal` alone. */
  function SetName(self: Alias, s: string, kind: Kind, index: int,
                   func: Option<Function>): (r: Alias)
    ensures r.name == s && r.kind == kind && r.index == index && r.func == func
    ensures func.None? ==> r.isGlobal
    ensures func.Some? ==> r.isGlobal == self.isGlobal
    ensures r.(name := self.name, kind := self.kind, index := self.index,
               func := self.func, isGlobal := self.isGlobal) == self
  {
    var r := self.(name := s, kind := kind, index := index);
    var r := if func.None? then r.(isGlobal := true) else r;
    r.(func := func)
  }

  // ---------------------------------------------------------------------
  // Queries
  // ---------------------------------------------------------------------

  /** The function whose locals an argument or instruction belongs to. */
  function Owner(v: Value): Option<Function>
  {
    if v.IsArgument() || v.IsInstruction() then Some(v.category.owner) else None
  }

  /** getValue: the value payload of a kind-0 token, nullptr for the others. */
  function GetValue(a: Alias): (r: Option<Value>)
    ensures r.Some? ==> a.kind == ValueKind && r == a.val
    ensures a.kind == ValueKind ==> r == a.val
  {
    if a.kind == ValueKind then a.val else None
  }

  /** getName. A missing payload (never produced by the constructors) reads as "". */
  function GetName(a: Alias): (s: string)
    ensures GetValue(a).Some? ==> s == GetValue(a).value.name
    ensures a.kind == ArgumentKind && a.arg.Some? ==> s == a.arg.value.name
    ensures a.kind == NamedKind ==> s == a.name
    ensures a.kind == TypeKind ==> s == ""
  {
    match a.kind
    case ValueKind => if a.val.Some? then a.val.value.name else ""
    case TypeKind => ""
    case ArgumentKind => if a.arg.Some? then a.arg.value.name else ""
    case NamedKind => a.name
  }

  /** isMem: the token is a typed heap location, which has neither a name
      nor a value. */
  predicate IsMem(a: Alias)
    ensures IsMem(a) ==> GetName(a) == "" && GetValue(a) == None
  {
    a.kind == TypeKind
  }

  /** IsGlobalVar: a value token marked global; never a heap location. */
  predicate IsGlobalVar(a: Alias)
    ensures IsGlobalVar(a) ==> !IsMem(a) && GetValue(a) == a.val
  {
    a.kind == ValueKind && a.isGlobal
  }

  /** isArg: an argument token, which is neither a heap location nor a
      global value and has no value payload. */
  predicate IsArg(a: Alias)
    ensures IsArg(a) ==> !IsMem(a) && !IsGlobalVar(a) && GetValue(a) == None
  {
    a.kind == ArgumentKind
  }

  /** isAllocaOrArgOrGlobal: the tokens that are not seed points are exactly
      the named ones and the value tokens not marked global. */
  predicate IsAllocaOrArgOrGlobal(a: Alias)
    ensures !IsAllocaOrArgOrGlobal(a) <==>
              a.kind == NamedKind || (a.kind == ValueKind && !a.isGlobal)
  {
    IsMem(a) || IsGlobalVar(a) || IsArg(a)
  }

  /** sameFunc: holds exactly when the token has a scope function and it is `f`. */
  predicate SameFunc(a: Alias, f: Option<Function>)
    ensures SameFunc(a, f) ==> f.Some? && f == a.func
    ensures a.func.Some? && f == a.func ==> SameFunc(a, f)
  {
    if a.func.Some? then a.func == f else false
  }

  // ---------------------------------------------------------------------
  // Constructors
  // ---------------------------------------------------------------------

  /** Alias(Argument*, Index): an argument token scoped to the argument's function. */
  function FromArgument(arg: Value, index: int): (a: Alias)
    requires arg.IsArgument()
    ensures IsArg(a) && !IsMem(a) && !IsGlobalVar(a) && a.arg == Some(arg) && a.index == index
    ensures a.func == Owner(arg) && a.func.Some?
    ensures GetName(a) == arg.name && GetValue(a) == None
  {
    SetArgument(Unset, Some(arg), ArgumentKind, index, Some(arg.category.owner))
  }

  /** Alias(Value*, Index): an argument becomes an argument token; any other
      value becomes a value token scoped to the function of the instruction
      that defines it, and global when it is a global variable or has no
      such function. */
  function FromValue(v: Value, index: int): (a: Alias)
    ensures a.index == index && a.func == Owner(v) && GetName(a) == v.name && !IsMem(a)
    ensures v.IsArgument() ==> a == FromArgument(v, index)
    ensures !v.IsArgument() ==> a.kind == ValueKind && GetValue(a) == Some(v)
    ensures IsArg(a) <==> v.IsArgument()
    ensures IsGlobalVar(a) <==> !v.IsArgument() && !v.IsInstruction()
    ensures IsAllocaOrArgOrGlobal(a) <==> !v.IsInstruction()
  {
    if v.IsArgument() then
      SetArgument(Unset, Some(v), ArgumentKind, index, Some(v.category.owner))
    else
      var func := if v.IsInstruction() then Some(v.category.owner) else None;
      if v.IsGlobalVariable() || func.None? then
        SetValue(Unset, Some(v), ValueKind, index, func, true)
      else
        SetValue(Unset, Some(v), ValueKind, index, func, false)
  }

  /** Alias(Type*, Index): a typed heap location, in no function. */
  function FromType(t: Type, index: int): (a: Alias)
    ensures IsMem(a) && IsAllocaOrArgOrGlobal(a) && !IsArg(a) && !IsGlobalVar(a)
    ensures a.ty == Some(t) && a.index == index
    ensures GetName(a) == "" && GetValue(a) == None
  {
    SetType(Unset, Some(t), TypeKind, index)
  }

  /** Alias(string, Function*, Index): a named dummy location, marked global
      when no function is given. */
  function Named(s: string, func: Option<Function>, index: int): (a: Alias)
    ensures a.kind == NamedKind && GetName(a) == s && a.func == func && a.index == index
    ensures func.None? ==> a.isGlobal
    ensures !IsAllocaOrArgOrGlobal(a) && GetValue(a) == None
  {
    SetName(Unset, s, NamedKind, index, func)
  }

  /** Alias(Alias*), as written: the kind-0 branch calls `set` without the
      global flag, so a copy of a global value token is not global. */
  function Copy(a: Alias): (r: Alias)
    ensures r.kind == a.kind && r.index == a.index
    ensures Equal(r, a) && Equal(a, r)
    ensures GetName(r) == GetName(a) && GetValue(r) == GetValue(a)
    ensures !IsGlobalVar(r)
    ensures IsMem(r) == IsMem(a) && IsArg(r) == IsArg(a)
  {
    match a.kind
    case ValueKind => SetValue(Unset, a.val, a.kind, a.index, a.func, false)
    case TypeKind => SetType(Unset, a.ty, a.kind, a.index)
    case ArgumentKind => SetArgument(Unset, a.arg, a.kind, a.index, a.func)
    case NamedKind => SetName(Unset, a.name, a.kind, a.index, a.func)
  }

  /** The copy constructor with the global flag passed on. */
  function CopyKeepingGlobal(a: Alias): (r: Alias)
    ensures r.kind == a.kind && r.index == a.index
    ensures Equal(r, a) && Equal(a, r)
    ensures GetName(r) == GetName(a) && GetValue(r) == GetValue(a)
    ensures IsGlobalVar(r) == IsGlobalVar(a)
    ensures IsAllocaOrArgOrGlobal(r) == IsAllocaOrArgOrGlobal(a)
    ensures r.kind != TypeKind ==> r.func == a.func
  {
    match a.kind
    case ValueKind => SetValue(Unset, a.val, a.kind, a.index, a.func, a.isGlobal)
    case TypeKind => SetType(Unset, a.ty, a.kind, a.index)
    case ArgumentKind => SetArgument(Unset, a.arg, a.kind, a.index, a.func)
    case NamedKind => SetName(Unset, a.name, a.kind, a.index, a.func)
  }

  /** A copy that keeps the global flag reproduces every token the four
      constructors build. */
  lemma CopyKeepingGlobalOfConstructed(v: Value, t: Type, s: string, f: Option<Function>, i: int)
    ensures CopyKeepingGlobal(FromValue(v, i)) == FromValue(v, i)
    ensures CopyKeepingGlobal(FromType(t, i)) == FromType(t, i)
    ensures CopyKeepingGlobal(Named(s, f, i)) == Named(s, f, i)
  {
  }

  /** operator=, as written: the fields the chosen `set` does not write keep
      the receiver's values, and the kind-0 branch clears the global flag. */
  function Assign(self: Alias, other: Alias): (r: Alias)
    ensures r.kind == other.kind && r.index == other.index
    ensures Equal(r, other) && Equal(other, r)
    ensures GetName(r) == GetName(other) && GetValue(r) == GetValue(other)
    ensures !IsGlobalVar(r)
    ensures other.kind == TypeKind ==> r.func == self.func && r.isGlobal == self.isGlobal
  {
    match other.kind
    case ValueKind => SetValue(self, other.val, other.kind, other.index, other.func, false)
    case TypeKind => SetType(self, other.ty, other.kind, other.index)
    case ArgumentKind => SetArgument(self, other.arg, other.kind, other.index, other.func)
    case NamedKind => SetName(self, other.name, other.kind, other.index, other.func)
  }

  /** operator= with the global flag passed on. */
  function AssignKeepingGlobal(self: Alias, other: Alias): (r: Alias)
    ensures r.kind == other.kind && r.index == other.index
    ensures Equal(r, other) && Equal(other, r)
    ensures GetName(r) == GetName(other) && GetValue(r) == GetValue(other)
    ensures IsGlobalVar(r) == IsGlobalVar(other)
    ensures r.kind != TypeKind ==> r.func == other.func
  {
    match other.kind
    case ValueKind => SetValue(self, other.val, other.kind, other.index, other.func, other.isGlobal)
    case TypeKind => SetType(self, other.ty, other.kind, other.index)
    case ArgumentKind => SetArgument(self, other.arg, other.kind, other.index, other.func)
    case NamedKind => SetName(self, other.name, other.kind, other.index, other.func)
  }

  // ---------------------------------------------------------------------
  // Classification
  // ---------------------------------------------------------------------

  /** Which functions each kind of constructed token is local to: an argument
      or instruction token to its own function, a named token to the function
      it was given, and a global value to none. */
  lemma SameFuncOfConstructed(v: Value, s: string, g: Option<Function>, i: int, f: Option<Function>)
    ensures SameFunc(FromValue(v, i), f) <==> Owner(v).Some? && f == Owner(v)
    ensures IsGlobalVar(FromValue(v, i)) ==> !SameFunc(FromValue(v, i), f)
    ensures SameFunc(Named(s, g, i), f) <==> g.Some? && f == g
  {
  }

  /** As written, the token of a stack slot (the value of an alloca) is a
      local value token, so isAllocaOrArgOrGlobal is false for it although
      the name and comment of that predicate count allocas in. */
  lemma AllocaTokenNotSeed(v: Value, i: int)
    requires v.IsAlloca()
    ensures !IsAllocaOrArgOrGlobal(FromValue(v, i))
  {
  }

  /** The seed points as isAllocaOrArgOrGlobal is documented: heap
      locations, global values, arguments and stack slots. */
  predicate IsSeedPoint(a: Alias)
  {
    IsAllocaOrArgOrGlobal(a) || (a.kind == ValueKind && a.val.Some? && a.val.value.IsAlloca())
  }

  /** With stack slots counted in, a value's token is a seed point exactly
      when the value is not an instruction or is an alloca. */
  lemma SeedPointOfConstructed(v: Value, t: Type, i: int)
    ensures IsSeedPoint(FromValue(v, i)) <==> !v.IsInstruction() || v.IsAlloca()
    ensures IsSeedPoint(FromType(t, i))
  {
  }

  // ---------------------------------------------------------------------
  // Field index of a GEP access path
  // ---------------------------------------------------------------------

  /** The left fold of setIndex: a := 2 * a + isOne for each ConstantInt
      index, the other indices skipped. */
  function IndexFold(indices: seq<Value>): (r: int)
    ensures r >= 0
    decreases |indices|
  {
    if indices == [] then 0
    else
      var a := IndexFold(indices[..|indices| - 1]);
      var x := indices[|indices| - 1];
      if x.IsConstantInt() then 2 * a + (if x.IsOne() then 1 else 0) else a
  }

  /** The ConstantInt indices of a path, in order. */
  function ConstantIndices(indices: seq<Value>): (c: seq<Value>)
    ensures |c| <= |indices|
    ensures forall k :: 0 <= k < |c| ==> c[k].IsConstantInt()
    decreases |indices|
  {
    if indices == [] then []
    else
      var c := ConstantIndices(indices[..|indices| - 1]);
      var x := indices[|indices| - 1];
      if x.IsConstantInt() then c + [x] else c
  }

  /** For each index of a path, whether it is the constant one. */
  function OneBits(indices: seq<Value>): (b: seq<bool>)
    ensures |b| == |indices|
  {
    seq(|indices|, k requires 0 <= k < |indices| => indices[k].IsOne())
  }

  function Pow2(n: nat): nat
  {
    if n == 0 then 1 else 2 * Pow2(n - 1)
  }

  /** The `n` low bits of `r`, most significant first: the decoder of IndexFold. */
  function Bits(r: int, n: nat): seq<bool>
    decreases n
  {
    if n == 0 then [] else Bits(r / 2, n - 1) + [r % 2 == 1]
  }

  /** Non-constant indices contribute nothing. */
  lemma {:induction false} IndexFoldSkipsNonConstants(indices: seq<Value>)
    ensures IndexFold(ConstantIndices(indices)) == IndexFold(indices)
    decreases |indices|
  {
    if indices != [] {
      var init := indices[..|indices| - 1];
      var x := indices[|indices| - 1];
      IndexFoldSkipsNonConstants(init);
      var c := ConstantIndices(init);
      if x.IsConstantInt() {
        assert (c + [x])[..|c + [x]| - 1] == c;
      }
    }
  }

  /** The index is a binary number with one bit per constant index. */
  lemma {:induction false} IndexFoldBounds(indices: seq<Value>)
    ensures 0 <= IndexFold(indices) < Pow2(|ConstantIndices(indices)|)
    decreases |indices|
  {
    if indices != [] {
      IndexFoldBounds(indices[..|indices| - 1]);
    }
  }

  /** Decoding the index gives back, for each constant index, whether it was
      one: two paths with the same number of constant indices share an index
      exactly when their constants agree on being one. */
  lemma {:induction false} IndexFoldDecodes(indices: seq<Value>)
    ensures Bits(IndexFold(indices), |ConstantIndices(indices)|)
            == OneBits(ConstantIndices(indices))
    decreases |indices|
  {
    if indices != [] {
      var init := indices[..|indices| - 1];
      var x := indices[|indices| - 1];
      IndexFoldDecodes(init);
      IndexFoldBounds(init);
      var c := ConstantIndices(init);
      if x.IsConstantInt() {
        var a := IndexFold(init);
        var b := if x.IsOne() then 1 else 0;
        assert (2 * a + b) / 2 == a && (2 * a + b) % 2 == b;
        assert OneBits(c + [x]) == OneBits(c) + [x.IsOne()];
      }
    }
  }

  /** The worked cases: an empty path gives 0, and [0, 1, 1] gives 3 whatever
      non-constant indices stand between them. */
  lemma IndexFoldExamples(zero: Value, one: Value, other: Value)
    requires zero.category == ConstantInt(false) && one.category == ConstantInt(true)
    requires !other.IsConstantInt()
    ensures IndexFold([]) == 0
    ensures IndexFold([zero, one, one]) == 3
    ensures IndexFold([other, zero, other, one, one, other]) == 3
  {
    var p := [zero, one, one];
    assert IndexFold(p[..1]) == 0 by { assert p[..1][..0] == []; }
    assert IndexFold(p[..2]) == 1 by { assert p[..2][..1] == p[..1]; }
    assert p[..3][..2] == p[..2];
    var q := [other, zero, other, one, one, other];
    assert IndexFold(q[..1]) == 0 by { assert q[..1][..0] == []; }
    assert IndexFold(q[..2]) == 0 by { assert q[..2][..1] == q[..1]; }
    assert IndexFold(q[..3]) == 0 by { assert q[..3][..2] == q[..2]; }
    assert IndexFold(q[..4]) == 1 by { assert q[..4][..3] == q[..3]; }
    assert IndexFold(q[..5]) == 3 by { assert q[..5][..4] == q[..4]; }
    assert q[..6][..5] == q[..5];
  }

  /** setIndex (both overloads): walks the GEP's indices and stores the fold
      as the token's field index; nothing else of the token changes. */
  method SetIndex(self: Alias, indices: seq<Value>) returns (r: Alias)
    ensures r == self.(index := IndexFold(indices))
    ensures 0 <= r.index < Pow2(|ConstantIndices(indices)|)
  {
    var a := 0;
    var k := 0;
    while k < |indices|
      invariant 0 <= k <= |indices|
      invariant a == IndexFold(indices[..k])
    {
      var temp := indices[k];
      assert indices[..k + 1][..k] == indices[..k];
      if temp.IsConstantInt() {
        a := a * 2 + (if temp.IsOne() then 1 else 0);
      }
      k := k + 1;
    }
    assert indices[..k] == indices;
    IndexFoldBounds(indices);
    r := self.(index := a);
  }

  // ---------------------------------------------------------------------
  // Equality and ordering
  // ---------------------------------------------------------------------

  /** operator==: the payload of the receiver's kind, the scope function
      except for type tokens, and the index. The global flag plays no part. */
  predicate Equal(a: Alias, b: Alias)
    ensures Equal(a, b) ==> a.index == b.index
    ensures Equal(a, b) && a.kind != TypeKind ==> a.func == b.func
    ensures Equal(a, b) && a.kind == b.kind ==>
              GetName(a) == GetName(b) && GetValue(a) == GetValue(b)
  {
    var payload := match a.kind
      case ValueKind => a.val == b.val && a.func == b.func
      case TypeKind => a.ty == b.ty
      case ArgumentKind => a.arg == b.arg && a.func == b.func
      case NamedKind => a.name == b.name && a.func == b.func;
    payload && a.index == b.index
  }

  /** Among tokens of one kind, operator== is an equivalence, blind to the
      global flag and, for type tokens, to the scope function. */
  lemma EqualProperties(a: Alias, b: Alias, c: Alias, g: bool, f: Option<Function>)
    requires a.kind == b.kind == c.kind
    ensures Equal(a, a)
    ensures Equal(a, b) ==> Equal(b, a)
    ensures Equal(a, b) && Equal(b, c) ==> Equal(a, c)
    ensures Equal(a.(isGlobal := g), b) == Equal(a, b) == Equal(a, b.(isGlobal := g))
    ensures a.kind == TypeKind ==> Equal(a.(func := f), b) == Equal(a, b)
  {
  }

  /** Two tokens built from values are equal exactly when they were built
      from the same handle with the same index. For an argument against a
      non-argument this reads the placeholder of a payload field the other
      token never writes. */
  lemma EqualValueTokens(v: Value, w: Value, i: int, j: int)
    ensures Equal(FromValue(v, i), FromValue(w, j)) <==> v == w && i == j
  {
  }

  /** Pointer comparison: ids, with nullptr below every object. */
  function ValueAddr(v: Option<Value>): nat { if v.Some? then v.value.id + 1 else 0 }
  function TypeAddr(t: Option<Type>): nat { if t.Some? then t.value.id + 1 else 0 }
  function FuncAddr(f: Option<Function>): nat { if f.Some? then f.value.id + 1 else 0 }

  /** operator<, as written: the payload of the receiver's kind AND the scope
      function (except for type tokens) AND the index must all be smaller. */
  predicate Less(a: Alias, b: Alias)
    ensures Less(a, b) ==> a.index < b.index && !Equal(a, b)
    ensures Less(a, b) && a.kind != TypeKind ==> FuncAddr(a.func) < FuncAddr(b.func)
  {
    var less := match a.kind
      case ValueKind => ValueAddr(a.val) < ValueAddr(b.val) && FuncAddr(a.func) < FuncAddr(b.func)
      case TypeKind => TypeAddr(a.ty) < TypeAddr(b.ty)
      case ArgumentKind =>
        ValueAddr(a.arg) < ValueAddr(b.arg) && FuncAddr(a.func) < FuncAddr(b.func)
      case NamedKind => StrLess(a.name, b.name) && FuncAddr(a.func) < FuncAddr(b.func);
    less && a.index < b.index
  }

  /** Among tokens of one kind, operator< is irreflexive, asymmetric and
      transitive, and never separates tokens that operator== identifies. */
  lemma LessStrictOrder(a: Alias, b: Alias, c: Alias)
    requires a.kind == b.kind == c.kind
    ensures !Less(a, a)
    ensures Less(a, b) ==> !Less(b, a)
    ensures Less(a, b) && Less(b, c) ==> Less(a, c)
    ensures Equal(a, b) ==> !Less(a, b) && !Less(b, a)
  {
    if a.kind == NamedKind {
      StrLessIrreflexive(a.name);
      if Less(a, b) {
        StrLessAsymmetric(a.name, b.name);
        if Less(b, c) {
          StrLessTransitive(a.name, b.name, c.name);
        }
      }
    }
  }

  /** operator< is not a strict weak ordering: being unordered is not
      transitive. Type tokens (t1, 0) and (t3, 0) are unordered, so are
      (t3, 0) and (t2, 1), yet (t1, 0) < (t2, 1). A std::set or std::map
      keyed with it has undefined behaviour. */
  lemma LessUnorderedNotTransitive(t1: Type, t2: Type, t3: Type)
    requires t1.id < t2.id < t3.id
    ensures var a, b, c := FromType(t1, 0), FromType(t3, 0), FromType(t2, 1);
      !Less(a, b) && !Less(b, a) && !Less(b, c) && !Less(c, b) && Less(a, c)
  {
  }

  /** The order the comparator evidently intends: lexicographic on the
      payload of the receiver's kind, then the scope function (not for type
      tokens), then the index. */
  predicate LexLess(a: Alias, b: Alias)
  {
    PayloadLess(a, b) ||
    (PayloadSame(a, b) && (ScopeLess(a, b) || (ScopeSame(a, b) && a.index < b.index)))
  }

  predicate PayloadLess(a: Alias, b: Alias)
  {
    match a.kind
    case ValueKind => ValueAddr(a.val) < ValueAddr(b.val)
    case TypeKind => TypeAddr(a.ty) < TypeAddr(b.ty)
    case ArgumentKind => ValueAddr(a.arg) < ValueAddr(b.arg)
    case NamedKind => StrLess(a.name, b.name)
  }

  predicate PayloadSame(a: Alias, b: Alias)
  {
    match a.kind
    case ValueKind => ValueAddr(a.val) == ValueAddr(b.val)
    case TypeKind => TypeAddr(a.ty) == TypeAddr(b.ty)
    case ArgumentKind => ValueAddr(a.arg) == ValueAddr(b.arg)
    case NamedKind => a.name == b.name
  }

  predicate ScopeLess(a: Alias, b: Alias)
  {
    a.kind != TypeKind && FuncAddr(a.func) < FuncAddr(b.func)
  }

  predicate ScopeSame(a: Alias, b: Alias)
  {
    a.kind == TypeKind || FuncAddr(a.func) == FuncAddr(b.func)
  }

  /** The key the corrected order sorts by agrees on both tokens. */
  predicate SameKey(a: Alias, b: Alias)
  {
    PayloadSame(a, b) && ScopeSame(a, b) && a.index == b.index
  }

  lemma PayloadTrichotomy(a: Alias, b: Alias)
    requires a.kind == b.kind
    ensures PayloadLess(a, b) || PayloadLess(b, a) || PayloadSame(a, b)
    ensures PayloadLess(a, b) ==> !PayloadLess(b, a) && !PayloadSame(a, b)
    ensures PayloadSame(a, b) ==> PayloadSame(b, a)
  {
    if a.kind == NamedKind {
      StrLessTotal(a.name, b.name);
      if PayloadLess(a, b) {
        StrLessAsymmetric(a.name, b.name);
        StrLessIrreflexive(a.name);
      }
    }
  }

  /** Among tokens of one kind LexLess is a strict weak ordering: irreflexive
      and transitive, with "neither is smaller" meaning "same key", which is
      transitive; and operator== tokens always have the same key. */
  lemma LexLessStrictWeakOrder(a: Alias, b: Alias, c: Alias)
    requires a.kind == b.kind == c.kind
    ensures !LexLess(a, a)
    ensures LexLess(a, b) && LexLess(b, c) ==> LexLess(a, c)
    ensures !LexLess(a, b) && !LexLess(b, a) <==> SameKey(a, b)
    ensures SameKey(a, b) && SameKey(b, c) ==> SameKey(a, c)
    ensures Equal(a, b) ==> SameKey(a, b)
  {
    PayloadTrichotomy(a, b);
    PayloadTrichotomy(b, c);
    PayloadTrichotomy(a, c);
    if a.kind == NamedKind {
      StrLessIrreflexive(a.name);
      if StrLess(a.name, b.name) && StrLess(b.name, c.name) {
        StrLessTransitive(a.name, b.name, c.name);
      }
    }
  }
}
