/** The part of the LLVM IR the token layer reads, as opaque handles.

    A handle's `id` stands for its address. Ids are unique per object: two
    handles with the same id are the same handle, carrying the same
    attributes. Pointer equality is therefore equality of handles, and
    pointer comparisons (`<` on `Value*`, `Type*`, `Function*`) compare
    ids. Each handle carries only the attributes the token layer asks for:
    its name, its owning function, and whether it is an argument, an
    instruction, a global variable or an integer constant (and then whether
    that constant is one). */
module IR {

  datatype Option<+T> = None | Some(value: T)

  /** An `llvm::Function`. */
  datatype Function = Function(id: nat, name: string)

  /** An `llvm::Type`; `text` is what printing the type produces. */
  datatype Type = Type(id: nat, text: string)

  /** What kind of `llvm::Value` a handle is. The cases exclude each other,
      as the LLVM class hierarchy does. */
  datatype Category =
    | ArgumentOf(owner: Function)     // an llvm::Argument of `owner`
    // an llvm::Instruction in a block of `owner`; `isAlloca`: it is an AllocaInst
    | InstructionIn(owner: Function, isAlloca: bool)
    | GlobalVariable                  // an llvm::GlobalVariable
    | ConstantInt(isOne: bool)        // an llvm::ConstantInt; `isOne` is ConstantInt::isOne
    | OtherValue                      // any other constant or value

  /** An `llvm::Value`. */
  datatype Value = Value(id: nat, name: string, category: Category)
  {
    predicate IsArgument() { category.ArgumentOf? }
    predicate IsInstruction() { category.InstructionIn? }
    predicate IsAlloca() { category.InstructionIn? && category.isAlloca }
    predicate IsGlobalVariable() { category.GlobalVariable? }
    predicate IsConstantInt() { category.ConstantInt? }
    predicate IsOne() { category.ConstantInt? && category.isOne }
  }

  /** The operands of the instruction kinds the extraction rules look at. */
  datatype Op =
    | Store(valueOperand: Value, pointerOperand: Value)
    | Load(pointerOperand: Value)
    | Alloca
    | BitCast(operand: Value, srcTy: Type, destTy: Type)
    | Return(returnValue: Option<Value>)  // None: `ret void`
    | Call(callee: Option<Function>)      // None: getCalledFunction() is null (an indirect call)
    | DebugIntrinsic                       // a debug-info intrinsic call
    | Other

  /** An instruction: its own value handle and its operands. An `alloca`'s
      handle is an AllocaInst; the rules that read it demand that the two
      agree. */
  datatype Instruction = Instruction(handle: Value, op: Op)

  /** The instructions of one basic block, in order. */
  type Block = seq<Instruction>

  /** getPrevNonDebugInstruction: the nearest earlier instruction of the
      block that is not a debug intrinsic, or None at the start of the block. */
  function PrevNonDebug(block: Block, i: nat): (r: Option<nat>)
    requires i <= |block|
    ensures r.Some? ==> r.value < i && !block[r.value].op.DebugIntrinsic?
    ensures r.Some? ==> forall j :: r.value < j < i ==> block[j].op.DebugIntrinsic?
    ensures r.None? ==> forall j :: 0 <= j < i ==> block[j].op.DebugIntrinsic?
    decreases i
  {
    if i == 0 then None
    else if !block[i - 1].op.DebugIntrinsic? then Some(i - 1)
    else PrevNonDebug(block, i - 1)
  }

  /** getNextNonDebugInstruction: the nearest later instruction of the block
      that is not a debug intrinsic, or None at the end of the block. */
  function NextNonDebug(block: Block, i: nat): (r: Option<nat>)
    requires i < |block|
    ensures r.Some? ==> i < r.value < |block| && !block[r.value].op.DebugIntrinsic?
    ensures r.Some? ==> forall j :: i < j < r.value ==> block[j].op.DebugIntrinsic?
    ensures r.None? ==> forall j :: i < j < |block| ==> block[j].op.DebugIntrinsic?
    decreases |block| - i
  {
    if i + 1 == |block| then None
    else if !block[i + 1].op.DebugIntrinsic? then Some(i + 1)
    else NextNonDebug(block, i + 1)
  }
}
