/** Just enough WebAssembly to run the path-checking fixture: the numeric, memory and control
    instructions it uses, as in section 4.4 of the WebAssembly Core Specification. */
module Wasm {

  const I32: nat := 0x1_0000_0000

  type byte = x: int | 0 <= x < 256

  datatype Instr =
    | LocalGet(index: nat)
    | I32Const(value: nat)
    | I32Add
    | I32LtU
    | I32Ne
    | I32Load8U
    | If(body: seq<Instr>)
    | Return

  /** How a piece of code ends: it falls through, it returns from the function, it traps, or it
      gets stuck, which validated code never does. */
  datatype Outcome = Falls(stack: seq<nat>) | Returns(value: nat) | Traps | Stuck

  /** The effect of one instruction other than `If` and `Return`; the top of the stack is last. */
  function Simple(i: Instr, stack: seq<nat>, locals: seq<nat>, memory: seq<byte>): Outcome {
    var n := |stack|;
    match i
    case LocalGet(x) => if x < |locals| then Falls(stack + [locals[x]]) else Stuck
    case I32Const(v) => Falls(stack + [v % I32])
    case I32Add => if n < 2 then Stuck else Falls(stack[..n - 2] + [(stack[n - 2] + stack[n - 1]) % I32])
    case I32LtU => if n < 2 then Stuck else Falls(stack[..n - 2] + [if stack[n - 2] < stack[n - 1] then 1 else 0])
    case I32Ne => if n < 2 then Stuck else Falls(stack[..n - 2] + [if stack[n - 2] != stack[n - 1] then 1 else 0])
    case I32Load8U =>
      if n < 1 then Stuck
      else if stack[n - 1] >= |memory| then Traps
      else Falls(stack[..n - 1] + [memory[stack[n - 1]]])
    case _ => Stuck
  }

  function Exec(code: seq<Instr>, stack: seq<nat>, locals: seq<nat>, memory: seq<byte>): Outcome {
    if code == [] then Falls(stack)
    else
      match code[0]
      case Return => if stack == [] then Stuck else Returns(stack[|stack| - 1])
      case If(body) =>
        if stack == [] then Stuck
        else
          var rest := stack[..|stack| - 1];
          if stack[|stack| - 1] == 0 then Exec(code[1..], rest, locals, memory)
          else
            (match Exec(body, [], locals, memory)
             case Falls(left) => if left == [] then Exec(code[1..], rest, locals, memory) else Stuck
             case other => other)
      case simple =>
        (match Simple(simple, stack, locals, memory)
         case Falls(next) => Exec(code[1..], next, locals, memory)
         case other => other)
  }

  datatype CallResult = Value(value: nat) | Trap

  /** Calls a function with one i32 result. */
  function Call(code: seq<Instr>, args: seq<nat>, memory: seq<byte>): CallResult {
    match Exec(code, [], args, memory)
    case Falls(stack) => if |stack| == 1 then Value(stack[0]) else Trap
    case Returns(v) => Value(v)
    case Traps => Trap
    case Stuck => Trap
  }

  lemma {:induction false} ExecConcat(a: seq<Instr>, b: seq<Instr>, stack: seq<nat>, locals: seq<nat>,
                                      memory: seq<byte>)
    ensures Exec(a + b, stack, locals, memory) ==
            match Exec(a, stack, locals, memory)
            case Falls(next) => Exec(b, next, locals, memory)
            case other => other
  {
    if a == [] {
      assert a + b == b;
    } else {
      assert (a + b)[1..] == a[1..] + b;
      match a[0]
      case Return =>
      case If(body) =>
        if stack != [] {
          ExecConcat(a[1..], b, stack[..|stack| - 1], locals, memory);
        }
      case simple =>
        match Simple(simple, stack, locals, memory)
        case Falls(next) => ExecConcat(a[1..], b, next, locals, memory);
        case other =>
    }
  }

  // ----- the fixture

  const PATH_PTR: nat := 2
  const PATH_LEN: nat := 3

  /** `(if cond (then (return (i32.const 0))))`, after the code of `cond`. */
  const RETURN_ZERO_IF: seq<Instr> := [If([I32Const(0), Return])]

  function LengthCheck(n: nat): seq<Instr> {
    [LocalGet(PATH_LEN), I32Const(n), I32LtU] + RETURN_ZERO_IF
  }

  /** The address of byte `k` of the path. */
  function PathByte(k: nat): seq<Instr> {
    if k == 0 then [LocalGet(PATH_PTR)] else [LocalGet(PATH_PTR), I32Const(k), I32Add]
  }

  /** Load the byte at the address on the stack and compare it. */
  function Compare(expected: byte): seq<Instr> {
    [I32Load8U, I32Const(expected), I32Ne]
  }

  function ByteCheck(k: nat, expected: byte): seq<Instr> {
    PathByte(k) + (Compare(expected) + RETURN_ZERO_IF)
  }

  /** "/block" in ASCII. */
  const BLOCK: seq<byte> := [47, 98, 108, 111, 99, 107]

  function ByteChecks(k: nat): seq<Instr>
    requires k <= |BLOCK|
    decreases |BLOCK| - k
  {
    if k == |BLOCK| then [I32Const(1)] else ByteCheck(k, BLOCK[k]) + ByteChecks(k + 1)
  }

  /** The body of `on_request` in the fixture. */
  function BlockPath(): seq<Instr> {
    LengthCheck(6) + ByteChecks(0)
  }

  lemma ReturnZeroIfRuns(cond: nat, locals: seq<nat>, memory: seq<byte>)
    ensures Exec(RETURN_ZERO_IF, [cond], locals, memory) == if cond == 0 then Falls([]) else Returns(0)
  {
    var body := [I32Const(0), Return];
    assert body[1..] == [Return] && RETURN_ZERO_IF[1..] == [];
    assert [] + [0] == [0];
    assert Exec(body, [], locals, memory) == Returns(0);
  }

  lemma LengthCheckRuns(n: nat, locals: seq<nat>, memory: seq<byte>)
    requires |locals| == 4 && n < I32
    ensures Exec(LengthCheck(n), [], locals, memory) == if locals[PATH_LEN] < n then Returns(0) else Falls([])
  {
    var a, b, c := LocalGet(PATH_LEN), I32Const(n), I32LtU;
    var code := [a, b, c];
    assert code[1..] == [b, c] && [b, c][1..] == [c] && [c][1..] == [];
    var len := locals[PATH_LEN];
    assert [] + [len] == [len] && [len] + [n] == [len, n];
    assert [len, n][..0] == [];
    var less := if len < n then 1 else 0;
    assert Exec([c], [len, n], locals, memory) == Falls([less]);
    assert Exec([b, c], [len], locals, memory) == Falls([less]);
    assert Exec(code, [], locals, memory) == Falls([less]);
    ExecConcat(code, RETURN_ZERO_IF, [], locals, memory);
    ReturnZeroIfRuns(less, locals, memory);
  }

  lemma PathByteRuns(k: nat, locals: seq<nat>, memory: seq<byte>)
    requires |locals| == 4 && locals[PATH_PTR] + k < I32
    ensures Exec(PathByte(k), [], locals, memory) == Falls([locals[PATH_PTR] + k])
  {
    var p := locals[PATH_PTR];
    var a, b, c := LocalGet(PATH_PTR), I32Const(k), I32Add;
    assert [a, b, c][1..] == [b, c] && [b, c][1..] == [c] && [c][1..] == [] && [a][1..] == [];
    assert [] + [p] == [p] && [p] + [k] == [p, k] && [p, k][..0] == [];
    if k != 0 {
      assert Exec([c], [p, k], locals, memory) == Falls([p + k]);
      assert Exec([b, c], [p], locals, memory) == Falls([p + k]);
    }
  }

  lemma CompareRuns(at: nat, expected: byte, locals: seq<nat>, memory: seq<byte>)
    requires at < |memory| <= I32
    ensures Exec(Compare(expected), [at], locals, memory) == Falls([if memory[at] != expected then 1 else 0])
  {
    var compare := Compare(expected);
    assert compare[1..] == [I32Const(expected), I32Ne] && [I32Const(expected), I32Ne][1..] == [I32Ne]
        && [I32Ne][1..] == [];
    var loaded: nat := memory[at];
    assert [at][..0] == [] && [] + [loaded] == [loaded] && [loaded] + [expected] == [loaded, expected];
    assert [loaded, expected][..0] == [];
    assert Exec([I32Ne], [loaded, expected], locals, memory) == Falls([if loaded != expected then 1 else 0]);
  }

  lemma ByteCheckRuns(k: nat, expected: byte, locals: seq<nat>, memory: seq<byte>)
    requires |locals| == 4 && locals[PATH_PTR] + k < |memory| <= I32
    ensures Exec(ByteCheck(k, expected), [], locals, memory) ==
            if memory[locals[PATH_PTR] + k] == expected then Falls([]) else Returns(0)
  {
    var at := locals[PATH_PTR] + k;
    PathByteRuns(k, locals, memory);
    ExecConcat(PathByte(k), Compare(expected) + RETURN_ZERO_IF, [], locals, memory);
    ExecConcat(Compare(expected), RETURN_ZERO_IF, [at], locals, memory);
    CompareRuns(at, expected, locals, memory);
    ReturnZeroIfRuns(if memory[at] != expected then 1 else 0, locals, memory);
  }

  /** The bytes from `k` on are those of "/block". */
  predicate TailMatches(k: nat, p: nat, memory: seq<byte>)
    requires k <= |BLOCK| && p + |BLOCK| <= |memory|
  {
    memory[p + k..p + |BLOCK|] == BLOCK[k..]
  }

  lemma TailMatchesStep(k: nat, p: nat, memory: seq<byte>)
    requires k < |BLOCK| && p + |BLOCK| <= |memory|
    ensures TailMatches(k, p, memory) <==> memory[p + k] == BLOCK[k] && TailMatches(k + 1, p, memory)
  {
  }

  lemma ReturnOneRuns(locals: seq<nat>, memory: seq<byte>)
    ensures Exec([I32Const(1)], [], locals, memory) == Falls([1])
  {
  }

  lemma {:induction false} ByteChecksRun(k: nat, locals: seq<nat>, memory: seq<byte>)
    requires k <= |BLOCK| && |locals| == 4 && locals[PATH_PTR] + |BLOCK| <= |memory| <= I32
    ensures Exec(ByteChecks(k), [], locals, memory) ==
            if TailMatches(k, locals[PATH_PTR], memory) then Falls([1]) else Returns(0)
    decreases |BLOCK| - k
  {
    if k == |BLOCK| {
      ReturnOneRuns(locals, memory);
    } else {
      TailMatchesStep(k, locals[PATH_PTR], memory);
      ByteCheckRuns(k, BLOCK[k], locals, memory);
      ExecConcat(ByteCheck(k, BLOCK[k]), ByteChecks(k + 1), [], locals, memory);
      ByteChecksRun(k + 1, locals, memory);
    }
  }

  /** The fixture returns 1 when the memory range it is handed starts with "/block", and 0 otherwise. */
  lemma BlockPathDecides(locals: seq<nat>, memory: seq<byte>)
    requires |locals| == 4 && locals[PATH_PTR] + locals[PATH_LEN] <= |memory| <= I32
    ensures var p, n := locals[PATH_PTR], locals[PATH_LEN];
            Call(BlockPath(), locals, memory) == Value(if BLOCK <= memory[p..p + n] then 1 else 0)
  {
    var p, n := locals[PATH_PTR], locals[PATH_LEN];
    LengthCheckRuns(6, locals, memory);
    ExecConcat(LengthCheck(6), ByteChecks(0), [], locals, memory);
    if n >= 6 {
      ByteChecksRun(0, locals, memory);
      assert memory[p..p + n][..6] == memory[p..p + 6];
      assert BLOCK[0..] == BLOCK;
    }
  }
}
