// The system call filter of the parser process: a generated program for the
// classic packet filter machine, and what that machine answers when it runs it.
module SyscallFilter {
  import opened Wrappers

  type u8 = n: int | 0 <= n < 0x100
  type u16 = n: int | 0 <= n < 0x1_0000
  type u32 = n: int | 0 <= n < 0x1_0000_0000

  datatype Instruction = Instruction(code: u16, jt: u8, jf: u8, k: u32)

  const LOAD_WORD: u16 := 0x20
  const JUMP_EQUAL: u16 := 0x15
  const JUMP_GREATER: u16 := 0x25
  const JUMP_AT_LEAST: u16 := 0x35
  const JUMP: u16 := 0x05
  const RETURN: u16 := 0x06

  const KILL_PROCESS: u32 := 0x8000_0000
  const ERRNO_EPERM: u32 := 0x0005_0001
  const ALLOW: u32 := 0x7fff_0000
  const ALTERNATE_ABI: u32 := 0x4000_0000
  const X86_64: u32 := 0xc000_003e
  const AARCH64: u32 := 0xc000_00b7

  // ---------------------------------------------------------------- the machine

  /** The words of a system call's record: its number, its architecture, then
      the instruction pointer and the arguments. */
  type CallRecord = r: seq<u32> | |r| == 16 witness seq(16, _ => 0)

  datatype Answer = Returns(value: u32) | Faults

  /** One run from `pc`. Jumps only go forward; a jump past the end, a load
      outside the record or an unknown instruction faults. */
  function Run(program: seq<Instruction>, call: CallRecord, pc: nat, accumulator: u32): Answer
    decreases if pc < |program| then |program| - pc else 0
  {
    if pc >= |program| then Faults
    else
      var i := program[pc];
      if i.code == RETURN then Returns(i.k)
      else if i.code == LOAD_WORD then
        if i.k % 4 == 0 && i.k / 4 < |call| then Run(program, call, pc + 1, call[i.k / 4]) else Faults
      else if i.code == JUMP then Run(program, call, pc + 1 + i.k, accumulator)
      else if i.code == JUMP_EQUAL then Run(program, call, pc + 1 + (if accumulator == i.k then i.jt else i.jf), accumulator)
      else if i.code == JUMP_GREATER then Run(program, call, pc + 1 + (if accumulator > i.k then i.jt else i.jf), accumulator)
      else if i.code == JUMP_AT_LEAST then Run(program, call, pc + 1 + (if accumulator >= i.k then i.jt else i.jf), accumulator)
      else Faults
  }

  // -------------------------------------------------------------- the generator

  datatype Target = Amd64 | Arm64 | OtherTarget

  function Prologue(architecture: u32): seq<Instruction> {
    [Instruction(LOAD_WORD, 0, 0, 4),
     Instruction(JUMP_EQUAL, 1, 0, architecture),
     Instruction(RETURN, 0, 0, KILL_PROCESS),
     Instruction(LOAD_WORD, 0, 0, 0),
     Instruction(JUMP_AT_LEAST, 0, 1, ALTERNATE_ABI),
     Instruction(RETURN, 0, 0, KILL_PROCESS)]
  }

  function Checks(denied: seq<u32>): (checks: seq<Instruction>)
    ensures |checks| == 2 * |denied|
    ensures forall i :: 0 <= i < |denied| ==>
                          checks[2 * i] == Instruction(JUMP_EQUAL, 0, 1, denied[i])
                          && checks[2 * i + 1] == Instruction(RETURN, 0, 0, ERRNO_EPERM)
  {
    if denied == [] then []
    else
      var n := |denied| - 1;
      Checks(denied[..n]) + [Instruction(JUMP_EQUAL, 0, 1, denied[n]), Instruction(RETURN, 0, 0, ERRNO_EPERM)]
  }

  function Filter(architecture: u32, denied: seq<u32>): seq<Instruction> {
    Prologue(architecture) + Checks(denied) + [Instruction(RETURN, 0, 0, ALLOW)]
  }

  /** The verdict that the parser's isolation is for. */
  function Verdict(architecture: u32, denied: seq<u32>, call: CallRecord): u32 {
    if call[1] != architecture then KILL_PROCESS
    else if call[0] >= ALTERNATE_ABI then KILL_PROCESS
    else if call[0] in denied then ERRNO_EPERM
    else ALLOW
  }

  method Configure(target: Target, denied: seq<u32>) returns (filter: Option<seq<Instruction>>)
    ensures filter.None? <==> target == OtherTarget
    ensures filter.Some? ==>
              && filter.value == Filter(if target == Amd64 then 0xc000_003e else 0xc000_00b7, denied)
              && (forall call :: Run(filter.value, call, 0, 0)
                                 == Returns(Verdict(if target == Amd64 then 0xc000_003e else 0xc000_00b7, denied, call)))
              && (Accepted(Installed(filter.value)) <==> |denied| <= 2044)
  {
    if target == OtherTarget {
      return None;
    }
    var architecture := if target == Amd64 then X86_64 else AARCH64;
    var program := Prologue(architecture);
    for i := 0 to |denied|
      invariant program == Prologue(architecture) + Checks(denied[..i])
    {
      assert denied[..i + 1][..i] == denied[..i];
      program := program + [Instruction(JUMP_EQUAL, 0, 1, denied[i])];
      program := program + [Instruction(RETURN, 0, 0, ERRNO_EPERM)];
    }
    assert denied[..|denied|] == denied;
    program := program + [Instruction(RETURN, 0, 0, ALLOW)];
    forall call: CallRecord ensures Run(program, call, 0, 0) == Returns(Verdict(architecture, denied, call)) {
      FilterGivesTheVerdict(architecture, denied, call);
    }
    InstalledGivesTheVerdict(architecture, denied);
    return Some(program);
  }

  // -------------------------------------------------------------------- meaning

  lemma FilterLayout(architecture: u32, denied: seq<u32>)
    ensures var program := Filter(architecture, denied);
            && |program| == 2 * |denied| + 7
            && (forall i :: 0 <= i < |denied| ==>
                  program[6 + 2 * i] == Instruction(JUMP_EQUAL, 0, 1, denied[i])
                  && program[7 + 2 * i] == Instruction(RETURN, 0, 0, ERRNO_EPERM))
            && program[2 * |denied| + 6] == Instruction(RETURN, 0, 0, ALLOW)
  {
  }

  lemma {:induction false} ChecksFrom(architecture: u32, denied: seq<u32>, call: CallRecord, i: nat)
    requires i <= |denied|
    ensures Run(Filter(architecture, denied), call, 6 + 2 * i, call[0])
         == Returns(if call[0] in denied[i..] then ERRNO_EPERM else ALLOW)
    decreases |denied| - i
  {
    FilterLayout(architecture, denied);
    var program := Filter(architecture, denied);
    if i < |denied| {
      assert denied[i..] == [denied[i]] + denied[i + 1..];
      if call[0] != denied[i] {
        ChecksFrom(architecture, denied, call, i + 1);
        assert 6 + 2 * i + 1 + 1 == 6 + 2 * (i + 1);
      } else {
        assert program[7 + 2 * i] == Instruction(RETURN, 0, 0, ERRNO_EPERM);
      }
    }
  }

  lemma PrologueRuns(program: seq<Instruction>, architecture: u32, call: CallRecord)
    requires Prologue(architecture) <= program
    ensures Run(program, call, 0, 0)
         == if call[1] != architecture || call[0] >= ALTERNATE_ABI then Returns(KILL_PROCESS) else Run(program, call, 6, call[0])
  {
    assert forall i :: 0 <= i < 6 ==> program[i] == Prologue(architecture)[i];
    PrologueEnd(program, architecture, call);
    assert program[0] == Instruction(LOAD_WORD, 0, 0, 4) && program[1] == Instruction(JUMP_EQUAL, 1, 0, architecture);
    assert program[2] == Instruction(RETURN, 0, 0, KILL_PROCESS);
    assert Run(program, call, 1, call[1]) == if call[1] == architecture then Run(program, call, 3, call[1]) else Run(program, call, 2, call[1]);
  }

  lemma PrologueEnd(program: seq<Instruction>, architecture: u32, call: CallRecord)
    requires Prologue(architecture) <= program
    ensures Run(program, call, 3, call[1]) == if call[0] >= ALTERNATE_ABI then Returns(KILL_PROCESS) else Run(program, call, 6, call[0])
  {
    assert forall i :: 0 <= i < 6 ==> program[i] == Prologue(architecture)[i];
    assert Run(program, call, 4, call[0]) == if call[0] >= ALTERNATE_ABI then Run(program, call, 5, call[0]) else Run(program, call, 6, call[0]);
    assert program[3] == Instruction(LOAD_WORD, 0, 0, 0) && program[4] == Instruction(JUMP_AT_LEAST, 0, 1, ALTERNATE_ABI);
    assert program[5] == Instruction(RETURN, 0, 0, KILL_PROCESS);
  }

  /** For any list of denied calls the machine never faults: it kills on a
      foreign architecture or an alternate calling convention, refuses exactly
      the listed calls and allows the rest. */
  lemma FilterGivesTheVerdict(architecture: u32, denied: seq<u32>, call: CallRecord)
    ensures Run(Filter(architecture, denied), call, 0, 0) == Returns(Verdict(architecture, denied, call))
  {
    var program := Filter(architecture, denied);
    assert Prologue(architecture) <= program;
    PrologueRuns(program, architecture, call);
    ChecksFrom(architecture, denied, call, 0);
    assert denied[0..] == denied;
  }

  // ------------------------------------------------------------- installation

  const MAXIMUM_INSTRUCTIONS := 4096

  /** What Linux asks of a single instruction before it takes a filter: loads
      stay inside the record, jumps inside the program. The codes are those
      that the filter is made of. */
  predicate AcceptedAt(program: seq<Instruction>, pc: nat)
    requires pc < |program|
  {
    var i := program[pc];
    if i.code == RETURN then true
    else if i.code == LOAD_WORD then i.k % 4 == 0 && i.k < 64
    else if i.code == JUMP then pc + 1 + i.k < |program|
    else
      && (i.code == JUMP_EQUAL || i.code == JUMP_GREATER || i.code == JUMP_AT_LEAST)
      && pc + 1 + i.jt < |program|
      && pc + 1 + i.jf < |program|
  }

  /** The kernel's answer to PR_SET_SECCOMP; a refused program is not installed
      and the parser is not started. */
  predicate Accepted(program: seq<Instruction>) {
    && 0 < |program| <= MAXIMUM_INSTRUCTIONS
    && (forall pc :: 0 <= pc < |program| ==> AcceptedAt(program, pc))
    && program[|program| - 1].code == RETURN
  }

  lemma {:induction false} AcceptedRunsOn(program: seq<Instruction>, call: CallRecord, pc: nat, accumulator: u32)
    requires Accepted(program) && pc < |program|
    ensures Run(program, call, pc, accumulator).Returns?
    decreases |program| - pc
  {
    assert AcceptedAt(program, pc);
    var i := program[pc];
    if i.code == LOAD_WORD {
      assert pc + 1 < |program|;
      AcceptedRunsOn(program, call, pc + 1, call[i.k / 4]);
    } else if i.code == JUMP {
      AcceptedRunsOn(program, call, pc + 1 + i.k, accumulator);
    } else if i.code != RETURN {
      AcceptedRunsOn(program, call, pc + 1 + i.jt, accumulator);
      AcceptedRunsOn(program, call, pc + 1 + i.jf, accumulator);
    }
  }

  /** The check is sound: no accepted program, of whatever origin, ever faults. */
  lemma AcceptedNeverFaults(program: seq<Instruction>, call: CallRecord)
    requires Accepted(program)
    ensures Run(program, call, 0, 0).Returns?
  {
    AcceptedRunsOn(program, call, 0, 0);
  }

  /** The length handed to the kernel is cast to sixteen bits. */
  function Installed(program: seq<Instruction>): seq<Instruction> {
    program[..|program| % 0x1_0000]
  }

  /** A program cut off before its end is refused: what the cut leaves ends in
      a load or a jump, or jumps past its end. */
  lemma CutIsRefused(architecture: u32, denied: seq<u32>, m: nat)
    requires m < 2 * |denied| + 7 && m % 2 == 1
    ensures !Accepted(Filter(architecture, denied)[..m])
  {
    FilterLayout(architecture, denied);
    var whole := Filter(architecture, denied);
    var program := whole[..m];
    assert forall i :: 0 <= i < 6 ==> whole[i] == Prologue(architecture)[i];
    if m == 3 {
      assert program[1] == Instruction(JUMP_EQUAL, 1, 0, architecture);
      assert !AcceptedAt(program, 1);
    } else if m > 6 {
      var i := (m - 7) / 2;
      assert program[m - 1] == whole[6 + 2 * i];
    }
  }

  lemma WholeIsAccepted(architecture: u32, denied: seq<u32>)
    requires |denied| <= 2044
    ensures Accepted(Filter(architecture, denied))
  {
    FilterLayout(architecture, denied);
    var program := Filter(architecture, denied);
    forall pc | 0 <= pc < |program| ensures AcceptedAt(program, pc) {
      if pc < 6 {
        assert program[pc] == Prologue(architecture)[pc];
      } else if pc < |program| - 1 {
        var i := (pc - 6) / 2;
        assert pc == 6 + 2 * i || pc == 7 + 2 * i;
      }
    }
  }

  /** However long the list: what is handed to the kernel is accepted exactly
      up to 2,044 denied calls, and whatever is accepted is the whole filter and
      gives the verdict. A longer list never leaves a weaker filter in place. */
  lemma InstalledGivesTheVerdict(architecture: u32, denied: seq<u32>)
    ensures Accepted(Installed(Filter(architecture, denied))) <==> |denied| <= 2044
    ensures Accepted(Installed(Filter(architecture, denied))) ==>
              forall call :: Run(Installed(Filter(architecture, denied)), call, 0, 0) == Returns(Verdict(architecture, denied, call))
  {
    FilterLayout(architecture, denied);
    var program := Filter(architecture, denied);
    if |program| >= 0x1_0000 {
      assert (|program| % 0x1_0000) % 2 == 1;
      CutIsRefused(architecture, denied, |program| % 0x1_0000);
    } else {
      assert Installed(program) == program;
      if |denied| <= 2044 {
        WholeIsAccepted(architecture, denied);
      }
      forall call: CallRecord ensures Run(program, call, 0, 0) == Returns(Verdict(architecture, denied, call)) {
        FilterGivesTheVerdict(architecture, denied, call);
      }
    }
  }

  // -------------------------------------------------------------------- in detail

  /** The program for one denied call, word for word. */
  lemma OneCallFilter()
    ensures Filter(0xc000_003e, [41])
         == [Instruction(0x20, 0, 0, 4), Instruction(0x15, 1, 0, 0xc000_003e), Instruction(0x06, 0, 0, 0x8000_0000),
             Instruction(0x20, 0, 0, 0), Instruction(0x35, 0, 1, 0x4000_0000), Instruction(0x06, 0, 0, 0x8000_0000),
             Instruction(0x15, 0, 1, 41), Instruction(0x06, 0, 0, 0x0005_0001), Instruction(0x06, 0, 0, 0x7fff_0000)]
  {
    assert [41][..0] == [];
    assert Checks([41]) == [Instruction(0x15, 0, 1, 41), Instruction(0x06, 0, 0, 0x0005_0001)];
  }

  /** The four answers, with their numbers: the process is killed for a foreign
      architecture or an alternate calling convention, a listed call is refused
      with EPERM, every other call goes through. */
  lemma VerdictMeans(architecture: u32, denied: seq<u32>, call: CallRecord)
    ensures Verdict(architecture, denied, call) == 0x8000_0000 <==> call[1] != architecture || call[0] >= 0x4000_0000
    ensures Verdict(architecture, denied, call) == 0x0005_0001
            <==> call[1] == architecture && call[0] < 0x4000_0000 && exists i :: 0 <= i < |denied| && denied[i] == call[0]
    ensures Verdict(architecture, denied, call) in {0x8000_0000, 0x0005_0001, 0x7fff_0000}
  {
  }
}
