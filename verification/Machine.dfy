/**
 The part of the processor that kernel/src/context.rs moves: the callee-saved
 registers, rsp, rip, rflags and word-addressed memory (little-endian eight-byte
 words at the addresses the kernel uses). The registers a call must keep are those
 of section 3.2.1 of the System V AMD64 psABI.
 */
module Machine {
  const WORD_LIMIT := 0x1_0000_0000_0000_0000

  type Word = w: int | 0 <= w < WORD_LIMIT

  /** Sixty-four bit address arithmetic. */
  function Wrap(x: int): (w: Word)
    ensures 0 <= x < WORD_LIMIT ==> w == x
  {
    if 0 <= x < WORD_LIMIT then x else x % WORD_LIMIT
  }

  // ---------------------------------------------------------------------
  // Memory
  // ---------------------------------------------------------------------

  /** A word that was never stored reads as zero. */
  type Memory = map<int, Word>

  function Load(m: Memory, a: int): Word {
    if a in m then m[a] else 0
  }

  /** Consecutive words, the first one at address `a`. */
  function StoreBlock(m: Memory, a: int, ws: seq<Word>): Memory
    decreases |ws|
  {
    if ws == [] then m else StoreBlock(m[a := ws[0]], a + 8, ws[1..])
  }

  /** A block store changes the words of the block and nothing else. */
  lemma {:induction false} StoreBlockLoads(m: Memory, a: int, ws: seq<Word>)
    ensures forall i | 0 <= i < |ws| :: Load(StoreBlock(m, a, ws), a + 8 * i) == ws[i]
    ensures forall b | b < a || a + 8 * |ws| <= b :: Load(StoreBlock(m, a, ws), b) == Load(m, b)
    decreases |ws|
  {
    if ws != [] {
      var m' := m[a := ws[0]];
      StoreBlockLoads(m', a + 8, ws[1..]);
      forall i | 0 <= i < |ws|
        ensures Load(StoreBlock(m, a, ws), a + 8 * i) == ws[i]
      {
        if i > 0 {
          assert Load(StoreBlock(m', a + 8, ws[1..]), (a + 8) + 8 * (i - 1)) == ws[1..][i - 1];
        }
      }
    }
  }

  lemma {:induction false} StoreBlockAt(m: Memory, a: int, ws: seq<Word>, i: nat)
    requires i < |ws|
    ensures Load(StoreBlock(m, a, ws), a + 8 * i) == ws[i]
  {
    StoreBlockLoads(m, a, ws);
  }

  /** `vec![0u8; n]`: every word of the range reads as zero. */
  function Zeroed(m: Memory, lo: int, hi: int): (z: Memory)
    ensures forall a :: Load(z, a) == if lo <= a < hi then 0 else Load(m, a)
  {
    map a | a in m && !(lo <= a < hi) :: m[a]
  }

  /** The two memories agree on the words of [lo, hi). */
  ghost predicate SameRange(m: Memory, m': Memory, lo: int, hi: int) {
    forall a | lo <= a < hi :: Load(m', a) == Load(m, a)
  }

  // ---------------------------------------------------------------------
  // Registers
  // ---------------------------------------------------------------------

  datatype Callee = Callee(rbx: Word, rbp: Word, r12: Word, r13: Word, r14: Word, r15: Word)

  /** `scratch` holds rax, rcx, rdx, rsi, rdi and r8 to r11. */
  datatype Cpu = Cpu(callee: Callee, scratch: seq<Word>, rsp: Word, rip: Word, rflags: Word, mem: Memory)

  const SCRATCH_COUNT := 9
  const IF_BIT := 512

  predicate InterruptsOn(rflags: Word) {
    rflags / IF_BIT % 2 == 1
  }

  /** `cli`, and what an interrupt gate does on entry: bit 9 is cleared and the others are kept. */
  function ClearIf(rflags: Word): (r: Word)
    ensures r / 512 % 2 == 0 && r % 512 == rflags % 512 && r / 1024 == rflags / 1024
    ensures !InterruptsOn(r)
    ensures !InterruptsOn(rflags) ==> r == rflags
  {
    if InterruptsOn(rflags) then rflags - IF_BIT else rflags
  }

  /** `sti`: bit 9 is set and the others are kept. */
  function SetIf(rflags: Word): (r: Word)
    ensures r / 512 % 2 == 1 && r % 512 == rflags % 512 && r / 1024 == rflags / 1024
    ensures InterruptsOn(r)
    ensures InterruptsOn(rflags) ==> r == rflags
  {
    if InterruptsOn(rflags) then rflags else rflags + IF_BIT
  }

  // ---------------------------------------------------------------------
  // The switch frame
  // ---------------------------------------------------------------------

  /** The six words `context_switch` pushes, lowest address first. */
  function SavedWords(c: Callee): seq<Word> {
    [c.r15, c.r14, c.r13, c.r12, c.rbp, c.rbx]
  }

  /** The seven-word frame of a thread that is not running. */
  function FrameWords(c: Callee, ret: Word): (ws: seq<Word>)
    ensures |ws| == 7
  {
    SavedWords(c) + [ret]
  }

  /** The register values a frame at `a` holds. */
  function CalleeAt(m: Memory, a: int): Callee {
    Callee(Load(m, a + 40), Load(m, a + 32), Load(m, a + 24), Load(m, a + 16), Load(m, a + 8), Load(m, a))
  }

  /** A seven-word frame at `a` holds these registers and this return address. */
  ghost predicate FrameAt(m: Memory, a: int, c: Callee, ret: Word) {
    CalleeAt(m, a) == c && Load(m, a + 48) == ret
  }

  lemma {:induction false} StoredFrame(m: Memory, a: int, c: Callee, ret: Word)
    ensures FrameAt(StoreBlock(m, a, FrameWords(c, ret)), a, c, ret)
    ensures forall b | b < a || a + 56 <= b :: Load(StoreBlock(m, a, FrameWords(c, ret)), b) == Load(m, b)
  {
    var ws := FrameWords(c, ret);
    StoreBlockLoads(m, a, ws);
    StoreBlockAt(m, a, ws, 0);
    StoreBlockAt(m, a, ws, 1);
    StoreBlockAt(m, a, ws, 2);
    StoreBlockAt(m, a, ws, 3);
    StoreBlockAt(m, a, ws, 4);
    StoreBlockAt(m, a, ws, 5);
    StoreBlockAt(m, a, ws, 6);
  }

  /** What loading `a` into rsp, the six pops and `ret` make of the processor. */
  function SwitchIn(cpu: Cpu, a: Word): Cpu {
    cpu.(callee := CalleeAt(cpu.mem, a), rip := Load(cpu.mem, a + 48), rsp := Wrap(a + 56))
  }

  /** What `call context_switch` and the six pushes make of memory. */
  function SwitchOutMemory(cpu: Cpu, ret: Word): Memory {
    StoreBlock(cpu.mem, cpu.rsp - 56, FrameWords(cpu.callee, ret))
  }

  /** Switching out leaves an intact frame below rsp and touches nothing at or above rsp. */
  lemma {:induction false} SwitchOutLeavesFrame(cpu: Cpu, ret: Word)
    ensures FrameAt(SwitchOutMemory(cpu, ret), cpu.rsp - 56, cpu.callee, ret)
    ensures var m, c := SwitchOutMemory(cpu, ret), cpu.callee;
      && Load(m, cpu.rsp - 8) == ret && Load(m, cpu.rsp - 16) == c.rbx && Load(m, cpu.rsp - 24) == c.rbp
      && Load(m, cpu.rsp - 32) == c.r12 && Load(m, cpu.rsp - 40) == c.r13 && Load(m, cpu.rsp - 48) == c.r14
      && Load(m, cpu.rsp - 56) == c.r15
    ensures forall a | a < cpu.rsp - 56 || cpu.rsp <= a ::
      Load(SwitchOutMemory(cpu, ret), a) == Load(cpu.mem, a)
  {
    StoredFrame(cpu.mem, cpu.rsp - 56, cpu.callee, ret);
  }

  lemma {:induction false} SwitchInRestores(cpu: Cpu, a: Word, c: Callee, ret: Word)
    requires FrameAt(cpu.mem, a, c, ret) && a + 56 < WORD_LIMIT
    ensures SwitchIn(cpu, a) == cpu.(callee := c, rip := ret, rsp := a + 56)
  {
  }

  /** The two halves are inverse: whatever ran in between, if it left the frame alone, switching
      in gives back the callee-saved registers, the return address and rsp of the switch out. */
  lemma {:induction false} SwitchRoundTrip(cpu: Cpu, ret: Word, later: Cpu)
    requires 56 <= cpu.rsp && SameRange(SwitchOutMemory(cpu, ret), later.mem, cpu.rsp - 56, cpu.rsp)
    ensures SwitchIn(later, cpu.rsp - 56) == later.(callee := cpu.callee, rip := ret, rsp := cpu.rsp)
  {
    SwitchOutLeavesFrame(cpu, ret);
    SwitchInRestores(later, cpu.rsp - 56, cpu.callee, ret);
  }
}
