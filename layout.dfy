/**
 * Layouts the thread-creation routine writes: the initial exception stack
 * frame (ESF) near the top of a thread's stack, the thread control structure
 * (TCS) at its base, and the values stored in their fields. Field positions
 * are word offsets from the start of the structure.
 */
module Layout {
  import opened Memory

  // The ESF is the ARMv7-M basic exception frame (section B1.5.6 of the
  // ARMv7-M Architecture Reference Manual): eight words, r0 (a1) at the
  // lowest address, that is at the frame's own address. Word offsets of the
  // other fields:
  const ESF_A2: nat := 1
  const ESF_A3: nat := 2
  const ESF_A4: nat := 3
  const ESF_IP: nat := 4
  const ESF_LR: nat := 5
  const ESF_PC: nat := 6
  const ESF_XPSR: nat := 7
  const ESF_WORDS: nat := 8
  /** sizeof(struct __esf) */
  const ESF_SIZE: nat := ESF_WORDS * WORD_SIZE

  /** xPSR with every flag clear except the Thumb execution-state bit (bit 24). */
  const XPSR_THUMB: word := 0x0100_0000

  // Word offsets of the TCS fields thread creation writes, in the order of
  // the fields of `struct tcs`: link, flags, basepri, prio, custom_data, the
  // preemptive register save area (v1..v8, then psp), next_thread, and the
  // timeout bookkeeping owned by the timeout subsystem.
  const TCS_LINK: nat := 0
  const TCS_FLAGS: nat := 1
  const TCS_BASEPRI: nat := 2
  const TCS_PRIO: nat := 3
  const TCS_CUSTOM_DATA: nat := 4
  const TCS_PSP: nat := 13
  const TCS_NEXT_THREAD: nat := 14
  const TCS_TIMEOUT: nat := 15
  const TIMEOUT_WORDS: nat := 4
  const TCS_WORDS: nat := 19
  /** sizeof(struct tcs) */
  const TCS_SIZE: nat := TCS_WORDS * WORD_SIZE

  // Bits of the TCS flags field.
  const FIBER: word := 0x000
  const TASK: word := 0x001
  const PREEMPTIBLE: word := 0x020

  /** Priority passed for a task; any other priority makes a fiber. */
  const TASK_PRIORITY: int := -1

  // Range of a C `int`.
  const INT_MIN: int := -0x8000_0000
  const INT_MAX: int := 0x7fff_ffff

  /** Whether the single-bit mask `bit` is set in `flags`. */
  predicate HasFlag(flags: word, bit: word)
    requires bit > 0
  {
    (flags / bit) % 2 == 1
  }

  /**
   * The flags of a new thread: a task, preemptible, when the priority is the
   * task sentinel; a fiber otherwise.
   */
  function ThreadFlags(priority: int): (f: word)
    ensures f == FIBER || f == TASK + PREEMPTIBLE
    ensures HasFlag(f, TASK) <==> priority == TASK_PRIORITY
    ensures HasFlag(f, PREEMPTIBLE) <==> priority == TASK_PRIORITY
  {
    // TASK and PREEMPTIBLE are distinct bits, so their bitwise or is their sum
    if priority == TASK_PRIORITY then TASK + PREEMPTIBLE else FIBER
  }

  /** The signed value a 32-bit two's-complement word holds. */
  function WordToInt(w: word): int
  {
    if w <= INT_MAX then w else w - 0x1_0000_0000
  }

  /** The 32-bit two's-complement representation of a C `int`. */
  function IntToWord(p: int): (w: word)
    requires INT_MIN <= p <= INT_MAX
    ensures WordToInt(w) == p
  {
    if p < 0 then p + 0x1_0000_0000 else p
  }

  /**
   * The Thumb address of a routine as the ESF expects it: `t & 0xfffffffe`,
   * bit 0 cleared and every other bit kept.
   */
  function ThumbPc(t: word): (pc: word)
    ensures pc % 2 == 0
    ensures pc / 2 == t / 2
  {
    t / 2 * 2
  }

  /** A positive multiple of `a` is at least `a`. */
  lemma {:induction false} MulAtLeast(d: int, a: int)
    requires d >= 1 && a > 0
    ensures d * a >= a
    decreases d
  {
    if d > 1 {
      MulAtLeast(d - 1, a);
      assert d * a == (d - 1) * a + a;
    }
  }

  /** Euclidean remainders are unique. */
  lemma ModUnique(x: int, q: int, r: int, a: int)
    requires a > 0 && 0 <= r < a && x == q * a + r
    ensures x % a == r
  {
    var q', r' := x / a, x % a;
    assert (q - q') * a == r' - r;
    if q - q' >= 1 {
      MulAtLeast(q - q', a);
    } else if q' - q >= 1 {
      MulAtLeast(q' - q, a);
    }
  }

  /** A multiple of `a` leaves no remainder. */
  lemma MultipleMod(q: int, a: nat)
    requires a > 0
    ensures (q * a) % a == 0
  {
    ModUnique(q * a, q, 0, a);
  }

  /** The difference of two multiples of `a` is a multiple of `a`. */
  lemma DifferenceMod(x: nat, y: nat, a: nat)
    requires a > 0 && x % a == 0 && y % a == 0 && y <= x
    ensures (x - y) % a == 0
  {
    assert x == (x / a) * a && y == (y / a) * a;
    assert x - y == (x / a - y / a) * a;
    MultipleMod(x / a - y / a, a);
  }

  /** A multiple of a multiple of `d` is a multiple of `d`. */
  lemma MultipleOfMultiple(x: nat, a: nat, d: nat)
    requires d > 0 && a > 0 && x % a == 0 && a % d == 0
    ensures x % d == 0
  {
    assert x == (x / a) * a && a == (a / d) * d;
    assert x == ((x / a) * (a / d)) * d;
    MultipleMod((x / a) * (a / d), d);
  }

  /**
   * ROUND_DOWN(x, align): `x` with its remainder modulo `align` removed (for
   * a power of two `align`, `x` with its low bits cleared). What this is, the
   * largest multiple of `align` not above `x`, is RoundDownIsFloor.
   */
  function RoundDown(x: nat, align: nat): (r: int)
    requires align > 0
    ensures 0 <= r <= x < r + align
  {
    x - x % align
  }

  /** ROUND_DOWN gives the largest multiple of `align` that is not above `x`. */
  lemma RoundDownIsFloor(x: nat, align: nat)
    requires align > 0
    ensures RoundDown(x, align) % align == 0
    ensures 0 <= RoundDown(x, align) <= x < RoundDown(x, align) + align
  {
    assert x - x % align == (x / align) * align;
    MultipleMod(x / align, align);
  }

  /**
   * What a caller's stack region of `size` words at address `base` must
   * satisfy: it is word aligned and lies in the 32-bit address space, the
   * stack alignment is a whole number of words, and below the region's
   * rounded-down end there is room for a frame that does not overlap the TCS
   * at its base.
   */
  predicate Carvable(base: word, size: nat, align: nat)
  {
    align > 0 && align % WORD_SIZE == 0 && base % WORD_SIZE == 0 &&
    base + size * WORD_SIZE < 0x1_0000_0000 &&
    RoundDown(base + size * WORD_SIZE, align) >= base + TCS_SIZE + ESF_SIZE
  }

  /**
   * Address of the initial context: STACK_ROUND_DOWN(stackEnd) minus
   * sizeof(struct __esf), for the stack of `size` words at `base`. The frame
   * lies above the TCS and inside the region, at a whole number of words
   * from its base.
   */
  function InitialContext(base: word, size: nat, align: nat): (p: word)
    requires Carvable(base, size, align)
    ensures base + TCS_SIZE <= p
    ensures p + ESF_SIZE <= base + size * WORD_SIZE
    ensures (p - base) % WORD_SIZE == 0
  {
    var top := RoundDown(base + size * WORD_SIZE, align);
    RoundDownIsFloor(base + size * WORD_SIZE, align);
    MultipleOfMultiple(top, align, WORD_SIZE);
    DifferenceMod(top, base, WORD_SIZE);
    DifferenceMod(top - base, ESF_SIZE, WORD_SIZE);
    top - ESF_SIZE
  }

  /** Word offset of the initial context from the stack base. */
  function ContextOffset(base: word, size: nat, align: nat): (off: nat)
    requires Carvable(base, size, align)
    ensures TCS_WORDS <= off
    ensures off + ESF_WORDS <= size
    ensures base + off * WORD_SIZE == InitialContext(base, size, align)
  {
    (InitialContext(base, size, align) - base) / WORD_SIZE
  }

  /**
   * The initial context ends at the highest aligned address not above the
   * end of the stack; when the alignment divides the frame size (a power of
   * two up to 32 bytes) the context itself is aligned.
   */
  lemma ContextPlacement(base: word, size: nat, align: nat)
    requires Carvable(base, size, align)
    ensures (InitialContext(base, size, align) + ESF_SIZE) % align == 0
    ensures base + size * WORD_SIZE - (InitialContext(base, size, align) + ESF_SIZE) < align
    ensures ESF_SIZE % align == 0 ==> InitialContext(base, size, align) % align == 0
  {
    var top := RoundDown(base + size * WORD_SIZE, align);
    RoundDownIsFloor(base + size * WORD_SIZE, align);
    if ESF_SIZE % align == 0 {
      DifferenceMod(top, ESF_SIZE, align);
    }
  }
}
