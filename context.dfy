/**
 * New thread creation for ARM Cortex-M: `_new_thread` turns a block of
 * caller-supplied stack memory into a thread by writing an initial exception
 * stack frame near its top and a thread control structure (TCS) at its base,
 * and `_thread_monitor_init` pushes the new TCS onto the kernel's list of all
 * threads.
 *
 * A stack region is an array of words whose element 0 is at address `base`;
 * the TCS and the frame are overlays at word offsets into it.
 */
module Context {
  import opened Memory
  import opened Layout

  /**
   * A build of the kernel: CONFIG_INIT_STACKS, CONFIG_THREAD_CUSTOM_DATA,
   * CONFIG_THREAD_MONITOR, and the architecture's stack alignment STACK_ALIGN.
   */
  datatype Config = Config(
    initStacks: bool,
    threadCustomData: bool,
    threadMonitor: bool,
    stackAlign: nat)

  /** The byte a pre-poisoned stack is filled with. */
  const STACK_POISON: byte := 0xaa

  /** Word `k` is a frame field that `_new_thread` writes (a1..a4, pc, xpsr). */
  predicate InFrameField(ctx: nat, k: nat)
  {
    k == ctx || k == ctx + ESF_A2 || k == ctx + ESF_A3 || k == ctx + ESF_A4 ||
    k == ctx + ESF_PC || k == ctx + ESF_XPSR
  }

  /** Word `k` is a TCS field that thread creation writes in build `cfg`. */
  predicate InTcsField(cfg: Config, k: nat)
  {
    k == TCS_LINK || k == TCS_FLAGS || k == TCS_PRIO ||
    (cfg.threadCustomData && k == TCS_CUSTOM_DATA) ||
    k == TCS_PSP || k == TCS_BASEPRI ||
    TCS_TIMEOUT <= k < TCS_TIMEOUT + TIMEOUT_WORDS ||
    (cfg.threadMonitor && k == TCS_NEXT_THREAD)
  }

  /** Word `k` of a region whose frame is at word offset `ctx` is written by thread creation. */
  predicate Written(cfg: Config, ctx: nat, k: nat)
  {
    InFrameField(ctx, k) || InTcsField(cfg, k)
  }

  /** The region after the optional `memset(pStackMem, 0xaa, stackSize)`. */
  function Poisoned(cfg: Config, s: seq<word>): (r: seq<word>)
    ensures |r| == |s|
    ensures forall k {:trigger r[k]} :: 0 <= k < |s| ==> r[k] == if cfg.initStacks then Splat(STACK_POISON) else s[k]
  {
    if cfg.initStacks then Fill(|s|, Splat(STACK_POISON)) else s
  }

  /**
   * The region after the initial context at word offset `ctx` is written: it
   * resumes in the trampoline `threadEntry`, in Thumb state, with the entry
   * point and its three parameters in r0..r3.
   */
  function InitialFrame(s: seq<word>, ctx: nat, threadEntry: word,
                        entry: word, p1: word, p2: word, p3: word): (r: seq<word>)
    requires ctx + ESF_WORDS <= |s|
    ensures |r| == |s|
    ensures r[ctx + ESF_PC] == ThumbPc(threadEntry)
    ensures r[ctx] == entry
    ensures r[ctx + ESF_A2] == p1
    ensures r[ctx + ESF_A3] == p2
    ensures r[ctx + ESF_A4] == p3
    ensures r[ctx + ESF_XPSR] == XPSR_THUMB
    ensures forall k {:trigger r[k]} :: 0 <= k < |s| && !InFrameField(ctx, k) ==> r[k] == s[k]
  {
    s[ctx + ESF_PC := ThumbPc(threadEntry)]
     [ctx := entry]
     [ctx + ESF_A2 := p1]
     [ctx + ESF_A3 := p2]
     [ctx + ESF_A4 := p3]
     [ctx + ESF_XPSR := XPSR_THUMB]
  }

  /**
   * The region after the TCS at its base is stamped: off every wait queue,
   * classified by its priority, the priority itself, no custom data, the
   * initial context as saved stack pointer, and no BASEPRI restriction.
   */
  function StampedTcs(cfg: Config, s: seq<word>, priority: int, psp: word): (r: seq<word>)
    requires TCS_WORDS <= |s|
    requires INT_MIN <= priority <= INT_MAX
    ensures |r| == |s|
    ensures r[TCS_LINK] == NULL
    ensures r[TCS_FLAGS] == ThreadFlags(priority)
    ensures WordToInt(r[TCS_PRIO]) == priority
    ensures r[TCS_CUSTOM_DATA] == if cfg.threadCustomData then NULL else s[TCS_CUSTOM_DATA]
    ensures r[TCS_PSP] == psp
    ensures r[TCS_BASEPRI] == 0
    ensures forall k {:trigger r[k]} :: 0 <= k < |s| && !InTcsField(cfg, k) ==> r[k] == s[k]
  {
    var s3 := s[TCS_LINK := NULL][TCS_FLAGS := ThreadFlags(priority)][TCS_PRIO := IntToWord(priority)];
    var s4 := if cfg.threadCustomData then s3[TCS_CUSTOM_DATA := NULL] else s3;
    s4[TCS_PSP := psp][TCS_BASEPRI := 0]
  }

  /**
   * The stack region `s` after `_new_thread` has filled it in, before the
   * thread is put on the monitor list: optionally poisoned, the initial
   * context at word offset `ctx`, the TCS stamped with `pInitCtx` as its
   * saved stack pointer, and `timeoutState`, what the timeout subsystem's
   * initialiser leaves in the TCS's timeout bookkeeping.
   */
  function PreparedImage(cfg: Config, s: seq<word>, ctx: nat, pInitCtx: word,
                         entry: word, p1: word, p2: word, p3: word,
                         priority: int, threadEntry: word,
                         timeoutState: seq<word>): (r: seq<word>)
    requires TCS_WORDS <= ctx && ctx + ESF_WORDS <= |s|
    requires INT_MIN <= priority <= INT_MAX
    requires |timeoutState| == TIMEOUT_WORDS
    ensures |r| == |s|
  {
    var s1 := Poisoned(cfg, s);
    var s2 := InitialFrame(s1, ctx, threadEntry, entry, p1, p2, p3);
    var s3 := StampedTcs(cfg, s2, priority, pInitCtx);
    WriteWords(s3, TCS_TIMEOUT, timeoutState)
  }

  /**
   * The stack region `s` after `_new_thread` in build `cfg`, `prevHead` being
   * the head of the thread list before the call. What the region then holds
   * is stated by the lemmas NewThreadResume, NewThreadArguments,
   * NewThreadTcs and NewThreadOtherWords.
   */
  function NewThreadImage(cfg: Config, s: seq<word>, ctx: nat, pInitCtx: word,
                          entry: word, p1: word, p2: word, p3: word,
                          priority: int, threadEntry: word,
                          timeoutState: seq<word>, prevHead: word): (r: seq<word>)
    requires TCS_WORDS <= ctx && ctx + ESF_WORDS <= |s|
    requires INT_MIN <= priority <= INT_MAX
    requires |timeoutState| == TIMEOUT_WORDS
    ensures |r| == |s|
  {
    var s4 := PreparedImage(cfg, s, ctx, pInitCtx, entry, p1, p2, p3, priority, threadEntry, timeoutState);
    if cfg.threadMonitor then s4[TCS_NEXT_THREAD := prevHead] else s4
  }

  /**
   * The initial context of a new thread resumes the trampoline, with bit 0 of
   * its address cleared, in Thumb state and with every other xPSR bit clear.
   */
  lemma NewThreadResume(cfg: Config, s: seq<word>, ctx: nat, pInitCtx: word,
                        entry: word, p1: word, p2: word, p3: word,
                        priority: int, threadEntry: word,
                        timeoutState: seq<word>, prevHead: word)
    requires TCS_WORDS <= ctx && ctx + ESF_WORDS <= |s|
    requires INT_MIN <= priority <= INT_MAX
    requires |timeoutState| == TIMEOUT_WORDS
    ensures var r := NewThreadImage(cfg, s, ctx, pInitCtx, entry, p1, p2, p3, priority, threadEntry, timeoutState, prevHead);
            r[ctx + ESF_PC] == ThumbPc(threadEntry) &&
            r[ctx + ESF_XPSR] == XPSR_THUMB
  {
  }

  /**
   * The initial context of a new thread holds the entry point and its three
   * parameters in r0..r3, in that order.
   */
  lemma NewThreadArguments(cfg: Config, s: seq<word>, ctx: nat, pInitCtx: word,
                           entry: word, p1: word, p2: word, p3: word,
                           priority: int, threadEntry: word,
                           timeoutState: seq<word>, prevHead: word)
    requires TCS_WORDS <= ctx && ctx + ESF_WORDS <= |s|
    requires INT_MIN <= priority <= INT_MAX
    requires |timeoutState| == TIMEOUT_WORDS
    ensures var r := NewThreadImage(cfg, s, ctx, pInitCtx, entry, p1, p2, p3, priority, threadEntry, timeoutState, prevHead);
            r[ctx] == entry &&
            r[ctx + ESF_A2] == p1 &&
            r[ctx + ESF_A3] == p2 &&
            r[ctx + ESF_A4] == p3
  {
  }

  /**
   * The TCS at the base of a new thread's stack: no wait-queue link, TASK and
   * PREEMPTIBLE exactly when the priority is -1 (FIBER otherwise), the
   * priority, no custom data, the initial context as saved process stack
   * pointer, no BASEPRI mask, the timeout subsystem's state, and, with the
   * monitor, the previous list head as next thread.
   */
  lemma NewThreadTcs(cfg: Config, s: seq<word>, ctx: nat, pInitCtx: word,
                     entry: word, p1: word, p2: word, p3: word,
                     priority: int, threadEntry: word,
                     timeoutState: seq<word>, prevHead: word)
    requires TCS_WORDS <= ctx && ctx + ESF_WORDS <= |s|
    requires INT_MIN <= priority <= INT_MAX
    requires |timeoutState| == TIMEOUT_WORDS
    ensures var r := NewThreadImage(cfg, s, ctx, pInitCtx, entry, p1, p2, p3, priority, threadEntry, timeoutState, prevHead);
            r[TCS_LINK] == NULL &&
            r[TCS_FLAGS] == ThreadFlags(priority) &&
            WordToInt(r[TCS_PRIO]) == priority &&
            (cfg.threadCustomData ==> r[TCS_CUSTOM_DATA] == NULL) &&
            r[TCS_PSP] == pInitCtx &&
            r[TCS_BASEPRI] == 0 &&
            r[TCS_TIMEOUT..TCS_TIMEOUT + TIMEOUT_WORDS] == timeoutState &&
            (cfg.threadMonitor ==> r[TCS_NEXT_THREAD] == prevHead)
  {
    var s4 := PreparedImage(cfg, s, ctx, pInitCtx, entry, p1, p2, p3, priority, threadEntry, timeoutState);
    var r := NewThreadImage(cfg, s, ctx, pInitCtx, entry, p1, p2, p3, priority, threadEntry, timeoutState, prevHead);
    assert r[TCS_TIMEOUT..TCS_TIMEOUT + TIMEOUT_WORDS] == s4[TCS_TIMEOUT..TCS_TIMEOUT + TIMEOUT_WORDS];
  }

  /**
   * Every word of a new thread's stack outside the fields written holds the
   * poison byte 0xaa in each of its bytes in a build with CONFIG_INIT_STACKS,
   * and is unchanged in any other build.
   */
  lemma NewThreadOtherWords(cfg: Config, s: seq<word>, ctx: nat, pInitCtx: word,
                            entry: word, p1: word, p2: word, p3: word,
                            priority: int, threadEntry: word,
                            timeoutState: seq<word>, prevHead: word, k: nat)
    requires TCS_WORDS <= ctx && ctx + ESF_WORDS <= |s|
    requires INT_MIN <= priority <= INT_MAX
    requires |timeoutState| == TIMEOUT_WORDS
    requires k < |s| && !Written(cfg, ctx, k)
    ensures NewThreadImage(cfg, s, ctx, pInitCtx, entry, p1, p2, p3, priority, threadEntry, timeoutState, prevHead)[k] ==
            if cfg.initStacks then Splat(STACK_POISON) else s[k]
  {
  }

  /**
   * A task created with entry point `entry` and arguments 1, 2, 3: its TCS
   * classifies it as a preemptible task of priority -1, and its initial
   * context's argument registers r0..r3 hold `entry`, 1, 2, 3.
   */
  lemma TaskScenario(cfg: Config, s: seq<word>, ctx: nat, pInitCtx: word,
                     entry: word, threadEntry: word, timeoutState: seq<word>, prevHead: word)
    requires TCS_WORDS <= ctx && ctx + ESF_WORDS <= |s|
    requires |timeoutState| == TIMEOUT_WORDS
    ensures var r := NewThreadImage(cfg, s, ctx, pInitCtx, entry, 1, 2, 3, TASK_PRIORITY, threadEntry, timeoutState, prevHead);
            HasFlag(r[TCS_FLAGS], TASK) && HasFlag(r[TCS_FLAGS], PREEMPTIBLE) &&
            WordToInt(r[TCS_PRIO]) == -1 &&
            r[ctx] == entry && r[ctx + ESF_A2] == 1 && r[ctx + ESF_A3] == 2 && r[ctx + ESF_A4] == 3
  {
    NewThreadTcs(cfg, s, ctx, pInitCtx, entry, 1, 2, 3, TASK_PRIORITY, threadEntry, timeoutState, prevHead);
    NewThreadArguments(cfg, s, ctx, pInitCtx, entry, 1, 2, 3, TASK_PRIORITY, threadEntry, timeoutState, prevHead);
  }

  /**
   * The threads met by following `next_thread` links from the TCS at address
   * `t`, visiting at most `n`; `next` gives each known TCS's `next_thread`,
   * and the walk stops at NULL or at an address it does not know.
   */
  function Walk(next: map<word, word>, t: word, n: nat): (r: seq<word>)
    ensures |r| <= n
    ensures forall i :: 0 <= i < |r| ==> r[i] != NULL && r[i] in next
    ensures t != NULL && t in next && n > 0 ==> r != [] && r[0] == t
    decreases n
  {
    if t == NULL || t !in next || n == 0 then [] else [t] + Walk(next, next[t], n - 1)
  }

  /** The links `next` chain the addresses of `list` in order and end in NULL. */
  ghost predicate Chained(list: seq<word>, next: map<word, word>)
  {
    forall i :: 0 <= i < |list| ==>
      list[i] != NULL && list[i] in next &&
      next[list[i]] == if i + 1 < |list| then list[i + 1] else NULL
  }

  /** Walking a chained list from its `i`-th element visits the rest of the list. */
  lemma {:induction false} WalkSuffix(list: seq<word>, next: map<word, word>, i: nat)
    requires Chained(list, next) && i <= |list|
    ensures Walk(next, if i < |list| then list[i] else NULL, |list| - i) == list[i..]
    decreases |list| - i
  {
    if i < |list| {
      WalkSuffix(list, next, i + 1);
      assert list[i..] == [list[i]] + list[i + 1..];
    }
  }

  /** Walking a chained list from its head visits exactly the list. */
  lemma WalkChained(list: seq<word>, next: map<word, word>)
    requires Chained(list, next)
    ensures Walk(next, if list == [] then NULL else list[0], |list|) == list
  {
    WalkSuffix(list, next, 0);
  }

  /**
   * The kernel state block `_nanokernel`, of which this model keeps the head
   * of the thread monitor list. The list's links are the `next_thread` fields
   * of the TCSs, inside the threads' own stack regions.
   */
  class Nanokernel {
    /** Head of the list of all threads; NULL when there is none. */
    var threads: word

    /** The TCS addresses on the list, most recently created first. */
    ghost var Contents: seq<word>
    /** The stack region holding each TCS of `Contents`, the TCS at its base. */
    ghost var Stacks: seq<array<word>>

    /**
     * `threads` and the `next_thread` fields link the TCSs of `Contents` in
     * order, ending in NULL; no thread appears twice.
     */
    ghost predicate Valid()
      reads this, Stacks
    {
      |Stacks| == |Contents| &&
      threads == (if Contents == [] then NULL else Contents[0]) &&
      (forall i :: 0 <= i < |Contents| ==> Contents[i] != NULL) &&
      (forall i, j :: 0 <= i < j < |Contents| ==> Contents[i] != Contents[j]) &&
      (forall i, j :: 0 <= i < j < |Stacks| ==> Stacks[i] != Stacks[j]) &&
      (forall i :: 0 <= i < |Stacks| ==>
         TCS_WORDS <= Stacks[i].Length &&
         Stacks[i][TCS_NEXT_THREAD] == if i + 1 < |Contents| then Contents[i + 1] else NULL)
    }

    /** The `next_thread` field of each TCS on the list, by address. */
    ghost function Links(): map<word, word>
      reads this, Stacks
      requires Valid()
    {
      map i | 0 <= i < |Contents| :: Contents[i] := Stacks[i][TCS_NEXT_THREAD]
    }

    /** The list's links chain `Contents` in order. */
    lemma LinksChained()
      requires Valid()
      ensures Chained(Contents, Links())
    {
      var m := Links();
      forall i | 0 <= i < |Contents|
        ensures Contents[i] in m && m[Contents[i]] == Stacks[i][TCS_NEXT_THREAD]
      {
        var j :| 0 <= j < |Contents| && Contents[j] == Contents[i] && m[Contents[i]] == Stacks[j][TCS_NEXT_THREAD];
      }
    }

    /** Following the links from `threads` visits exactly the threads of `Contents`, in order. */
    lemma WalkIsContents()
      requires Valid()
      ensures Walk(Links(), threads, |Contents|) == Contents
    {
      LinksChained();
      WalkChained(Contents, Links());
    }

    /** The zero-initialised kernel state: an empty list. */
    constructor ()
      ensures Valid()
      ensures threads == NULL && Contents == [] && Stacks == []
    {
      threads := NULL;
      Contents := [];
      Stacks := [];
    }

    /**
     * `_thread_monitor_init`: push the TCS at address `base`, held at the
     * start of `tcs`, onto the head of the list.
     */
    method ThreadMonitorInit(tcs: array<word>, base: word)
      requires Valid()
      requires TCS_WORDS <= tcs.Length
      requires base != NULL && base !in Contents && tcs !in Stacks
      modifies this, tcs
      ensures Valid()
      ensures threads == base
      ensures Contents == [base] + old(Contents)
      ensures Stacks == [tcs] + old(Stacks)
      ensures tcs[..] == old(tcs[..])[TCS_NEXT_THREAD := old(threads)]
      ensures Walk(Links(), threads, |Contents|) == [base] + old(Contents)
    {
      tcs[TCS_NEXT_THREAD] := threads;
      threads := base;
      Contents := [base] + Contents;
      Stacks := [tcs] + Stacks;
      forall i | 1 <= i < |Stacks|
        ensures Stacks[i][TCS_NEXT_THREAD] == if i + 1 < |Contents| then Contents[i + 1] else NULL
      {
        assert Stacks[i] == old(Stacks)[i - 1] != tcs;
      }
      assert Valid();
      WalkIsContents();
    }
  }

  /**
   * `_nano_timeout_tcs_init`: the timeout subsystem's initialiser, whose body
   * is not part of this model; it leaves `timeoutState` in the TCS's timeout
   * bookkeeping and touches nothing else.
   */
  method NanoTimeoutTcsInit(tcs: array<word>, timeoutState: seq<word>)
    requires TCS_WORDS <= tcs.Length && |timeoutState| == TIMEOUT_WORDS
    modifies tcs
    ensures tcs[..] == WriteWords(old(tcs[..]), TCS_TIMEOUT, timeoutState)
  {
    CopyWords(tcs, TCS_TIMEOUT, timeoutState);
  }

  /**
   * The stores of `_new_thread` into the initial context at word offset
   * `ctx` of the stack region `a`.
   */
  method WriteInitialContext(a: array<word>, ctx: nat, threadEntry: word,
                             pEntry: word, parameter1: word, parameter2: word, parameter3: word)
    requires ctx + ESF_WORDS <= a.Length
    modifies a
    ensures a[..] == InitialFrame(old(a[..]), ctx, threadEntry, pEntry, parameter1, parameter2, parameter3)
  {
    a[ctx + ESF_PC] := ThumbPc(threadEntry);
    a[ctx] := pEntry;
    a[ctx + ESF_A2] := parameter1;
    a[ctx + ESF_A3] := parameter2;
    a[ctx + ESF_A4] := parameter3;
    a[ctx + ESF_XPSR] := XPSR_THUMB;
  }

  /**
   * The stores of `_new_thread` into the TCS at the base of the stack region
   * `a`; `pInitCtx` is the address of the initial context.
   */
  method StampTcs(a: array<word>, cfg: Config, priority: int, pInitCtx: word)
    requires TCS_WORDS <= a.Length
    requires INT_MIN <= priority <= INT_MAX
    modifies a
    ensures a[..] == StampedTcs(cfg, old(a[..]), priority, pInitCtx)
  {
    a[TCS_LINK] := NULL;
    a[TCS_FLAGS] := ThreadFlags(priority);
    a[TCS_PRIO] := IntToWord(priority);
    if cfg.threadCustomData {
      a[TCS_CUSTOM_DATA] := NULL;
    }
    a[TCS_PSP] := pInitCtx;
    a[TCS_BASEPRI] := 0;
  }

  /**
   * `_new_thread`: initialise a thread in the stack region `pStackMem`, whose
   * first word is at address `base` and whose size in bytes, `stackSize`, is
   * four times its length. `threadEntry` is the address of the trampoline
   * `_thread_entry`; `options` has no effect.
   */
  method NewThread(kernel: Nanokernel, cfg: Config, pStackMem: array<word>, base: word,
                   pEntry: word, parameter1: word, parameter2: word, parameter3: word,
                   priority: int, options: word, threadEntry: word, timeoutState: seq<word>)
    requires Carvable(base, pStackMem.Length, cfg.stackAlign)
    requires INT_MIN <= priority <= INT_MAX
    requires |timeoutState| == TIMEOUT_WORDS
    requires kernel.Valid()
    requires base != NULL && base !in kernel.Contents && pStackMem !in kernel.Stacks
    modifies pStackMem, kernel
    ensures pStackMem[..] == NewThreadImage(cfg, old(pStackMem[..]),
                                            ContextOffset(base, pStackMem.Length, cfg.stackAlign),
                                            InitialContext(base, pStackMem.Length, cfg.stackAlign),
                                            pEntry, parameter1, parameter2, parameter3,
                                            priority, threadEntry, timeoutState, old(kernel.threads))
    ensures kernel.Valid()
    ensures cfg.threadMonitor ==> kernel.threads == base &&
                                  kernel.Contents == [base] + old(kernel.Contents) &&
                                  kernel.Stacks == [pStackMem] + old(kernel.Stacks)
    ensures !cfg.threadMonitor ==> unchanged(kernel)
  {
    var stackSize := pStackMem.Length * WORD_SIZE;
    var stackEnd := base + stackSize;
    ghost var s0 := pStackMem[..];

    if cfg.initStacks {
      Memset(pStackMem, STACK_POISON);
    }
    ghost var s1 := pStackMem[..];
    assert s1 == Poisoned(cfg, s0);

    // carve the initial context from the top of the stack
    var pInitCtx := RoundDown(stackEnd, cfg.stackAlign) - ESF_SIZE;
    assert pInitCtx == InitialContext(base, pStackMem.Length, cfg.stackAlign);
    var ctx := (pInitCtx - base) / WORD_SIZE;
    assert ctx == ContextOffset(base, pStackMem.Length, cfg.stackAlign);

    WriteInitialContext(pStackMem, ctx, threadEntry, pEntry, parameter1, parameter2, parameter3);
    StampTcs(pStackMem, cfg, priority, pInitCtx);
    NanoTimeoutTcsInit(pStackMem, timeoutState);

    if cfg.threadMonitor {
      kernel.ThreadMonitorInit(pStackMem, base);
    }
  }

  /**
   * Creating three threads in a row with the monitor enabled leaves them on
   * the list newest first, ahead of the threads created earlier.
   */
  method CreateThree(kernel: Nanokernel, cfg: Config,
                     s1: array<word>, b1: word, s2: array<word>, b2: word, s3: array<word>, b3: word,
                     pEntry: word, threadEntry: word, timeoutState: seq<word>)
    requires cfg.threadMonitor
    requires Carvable(b1, s1.Length, cfg.stackAlign)
    requires Carvable(b2, s2.Length, cfg.stackAlign)
    requires Carvable(b3, s3.Length, cfg.stackAlign)
    requires |timeoutState| == TIMEOUT_WORDS
    requires kernel.Valid()
    requires s1 != s2 && s1 != s3 && s2 != s3
    requires b1 != b2 && b1 != b3 && b2 != b3
    requires NULL !in {b1, b2, b3}
    requires b1 !in kernel.Contents && b2 !in kernel.Contents && b3 !in kernel.Contents
    requires s1 !in kernel.Stacks && s2 !in kernel.Stacks && s3 !in kernel.Stacks
    modifies kernel, s1, s2, s3
    ensures kernel.Valid()
    ensures kernel.threads == b3
    ensures kernel.Contents == [b3, b2, b1] + old(kernel.Contents)
  {
    ghost var earlier := kernel.Contents;
    NewThread(kernel, cfg, s1, b1, pEntry, 1, 2, 3, TASK_PRIORITY, 0, threadEntry, timeoutState);
    assert b2 !in kernel.Contents && b3 !in kernel.Contents;
    assert s2 !in kernel.Stacks && s3 !in kernel.Stacks;
    NewThread(kernel, cfg, s2, b2, pEntry, 1, 2, 3, 5, 0, threadEntry, timeoutState);
    assert b3 !in kernel.Contents && s3 !in kernel.Stacks;
    NewThread(kernel, cfg, s3, b3, pEntry, 1, 2, 3, 5, 0, threadEntry, timeoutState);
    PushThree(earlier, b1, b2, b3);
  }

  /** Three head pushes put the pushed elements in front, the last one first. */
  lemma PushThree(c: seq<word>, b1: word, b2: word, b3: word)
    ensures [b3] + ([b2] + ([b1] + c)) == [b3, b2, b1] + c
  {
  }
}
