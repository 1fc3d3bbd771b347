// Timespec arithmetic of sys_arch.c: the deadline of a timed wait, the time it took, sys_now.
module TimespecArithmetic {
  import opened Runs

  const NANOS := 1_000_000_000
  const NANOS_PER_MS := 1_000_000
  const U32 := 0x1_0000_0000
  const SYS_ARCH_TIMEOUT := 0xFFFF_FFFF

  datatype Timespec = Timespec(tv_sec: int, tv_nsec: int)

  predicate Normalised(ts: Timespec) {
    0 <= ts.tv_nsec < NANOS
  }

  // The instant a reading stands for, in nanoseconds.
  function Nanos(ts: Timespec): int {
    ts.tv_sec * NANOS + ts.tv_nsec
  }

  // Whole milliseconds from one instant to a later one.
  function Millis(from: Timespec, to: Timespec): int {
    (Nanos(to) - Nanos(from)) / NANOS_PER_MS
  }

  // sys_now at the instant of a reading.
  function Now(ts: Timespec): int
    requires Normalised(ts)
  {
    (ts.tv_sec * 1000 + ts.tv_nsec / NANOS_PER_MS) % U32
  }

  // Lines 509-514: one carry is enough, and the deadline is exact.
  method Deadline(rtime1: Timespec, timeout: nat) returns (ts: Timespec)
    requires Normalised(rtime1) && timeout < U32
    ensures Normalised(ts)
    ensures Nanos(ts) == Nanos(rtime1) + timeout * NANOS_PER_MS
  {
    ts := Timespec(rtime1.tv_sec + timeout / 1000, rtime1.tv_nsec + (timeout % 1000) * NANOS_PER_MS);
    assert timeout == timeout / 1000 * 1000 + timeout % 1000;
    if ts.tv_nsec >= NANOS {
      ts := ts.(tv_sec := ts.tv_sec + 1);
      ts := ts.(tv_nsec := ts.tv_nsec - NANOS);
    }
  }

  // Lines 523-530: the time between two readings, in wrapped milliseconds.
  method Elapsed(rtime1: Timespec, rtime2: Timespec) returns (ms: int)
    requires Normalised(rtime1) && Normalised(rtime2) && Nanos(rtime1) <= Nanos(rtime2)
    ensures 0 <= ms < U32 && ms == Millis(rtime1, rtime2) % U32
  {
    var ts := Timespec(rtime2.tv_sec - rtime1.tv_sec, rtime2.tv_nsec - rtime1.tv_nsec);
    if ts.tv_nsec < 0 {
      ts := ts.(tv_sec := ts.tv_sec - 1);
      ts := ts.(tv_nsec := ts.tv_nsec + NANOS);
    }
    assert Nanos(ts) == Nanos(rtime2) - Nanos(rtime1);
    assert Nanos(ts) / NANOS_PER_MS == ts.tv_sec * 1000 + ts.tv_nsec / NANOS_PER_MS;
    ms := (ts.tv_sec * 1000 + ts.tv_nsec / NANOS_PER_MS) % U32;
  }

  // cond_wait: `wake` is the reading after a wait that did not time out.
  method CondWait(timeout: nat, rtime1: Timespec, wake: Option<Timespec>) returns (r: int)
    requires timeout < U32 && Normalised(rtime1)
    requires wake.Some? ==> Normalised(wake.value) && Nanos(rtime1) <= Nanos(wake.value)
    ensures timeout == 0 ==> r == 0
    ensures timeout > 0 && wake.None? ==> r == SYS_ARCH_TIMEOUT
    ensures timeout > 0 && wake.Some? ==> r == Millis(rtime1, wake.value) % U32
    // A wait that was not timed out also reads as one when it lasted -1 ms modulo 2^32.
    ensures r == SYS_ARCH_TIMEOUT <==>
            timeout > 0 && (wake.Some? ==> (Millis(rtime1, wake.value) + 1) % U32 == 0)
  {
    if timeout == 0 {
      return 0;
    }
    if wake.None? {
      return SYS_ARCH_TIMEOUT;
    }
    r := Elapsed(rtime1, wake.value);
  }

  lemma NowIsWholeMillis(ts: Timespec)
    requires Normalised(ts)
    ensures Now(ts) == (Nanos(ts) / NANOS_PER_MS) % U32
  {
    assert Nanos(ts) / NANOS_PER_MS == ts.tv_sec * 1000 + ts.tv_nsec / NANOS_PER_MS;
  }

  // Against the wrapped difference of sys_now at the same two instants a measured wait is exact
  // when the sub-millisecond parts are in order, and one less otherwise.
  lemma ElapsedAgainstNow(rtime1: Timespec, rtime2: Timespec)
    requires Normalised(rtime1) && Normalised(rtime2) && Nanos(rtime1) <= Nanos(rtime2)
    ensures (Now(rtime2) - Now(rtime1)) % U32 ==
            (Millis(rtime1, rtime2)
             + (if rtime1.tv_nsec % NANOS_PER_MS <= rtime2.tv_nsec % NANOS_PER_MS then 0 else 1)) % U32
    ensures Millis(rtime1, rtime2) < U32 - 1 ==>
              var measured := Millis(rtime1, rtime2) % U32;
              var wrapped := (Now(rtime2) - Now(rtime1)) % U32;
              && (measured == wrapped || measured + 1 == wrapped)
              && (measured == wrapped <==> rtime1.tv_nsec % NANOS_PER_MS <= rtime2.tv_nsec % NANOS_PER_MS)
  {
    NowIsWholeMillis(rtime1);
    NowIsWholeMillis(rtime2);
    var a, b := Nanos(rtime1), Nanos(rtime2);
    assert a % NANOS_PER_MS == rtime1.tv_nsec % NANOS_PER_MS;
    assert b % NANOS_PER_MS == rtime2.tv_nsec % NANOS_PER_MS;
    WrappedDifference(a / NANOS_PER_MS, b / NANOS_PER_MS);
  }

  lemma WrappedDifference(a: int, b: int)
    ensures (b % U32 - a % U32) % U32 == (b - a) % U32
  {
  }
}
