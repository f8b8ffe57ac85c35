/** What a caching writer promises over a whole sequence of calls, stated on
    the reference semantics `Serialize.Run` and, through `Valid()`, on any
    `CachingWriter` object. */
module CachingTraces {
  import opened Serialize

  /** The characters written by a trace, in order, whatever the caching flag. */
  function Units(ops: seq<Op>): JString
  {
    if ops == [] then [] else Units(ops[..|ops| - 1]) + UnitOf(ops[|ops| - 1])
  }

  function UnitOf(op: Op): JString
  {
    if op.WriteOp? then op.unit else []
  }

  /** The calls a trace relays to the sink: writes, flushes and closes. */
  function SinkCalls(ops: seq<Op>): seq<SinkCall>
  {
    if ops == [] then [] else SinkCalls(ops[..|ops| - 1]) + SinkCallOf(ops[|ops| - 1])
  }

  function SinkCallOf(op: Op): seq<SinkCall>
  {
    match op
    case WriteOp(u) => [Chars(u)]
    case FlushOp => [Flushed]
    case CloseOp => [Closed]
    case _ => []
  }

  /** The calls of a trace before its first `StopOp`. */
  function UntilStop(ops: seq<Op>): seq<Op>
  {
    if ops == [] || ops[0] == StopOp then [] else [ops[0]] + UntilStop(ops[1..])
  }

  lemma {:induction false} UntilStopNoStop(ops: seq<Op>)
    requires StopOp !in ops
    ensures UntilStop(ops) == ops
  {
    if ops != [] {
      UntilStopNoStop(ops[1..]);
    }
  }

  /** Extending a trace extends the part before its first stop only while
      there has been no stop. */
  lemma {:induction false} UntilStopSnoc(ops: seq<Op>, op: Op)
    ensures UntilStop(ops + [op]) ==
            if StopOp in ops then UntilStop(ops)
            else if op == StopOp then ops
            else ops + [op]
  {
    if ops == [] {
    } else {
      assert (ops + [op])[0] == ops[0];
      assert (ops + [op])[1..] == ops[1..] + [op];
      if ops[0] != StopOp {
        UntilStopSnoc(ops[1..], op);
        assert StopOp in ops <==> StopOp in ops[1..] by {
          assert ops == [ops[0]] + ops[1..];
        }
        if StopOp !in ops && op != StopOp {
          assert [ops[0]] + (ops[1..] + [op]) == ops + [op];
        }
      }
    }
  }

  /** Running two traces one after the other is running their concatenation. */
  lemma {:induction false} RunAppend(s: Snapshot, a: seq<Op>, b: seq<Op>)
    requires s.Valid()
    ensures Run(s, a + b) == Run(Run(s, a), b)
  {
    if b == [] {
      assert a + b == a;
    } else {
      RunAppend(s, a, b[..|b| - 1]);
      assert (a + b)[..|a + b| - 1] == a + b[..|b| - 1];
    }
  }

  /** The sink receives every write, flush and close of a trace, in order,
      and nothing else, whatever the caching flag does. */
  lemma {:induction false} SinkSeesEveryCall(s: Snapshot, ops: seq<Op>)
    requires s.Valid()
    ensures Run(s, ops).out == s.out + SinkCalls(ops)
  {
    if ops != [] {
      SinkSeesEveryCall(s, ops[..|ops| - 1]);
    }
  }

  /** Transparency: the characters at the sink are the characters it already
      had followed by every unit written, in order. */
  lemma {:induction false} Transparency(s: Snapshot, ops: seq<Op>)
    requires s.Valid()
    ensures Text(Run(s, ops).out) == Text(s.out) + Units(ops)
  {
    if ops != [] {
      var p, op := ops[..|ops| - 1], ops[|ops| - 1];
      Transparency(s, p);
      var before := Run(s, p).out;
      match op
      case WriteOp(u) =>
        assert (before + [Chars(u)])[..|before|] == before;
      case FlushOp =>
        assert (before + [Flushed])[..|before|] == before;
      case CloseOp =>
        assert (before + [Closed])[..|before|] == before;
      case _ =>
    }
  }

  /** The same, for a writer object: its sink holds what it held at
      construction followed by every unit written since. */
  lemma WriterTransparency(w: CachingWriter)
    requires w.Valid()
    ensures Text(w.out) == Text(w.initial.out) + Units(w.history)
  {
    Transparency(w.initial, w.history);
  }

  /** A cache buffer exists after a trace exactly when one existed before it
      or the trace contains a start: only a start creates a buffer, and
      nothing removes one. */
  lemma {:induction false} CacheIffStarted(s: Snapshot, ops: seq<Op>)
    requires s.Valid()
    ensures Run(s, ops).cache.Some? <==> (s.cache.Some? || StartOp in ops)
  {
    if ops != [] {
      var p := ops[..|ops| - 1];
      assert ops == p + [ops[|ops| - 1]];
      CacheIffStarted(s, p);
    }
  }

  /** The same, for a writer object: it has a cache buffer, so `GetCache`
      may be called, exactly when `StartCaching` was called since
      construction. */
  lemma WriterCacheIffStarted(w: CachingWriter)
    requires w.Valid() && w.initial.cache == None
    ensures w.cache.Some? <==> StartOp in w.history
  {
    CacheIffStarted(w.initial, w.history);
  }

  /** While a cycle runs (no new start), the buffer gains exactly the units
      written up to the first stop; the flag stays on until that stop. */
  lemma {:induction false} CapturesUntilStop(s: Snapshot, ops: seq<Op>)
    requires s.Valid() && s.caching && StartOp !in ops
    ensures Run(s, ops).caching == (StopOp !in ops)
    ensures Run(s, ops).cache == Some(s.cache.value + Units(UntilStop(ops)))
  {
    if ops == [] {
      assert s.cache.value + [] == s.cache.value;
    } else {
      var p, op := ops[..|ops| - 1], ops[|ops| - 1];
      assert ops == p + [op];
      assert StartOp !in p;
      CapturesUntilStop(s, p);
      UntilStopSnoc(p, op);
      var mid := Run(s, p);
      assert Run(s, ops) == Step(mid, op);
      if StopOp in p {
        assert !mid.caching;
        assert UntilStop(ops) == UntilStop(p);
      } else {
        UntilStopNoStop(p);
        assert mid.caching && mid.cache == Some(s.cache.value + Units(p));
        if op == StopOp {
          assert UntilStop(ops) == p;
        } else {
          assert UntilStop(ops) == ops;
          assert Units(ops) == Units(p) + UnitOf(op);
          if op.WriteOp? {
            assert Step(mid, op).cache == Some(mid.cache.value + op.unit);
            assert s.cache.value + Units(p) + op.unit == s.cache.value + Units(ops);
          } else {
            assert Step(mid, op).cache == mid.cache;
            assert UnitOf(op) == [];
            assert Units(ops) == Units(p);
          }
        }
      }
    }
  }

  /** Freeze-on-stop: once caching is off, no call but a start changes the
      buffer or turns caching back on. */
  lemma {:induction false} FreezeOnStop(s: Snapshot, ops: seq<Op>)
    requires s.Valid() && !s.caching && StartOp !in ops
    ensures !Run(s, ops).caching
    ensures Run(s, ops).cache == s.cache
  {
    if ops != [] {
      var p := ops[..|ops| - 1];
      assert ops == p + [ops[|ops| - 1]];
      assert StartOp !in p;
      FreezeOnStop(s, p);
    }
  }

  /** Cycle isolation: after a start that begins a new cycle, the buffer holds
      only what the new cycle wrote before its first stop; nothing written in
      earlier cycles, and nothing written after that stop. */
  lemma CycleIsolation(s: Snapshot, before: seq<Op>, after: seq<Op>)
    requires s.Valid() && !Run(s, before).caching && StartOp !in after
    ensures Run(s, before + [StartOp] + after).cache == Some(Units(UntilStop(after)))
    ensures Run(s, before + [StartOp] + after).caching == (StopOp !in after)
  {
    var prefix := before + [StartOp];
    RunAppend(s, prefix, after);
    assert prefix[..|prefix| - 1] == before;
    var started := Run(s, prefix);
    assert started == Step(Run(s, before), StartOp);
    assert started.caching && started.cache == Some([]);
    CapturesUntilStop(started, after);
    assert started.cache.value + Units(UntilStop(after)) == Units(UntilStop(after));
  }

  /** A start while a cycle is already running changes nothing at all. */
  lemma RedundantStart(s: Snapshot, before: seq<Op>)
    requires s.Valid() && Run(s, before).caching
    ensures Run(s, before + [StartOp]) == Run(s, before)
    ensures !Toggled(Run(s, before), StartOp)
  {
    assert (before + [StartOp])[..|before|] == before;
  }

  /** `startCaching` and `stopCaching` return true exactly when they flip the
      flag, and when they return false the writer is left as it was. */
  lemma ToggleReportsChange(s: Snapshot, op: Op)
    requires s.Valid() && (op.StartOp? || op.StopOp?)
    ensures Toggled(s, op) <==> Step(s, op).caching != s.caching
    ensures !Toggled(s, op) ==> Step(s, op) == s
    ensures Step(s, op).caching == op.StartOp?
  {
  }

  /** Two starts in a row: the second always returns false; likewise two
      stops. A stop on a freshly constructed writer returns false. */
  lemma ToggleTwice(s: Snapshot, sink: seq<SinkCall>)
    requires s.Valid()
    ensures !Toggled(Step(s, StartOp), StartOp)
    ensures !Toggled(Step(s, StopOp), StopOp)
    ensures !s.caching ==> Toggled(s, StartOp) && !Toggled(s, StopOp)
    ensures !Toggled(Snapshot(sink, None, false), StopOp)
  {
  }

  /** "abc", "def", "ghi" and "jkl" as UTF-16 code units. */
  const ABC: JString := [0x61, 0x62, 0x63]
  const DEF: JString := [0x64, 0x65, 0x66]
  const GHI: JString := [0x67, 0x68, 0x69]
  const JKL: JString := [0x6A, 0x6B, 0x6C]

  /** The scenario of a writer wrapped around an empty sink: write "abc",
      start, write "def", stop, write "ghi", start, write "jkl". Each start
      and stop returns true. While the first cycle runs, the buffer holds
      "def"; after the stop it still holds "def" although "ghi" was written;
      the second cycle's buffer holds "jkl" only. The sink sees every write. */
  method Scenario() returns (sinks: seq<JString>, caches: seq<JString>, replies: seq<bool>)
    ensures sinks == [ABC + DEF, ABC + DEF + GHI, ABC + DEF + GHI + JKL]
    ensures caches == [DEF, DEF, JKL]
    ensures replies == [true, true, true]
  {
    var w := new CachingWriter([]);
    w.WriteString(ABC);
    assert Text(w.out) == ABC;
    var r1 := w.StartCaching();
    w.WriteString(DEF);
    var capturing := w.GetCache([]);
    assert capturing == [] + DEF == DEF;
    var sinkAfterDef := Text(w.out);
    var r2 := w.StopCaching();
    w.WriteString(GHI);
    var frozen := w.GetCache([]);
    var sinkAfterGhi := Text(w.out);
    var r3 := w.StartCaching();
    w.WriteString(JKL);
    var captured := w.GetCache([]);
    assert captured == [] + JKL == JKL;
    sinks := [sinkAfterDef, sinkAfterGhi, Text(w.out)];
    caches := [capturing, frozen, captured];
    replies := [r1, r2, r3];
  }
}
