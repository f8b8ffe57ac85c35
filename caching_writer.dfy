/** A character-output decorator from the XML serializer
    (org.apache.xml.serialize.CachingWriter).

    Every write goes to a wrapped primary sink (`out`). While the `caching`
    flag is on, the same write is also appended to an in-memory buffer
    (`cache`), which does not exist until the first `StartCaching` and is
    replaced by a fresh, empty buffer at the start of every capture cycle.

    The module has two layers:
    - a pure reference semantics: a `Snapshot` of the three fields, the
      operations as `Op` values, `Step` for one call and `Run` for a trace;
    - the class `CachingWriter`, whose methods update the fields in place and
      are proved to agree with `Step`. */
module Serialize {

  datatype Option<T> = None | Some(value: T)

  /** A Java `char`: one UTF-16 code unit. Strings and character arrays are
      sequences of code units, so offsets and lengths count code units and a
      lone surrogate half is an ordinary character. */
  newtype CodeUnit = x: int | 0 <= x < 0x1_0000

  /** The contents of a Java `String` or `char[]`. */
  type JString = seq<CodeUnit>

  /** The `char` that `write(int)` writes: the low 16 bits of its argument. */
  function LowBits(c: int): (r: CodeUnit)
    ensures 0 <= c < 0x1_0000 ==> r as int == c
    ensures (c - r as int) % 0x1_0000 == 0
  {
    (c % 0x1_0000) as CodeUnit
  }

  /** One call received by the wrapped sink. The sink itself is opaque: the
      model records, in order, one entry per relayed call, holding the
      characters that call carries as a sink following `Writer`'s contract
      takes them (the range of a range write, the `char` of `write(int)`). */
  datatype SinkCall = Chars(text: JString) | Flushed | Closed

  /** The characters carried by one sink call. */
  function CharsOf(call: SinkCall): JString
  {
    if call.Chars? then call.text else []
  }

  /** The characters a sink has received, in order (flushes and closes carry none). */
  function Text(log: seq<SinkCall>): JString
  {
    if log == [] then [] else Text(log[..|log| - 1]) + CharsOf(log[|log| - 1])
  }

  /** The values of the three fields of a writer: the sink's log, the cache
      buffer (`None` stands for the `null` before the first `startCaching`)
      and the caching flag. */
  datatype Snapshot = Snapshot(out: seq<SinkCall>, cache: Option<JString>, caching: bool)
  {
    /** While caching, a cache buffer exists (it is created when caching starts). */
    predicate Valid()
    {
      caching ==> cache.Some?
    }
  }

  /** The calls that change a writer. Every write overload is a `WriteOp`
      carrying exactly the characters it writes; `getCache` changes nothing
      and is not an operation. */
  datatype Op = WriteOp(unit: JString) | StartOp | StopOp | FlushOp | CloseOp

  /** The state after one call. */
  function Step(s: Snapshot, op: Op): (r: Snapshot)
    requires s.Valid()
    ensures r.Valid()
  {
    match op
    case WriteOp(u) =>
      Snapshot(s.out + [Chars(u)], if s.caching then Some(s.cache.value + u) else s.cache, s.caching)
    case StartOp =>
      if s.caching then s else Snapshot(s.out, Some([]), true)
    case StopOp =>
      if !s.caching then s else s.(caching := false)
    case FlushOp =>
      s.(out := s.out + [Flushed])
    case CloseOp =>
      s.(out := s.out + [Closed])
  }

  /** The boolean that `startCaching` and `stopCaching` return. */
  function Toggled(s: Snapshot, op: Op): bool
    requires op.StartOp? || op.StopOp?
  {
    if op.StartOp? then !s.caching else s.caching
  }

  /** The state after a trace of calls, applied left to right. */
  function Run(s: Snapshot, ops: seq<Op>): (r: Snapshot)
    requires s.Valid()
    ensures r.Valid()
  {
    if ops == [] then s else Step(Run(s, ops[..|ops| - 1]), ops[|ops| - 1])
  }

  class CachingWriter {
    /** The wrapped sink, as the log of the calls relayed to it and the
        characters each carries. */
    var out: seq<SinkCall>
    /** The cache buffer; `None` until the first `StartCaching`. */
    var cache: Option<JString>
    var caching: bool

    /** The state at construction and the calls made since, in order. */
    ghost var initial: Snapshot
    ghost var history: seq<Op>

    function State(): Snapshot
      reads this
    {
      Snapshot(out, cache, caching)
    }

    /** The fields are consistent, and they are what the reference semantics
        gives for the calls made since construction. */
    ghost predicate Valid()
      reads this
    {
      && State().Valid()
      && initial.Valid()
      && State() == Run(initial, history)
    }

    /** Wraps a sink that has already received `out`; caching is off and
        there is no cache buffer. */
    constructor (out: seq<SinkCall>)
      ensures Valid()
      ensures this.out == out && cache == None && !caching
      ensures history == [] && initial == State()
    {
      this.cache := None;
      this.caching := false;
      this.out := out;
      initial := Snapshot(out, None, false);
      history := [];
    }

    /** Starts a capture cycle with a fresh, empty buffer; does nothing and
        returns false when a cycle is already running. */
    method StartCaching() returns (changed: bool)
      requires Valid()
      modifies this
      ensures Valid()
      ensures changed == !old(caching)
      ensures caching && out == old(out)
      ensures cache == if changed then Some([]) else old(cache)
      ensures changed == Toggled(old(State()), StartOp)
      ensures State() == Step(old(State()), StartOp)
      ensures initial == old(initial) && history == old(history) + [StartOp]
    {
      history := history + [StartOp];
      if caching {
        return false;
      }
      caching := true;
      cache := Some([]);
      return true;
    }

    /** The current content of the cache buffer. The encoding is ignored.
        There must be a buffer: the writer reads it without a check. */
    method GetCache(encoding: JString) returns (r: JString)
      requires cache.Some?
      ensures r == cache.value
    {
      r := cache.value;
    }

    /** Ends the capture cycle, keeping the buffer as it is; does nothing and
        returns false when no cycle is running. */
    method StopCaching() returns (changed: bool)
      requires Valid()
      modifies this
      ensures Valid()
      ensures changed == old(caching)
      ensures !caching && out == old(out) && cache == old(cache)
      ensures changed == Toggled(old(State()), StopOp)
      ensures State() == Step(old(State()), StopOp)
      ensures initial == old(initial) && history == old(history) + [StopOp]
    {
      history := history + [StopOp];
      if !caching {
        return false;
      }
      caching := false;
      return true;
    }

    /** Relays `close` to the sink. */
    method Close()
      requires Valid()
      modifies this
      ensures Valid()
      ensures out == old(out) + [Closed]
      ensures Text(out) == Text(old(out))
      ensures cache == old(cache) && caching == old(caching)
      ensures State() == Step(old(State()), CloseOp)
      ensures initial == old(initial) && history == old(history) + [CloseOp]
    {
      out := out + [Closed];
      history := history + [CloseOp];
    }

    /** Relays `flush` to the sink; the buffer is never flushed. */
    method Flush()
      requires Valid()
      modifies this
      ensures Valid()
      ensures out == old(out) + [Flushed]
      ensures Text(out) == Text(old(out))
      ensures cache == old(cache) && caching == old(caching)
      ensures State() == Step(old(State()), FlushOp)
      ensures initial == old(initial) && history == old(history) + [FlushOp]
    {
      out := out + [Flushed];
      history := history + [FlushOp];
    }

    /** `write(char[])`: the whole array goes to the sink, and to the buffer
        while caching. */
    method WriteChars(c: array<CodeUnit>)
      requires Valid()
      modifies this
      ensures Valid()
      ensures out == old(out) + [Chars(c[..])]
      ensures Text(out) == Text(old(out)) + c[..]
      ensures caching == old(caching)
      ensures cache == if caching then Some(old(cache).value + c[..]) else old(cache)
      ensures State() == Step(old(State()), WriteOp(c[..]))
      ensures initial == old(initial) && history == old(history) + [WriteOp(c[..])]
    {
      out := out + [Chars(c[..])];
      if caching {
        cache := Some(cache.value + c[..]);
      }
      history := history + [WriteOp(c[..])];
    }

    /** `write(char[], off, len)`: the `len` characters from index `off`. */
    method WriteCharRange(c: array<CodeUnit>, off: int, len: int)
      requires Valid()
      requires 0 <= off && 0 <= len && off + len <= c.Length
      modifies this
      ensures Valid()
      ensures out == old(out) + [Chars(c[off..off + len])]
      ensures Text(out) == Text(old(out)) + c[off..off + len]
      ensures caching == old(caching)
      ensures cache == if caching then Some(old(cache).value + c[off..off + len]) else old(cache)
      ensures State() == Step(old(State()), WriteOp(c[off..off + len]))
      ensures initial == old(initial) && history == old(history) + [WriteOp(c[off..off + len])]
    {
      out := out + [Chars(c[off..off + len])];
      if caching {
        cache := Some(cache.value + c[off..off + len]);
      }
      history := history + [WriteOp(c[off..off + len])];
    }

    /** `write(int)`: a single character, the low 16 bits of `c`. */
    method WriteChar(c: int)
      requires Valid()
      modifies this
      ensures Valid()
      ensures out == old(out) + [Chars([LowBits(c)])]
      ensures Text(out) == Text(old(out)) + [LowBits(c)]
      ensures caching == old(caching)
      ensures cache == if caching then Some(old(cache).value + [LowBits(c)]) else old(cache)
      ensures State() == Step(old(State()), WriteOp([LowBits(c)]))
      ensures initial == old(initial) && history == old(history) + [WriteOp([LowBits(c)])]
    {
      var unit := [LowBits(c)];
      out := out + [Chars(unit)];
      if caching {
        cache := Some(cache.value + unit);
      }
      history := history + [WriteOp(unit)];
    }

    /** `write(String)`: the whole string. */
    method WriteString(str: JString)
      requires Valid()
      modifies this
      ensures Valid()
      ensures out == old(out) + [Chars(str)]
      ensures Text(out) == Text(old(out)) + str
      ensures caching == old(caching)
      ensures cache == if caching then Some(old(cache).value + str) else old(cache)
      ensures State() == Step(old(State()), WriteOp(str))
      ensures initial == old(initial) && history == old(history) + [WriteOp(str)]
    {
      out := out + [Chars(str)];
      if caching {
        cache := Some(cache.value + str);
      }
      history := history + [WriteOp(str)];
    }

    /** `write(String, off, len)`: the `len` characters from index `off`. */
    method WriteSubstring(str: JString, off: int, len: int)
      requires Valid()
      requires 0 <= off && 0 <= len && off + len <= |str|
      modifies this
      ensures Valid()
      ensures out == old(out) + [Chars(str[off..off + len])]
      ensures Text(out) == Text(old(out)) + str[off..off + len]
      ensures caching == old(caching)
      ensures cache == if caching then Some(old(cache).value + str[off..off + len]) else old(cache)
      ensures State() == Step(old(State()), WriteOp(str[off..off + len]))
      ensures initial == old(initial) && history == old(history) + [WriteOp(str[off..off + len])]
    {
      out := out + [Chars(str[off..off + len])];
      if caching {
        cache := Some(cache.value + str[off..off + len]);
      }
      history := history + [WriteOp(str[off..off + len])];
    }
  }
}
