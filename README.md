# CachingWriter — a verified model

This project models `org.apache.xml.serialize.CachingWriter`. It is a
character-output decorator used by the XML serializer. Every write is relayed
to a wrapped primary `Writer` (the sink). While the caching flag is on, the
same characters are also appended to an in-memory `StringWriter` (the cache).
`startCaching` begins a capture cycle with a fresh, empty cache. `stopCaching`
ends the cycle and leaves the cache as it is. `getCache` reads the cache. Both
toggles return a boolean that says whether the flag changed.

The model has two layers.

- `caching_writer.dfy`, module `Serialize`, holds a pure reference semantics
  and the class itself. `Snapshot` holds the three fields, `Op` is one call,
  `Step` gives the state after one call and `Run` the state after a trace. The
  class `CachingWriter` has mutable fields `out`, `cache` and `caching`, one
  method per public operation, and a method per `write` overload. Each method
  states its new fields outright and proves that they agree with `Step`. The
  ghost fields `initial` and `history` record the state at construction and
  the calls made since. `Valid()` ties the fields to `Run(initial, history)`.
- `caching_traces.dfy`, module `CachingTraces`, holds the properties of whole
  traces: transparency of the sink, cycle isolation, freeze-on-stop and the
  replies of the toggles. It also holds a client scenario stated against the
  class.

Characters are Java `char`s: UTF-16 code units (`CodeUnit`, a number below
0x10000), and strings and character arrays are sequences of them (`JString`).
Offsets and lengths therefore count code units, as in Java, and a lone
surrogate half can be written like any other character.

The sink is opaque in the source. It is modelled as a log with one entry per
call the decorator relays to it: `Chars(text)` records the characters the call
carries, as a sink that follows `Writer`'s contract takes them (the range of
`write(c, off, len)`, the `char` of `write(int)`); `Flushed` and `Closed`
record a flush and a close. `Text(log)` is the characters it has received. The cache is `Option<JString>`, where `None`
stands for the `null` held before the first `startCaching`.

In `getCache`, the code dereferences the cache without a check, so calling it
before any `startCaching` ends in a null dereference. The model follows the
code: `GetCache` requires that a cache exists. The model adds no error of its
own for this case.

## Model

| member | source | states |
|---|---|---|
| `Serialize.CachingWriter.constructor` | source/org/apache/xml/serialize/CachingWriter.java:11-14 | the sink keeps what it already held; caching is off; there is no cache buffer |
| `Serialize.CachingWriter.StartCaching` | source/org/apache/xml/serialize/CachingWriter.java:16-21 | when already caching it returns false and nothing changes; otherwise it returns true, turns caching on and installs a fresh empty buffer; the sink is untouched |
| `Serialize.CachingWriter.GetCache` | source/org/apache/xml/serialize/CachingWriter.java:23-26 | returns the buffer's content verbatim, whatever the encoding argument; changes nothing; needs a buffer to exist |
| `Serialize.CachingWriter.StopCaching` | source/org/apache/xml/serialize/CachingWriter.java:28-31 | when not caching it returns false and nothing changes; otherwise it returns true and turns caching off; the buffer and the sink are untouched |
| `Serialize.CachingWriter.Close` | source/org/apache/xml/serialize/CachingWriter.java:33-35 | relays one close to the sink; caching and the buffer are unchanged |
| `Serialize.CachingWriter.Flush` | source/org/apache/xml/serialize/CachingWriter.java:37-39 | relays one flush to the sink; caching and the buffer are unchanged |
| `Serialize.CachingWriter.WriteChars` | source/org/apache/xml/serialize/CachingWriter.java:41-44 | the whole array is appended to the sink; it is appended to the buffer exactly when caching, which it does not change |
| `Serialize.CachingWriter.WriteCharRange` | source/org/apache/xml/serialize/CachingWriter.java:46-49 | the `len` characters from `off` go to the sink, and to the buffer exactly when caching |
| `Serialize.CachingWriter.WriteChar` | source/org/apache/xml/serialize/CachingWriter.java:51-54 | the character made of the low 16 bits of the argument goes to the sink, and to the buffer exactly when caching |
| `Serialize.CachingWriter.WriteString` | source/org/apache/xml/serialize/CachingWriter.java:56-59 | the whole string goes to the sink, and to the buffer exactly when caching |
| `Serialize.CachingWriter.WriteSubstring` | source/org/apache/xml/serialize/CachingWriter.java:61-64 | the `len` characters from `off` go to the sink, and to the buffer exactly when caching |
| `Serialize.LowBits` | source/org/apache/xml/serialize/CachingWriter.java:51-54 | the character `write(int)` writes is the argument's value when that is below 0x10000, and in every case agrees with the argument modulo 2^16 |
| `Serialize.Step` | source/org/apache/xml/serialize/CachingWriter.java:16-64 | every call keeps the invariant that a buffer exists while caching is on |
| `Serialize.Run` | source/org/apache/xml/serialize/CachingWriter.java:16-64 | any sequence of calls keeps that invariant |
| `CachingTraces.CacheIffStarted` | source/org/apache/xml/serialize/CachingWriter.java:11-64 | after any sequence of calls a buffer exists exactly when one existed before or the sequence contains a start: only a start creates a buffer and nothing removes one |
| `CachingTraces.WriterCacheIffStarted` | source/org/apache/xml/serialize/CachingWriter.java:11-26 | a writer object has a buffer, so its cache may be read, exactly when a start has been called on it since construction |
| `CachingTraces.SinkSeesEveryCall` | source/org/apache/xml/serialize/CachingWriter.java:33-64 | the sink receives every write, flush and close, in call order, and nothing else, whatever the flag does |
| `CachingTraces.Transparency` | source/org/apache/xml/serialize/CachingWriter.java:41-64 | the sink's characters are its earlier characters followed by every unit written, in order |
| `CachingTraces.WriterTransparency` | source/org/apache/xml/serialize/CachingWriter.java:41-64 | for any writer object: the sink holds what it held at construction followed by every unit written since |
| `CachingTraces.CapturesUntilStop` | source/org/apache/xml/serialize/CachingWriter.java:28-64 | during a cycle the buffer gains exactly the units written before the first stop; the flag stays on until that stop |
| `CachingTraces.FreezeOnStop` | source/org/apache/xml/serialize/CachingWriter.java:28-64 | once caching is off, no call except a start changes the buffer or turns caching back on |
| `CachingTraces.CycleIsolation` | source/org/apache/xml/serialize/CachingWriter.java:16-64 | after a start that begins a new cycle, the buffer holds only the units that cycle wrote before its first stop; nothing from earlier cycles survives |
| `CachingTraces.RedundantStart` | source/org/apache/xml/serialize/CachingWriter.java:16-17 | a start during a running cycle leaves the whole state unchanged and returns false |
| `CachingTraces.ToggleReportsChange` | source/org/apache/xml/serialize/CachingWriter.java:16-31 | a toggle returns true exactly when it flips the flag; when it returns false the state is unchanged; afterwards the flag is on after a start and off after a stop |
| `CachingTraces.ToggleTwice` | source/org/apache/xml/serialize/CachingWriter.java:11-31 | a second consecutive start, or a second consecutive stop, returns false; a stop on a fresh writer returns false |
| `CachingTraces.Scenario` | source/org/apache/xml/serialize/CachingWriter.java:11-64 | write "abc", start, write "def", stop, write "ghi", start, write "jkl": every toggle returns true; the buffer holds "def" while capturing and still "def" after the stop and "ghi"; the sink holds "abcdef", then "abcdefghi", then "abcdefghijkl"; the buffer ends as "jkl" |

## Left out

- I/O failures of the sink are not modelled. Every write method relays to the sink before it touches the buffer, so a sink write that throws would leave the buffer unchanged. The model has no exceptions, so it does not show this.
- The sink's own behaviour is not modelled: buffering, what happens after `close`, and where the characters finally go. The sink is only the log of calls relayed to it.
- `Serialize.CachingWriter.WriteCharRange` and `Serialize.CachingWriter.WriteSubstring` require `0 <= off`, `0 <= len` and `off + len` within bounds. With any other range, a sink that follows `Writer`'s contract throws `IndexOutOfBoundsException` before the buffer is touched, and that exception path is not modelled. A sink that ignores a negative `len` is not modelled either: with such a sink the call does nothing when not caching, and the cache's `StringWriter` throws when caching. Null arrays and strings are excluded by Dafny's non-null types.
- `Serialize.CachingWriter.GetCache` requires that a buffer exists, because the code dereferences `null` otherwise. The null-pointer exception itself is not modelled.
- The `encoding` argument of `getCache` is accepted and ignored, as in the code. `cache.flush()` is a no-op on an in-memory buffer and is left out.
- The `CharacterCachingWriter` interface is not part of this model.
- Thread safety is not modelled. The class is unsynchronized and meant for one thread.
