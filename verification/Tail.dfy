/** Incremental tailing of one append-only file that another process keeps writing. */
module Tail {
  import opened Common
  import opened Utf8

  const NL: byte := 10

  /** The bytes one pass ingests from a source at most, unless a single line is longer. */
  const INGEST_CHUNK: nat := 8 * 1024 * 1024

  /** What the file system shows at one instant; `mtime` is fresh after every change. */
  datatype FileState = FileState(present: bool, bytes: seq<byte>, mtime: nat)

  function Text(f: FileState): seq<byte> { if f.present then f.bytes else [] }

  /** The stat signature: a stamp of modification time and length. `Unset` is the initial zero. */
  datatype Sig = Unset | Absent | Stamp(mtime: nat, len: nat)

  function SigOf(f: FileState): Sig {
    if f.present then Stamp(f.mtime, |f.bytes|) else Absent
  }

  /**
   * What the system calls of one tailing pass see, in order: the stat for the signature, the stat
   * for the length, the stat of the opened file, the bulk read and the read of a long line's end.
   * `readable` is whether opening and reading succeed.
   */
  datatype PassIo = PassIo(stat: FileState, len: FileState, open: FileState,
                           read: FileState, rest: FileState, readable: bool)

  /** The bytes of `s` in `[from, to)`, as far as it has them. */
  function Slice(s: seq<byte>, from: nat, to: nat): (r: seq<byte>)
    ensures from <= to <= |s| ==> r == s[from..to]
  {
    var lo := Min(from, |s|);
    s[lo..Max(lo, Min(to, |s|))]
  }

  /** The length of the whole-line prefix: everything up to and including the last newline. */
  function WholeLen(s: seq<byte>): (n: nat)
    ensures n <= |s|
    ensures n == 0 || s[n - 1] == NL
    ensures forall i :: n <= i < |s| ==> s[i] != NL
  {
    if s == [] then 0
    else if s[|s| - 1] == NL then |s|
    else WholeLen(s[..|s| - 1])
  }

  /** The length of the first line with its newline; 0 when no line is complete. */
  function LineLen(s: seq<byte>): (n: nat)
    ensures n <= |s|
    ensures n > 0 ==> s[n - 1] == NL && forall i :: 0 <= i < n - 1 ==> s[i] != NL
    ensures n == 0 <==> NL !in s
  {
    if s == [] then 0
    else if s[0] == NL then 1
    else var n := LineLen(s[1..]); if n == 0 then 0 else n + 1
  }

  /** The whole-line prefix is characterised by its end. */
  lemma WholeLenIs(s: seq<byte>, n: nat)
    requires n <= |s| && (n == 0 || s[n - 1] == NL)
    requires forall i :: n <= i < |s| ==> s[i] != NL
    ensures WholeLen(s) == n
  {}

  /** A window without a newline, completed by the rest of its line. */
  lemma LongLine(window: seq<byte>, after: seq<byte>)
    requires WholeLen(window) == 0
    ensures LineLen(after) > 0 ==>
      WholeLen(window + after[..LineLen(after)]) == |window| + LineLen(after)
    ensures LineLen(after) == 0 ==> WholeLen(window + after) == 0
  {
    var n := LineLen(after);
    if n > 0 {
      WholeLenIs(window + after[..n], |window| + n);
    } else {
      WholeLenIs(window + after, 0);
    }
  }

  /** Complete lines read past an offset, the offset behind them, and whether the file goes on. */
  datatype Chunk = Chunk(bytes: seq<byte>, newOffset: nat, more: bool)

  /** What to keep of a window: its whole lines, or the line it starts, finished from `after`. */
  function Lines(window: seq<byte>, after: seq<byte>): Option<seq<byte>>
  {
    if WholeLen(window) > 0 then Some(window[..WholeLen(window)])
    else if LineLen(after) > 0 then Some(window + after[..LineLen(after)])
    else None
  }

  /** The lines one call reads. */
  function NewLines(io: PassIo, offset: nat, cap: nat): Option<Chunk>
  {
    var size := |Text(io.open)|;
    if !io.readable || size <= offset then None else
    var window := Window(io, offset, cap);
    if NL !in window && offset + |window| == size then None
    else Chunked(Lines(window, Remainder(io, offset + |window|)), offset, size)
  }

  /** What the bulk read returns. */
  function Window(io: PassIo, offset: nat, cap: nat): seq<byte> {
    Slice(Text(io.read), offset, Min(|Text(io.open)|, offset + cap))
  }

  /** What reading on from `offset` returns. */
  function Remainder(io: PassIo, offset: nat): seq<byte> {
    Slice(Text(io.rest), offset, |Text(io.rest)|)
  }

  function Chunked(lines: Option<seq<byte>>, offset: nat, size: nat): Option<Chunk> {
    if lines.None? then None
    else Some(Chunk(lines.value, offset + |lines.value|, offset + |lines.value| < size))
  }

  /** Everything a tail remembers; `chunks` is what its parser was given since the last reset. */
  datatype TailState = TailState(sig: Sig, offset: nat, backfilling: bool, chunks: seq<seq<byte>>)

  const FRESH := TailState(Unset, 0, false, [])

  function Fed(t: TailState): seq<byte> { Flatten(t.chunks) }

  predicate GateClosed(t: TailState, f: FileState) { SigOf(f) == t.sig && !t.backfilling }

  /** One tailing call: the new state, and `None` when the file shrank. */
  function TailPass(t: TailState, io: PassIo, cap: nat): (TailState, Option<bool>)
  {
    if GateClosed(t, io.stat) then (t, Some(false))
    else if |Text(io.len)| < t.offset then (t, None)
    else
      var t' := t.(sig := SigOf(io.stat));
      if |Text(io.len)| == t.offset then (t'.(backfilling := false), Some(false)) else
      match NewLines(io, t.offset, cap)
      case None => (t'.(backfilling := false), Some(false))
      case Some(c) => (TailState(t'.sig, c.newOffset, c.more, t.chunks + [c.bytes]), Some(true))
  }

  /** The state a caller leaves behind when it answers a shrink: parser and offset start over. */
  function Reset(t: TailState): TailState { TailState(t.sig, 0, false, []) }

  /** A caller's whole pass: tail, and on a shrink start over and tail again. */
  function ScanPass(t: TailState, first: PassIo, retry: PassIo, cap: nat): (TailState, bool)
  {
    var (t1, ingested) := TailPass(t, first, cap);
    if ingested.Some? then (t1, ingested.value)
    else (TailPass(Reset(t1), retry, cap).0, true)
  }

  predicate Shrunk(t: TailState, io: PassIo) { !GateClosed(t, io.stat) && |Text(io.len)| < t.offset }

  /** The last thing a call saw of the file: behind a closed gate it only looks at the first stat. */
  function SeenBy(t: TailState, io: PassIo): FileState {
    if GateClosed(t, io.stat) then io.stat else io.rest
  }

  /** The last thing a caller's pass saw of the file. */
  function LastSeen(t: TailState, first: PassIo, retry: PassIo): FileState {
    if Shrunk(t, first) then SeenBy(Reset(t), retry) else SeenBy(t, first)
  }

  /** The index of the last newline in `buf`. */
  method LastNewline(buf: seq<byte>) returns (pos: Option<nat>)
    ensures pos == if WholeLen(buf) == 0 then None else Some(WholeLen(buf) - 1)
  {
    var n := |buf|;
    while n > 0
      invariant 0 <= n <= |buf|
      invariant WholeLen(buf) == WholeLen(buf[..n])
    {
      if buf[n - 1] == NL {
        return Some(n - 1);
      }
      assert buf[..n][..n - 1] == buf[..n - 1];
      n := n - 1;
    }
    return None;
  }

  /** The bytes at the front of `s` up to a newline, which is included, or all of them. */
  method ReadUntilNewline(s: seq<byte>) returns (line: seq<byte>)
    ensures line == if LineLen(s) == 0 then s else s[..LineLen(s)]
  {
    var n := 0;
    while n < |s|
      invariant 0 <= n <= |s|
      invariant NL !in s[..n]
    {
      if s[n] == NL {
        assert s[LineLen(s) - 1] == NL;
        return s[..n + 1];
      }
      n := n + 1;
    }
    return s;
  }

  /** Cut a window behind its last newline, reading on to the end of the line when it has none. */
  method FinishLines(window: seq<byte>, after: seq<byte>) returns (r: Option<seq<byte>>)
    ensures r == Lines(window, after)
  {
    var buf := window;
    var nl := LastNewline(buf);
    if nl.None? {
      LongLine(window, after);
      var line := ReadUntilNewline(after);
      buf := buf + line;
      nl := LastNewline(buf);
      if nl.Some? {
        assert buf[..nl.value + 1] == buf;
      }
    }
    return if nl.None? then None else Some(buf[..nl.value + 1]);
  }

  /** Read the complete lines appended past `offset`, about `cap` bytes of them at most. */
  method ReadNewLines(io: PassIo, offset: nat, cap: nat) returns (r: Option<Chunk>)
    ensures r == NewLines(io, offset, cap)
  {
    hide Slice, WholeLen, LineLen, Lines;
    if !io.readable {
      return None;
    }
    var size := |Text(io.open)|;
    if size <= offset {
      return None;
    }
    var buf := Window(io, offset, cap);
    if NL !in buf && offset + |buf| == size {
      return None;
    }
    var lines := FinishLines(buf, Remainder(io, offset + |buf|));
    if lines.None? {
      return None;
    }
    var newOffset := offset + |lines.value|;
    return Some(Chunk(lines.value, newOffset, newOffset < size));
  }

  /** The mutable tail of one source. */
  class Tailer {
    var sig: Sig
    var offset: nat
    var backfilling: bool
    var chunks: seq<seq<byte>>

    function State(): TailState reads this { TailState(sig, offset, backfilling, chunks) }

    constructor ()
      ensures State() == FRESH
    {
      sig, offset, backfilling, chunks := Unset, 0, false, [];
    }

    method TailSource(io: PassIo, cap: nat) returns (ingested: Option<bool>)
      modifies this
      ensures (State(), ingested) == TailPass(old(State()), io, cap)
    {
      var newSig := SigOf(io.stat);
      if newSig == sig && !backfilling {
        return Some(false);
      }
      var len := |Text(io.len)|;
      if len < offset {
        return None;
      }
      sig := newSig;
      if len == offset {
        backfilling := false;
        return Some(false);
      }
      var lines := ReadNewLines(io, offset, cap);
      if lines.None? {
        backfilling := false;
        return Some(false);
      }
      backfilling := lines.value.more;
      chunks := chunks + [lines.value.bytes];
      offset := lines.value.newOffset;
      return Some(true);
    }

    method Scan(first: PassIo, retry: PassIo, cap: nat) returns (changed: bool)
      modifies this
      ensures (State(), changed) == ScanPass(old(State()), first, retry, cap)
    {
      var ingested := TailSource(first, cap);
      if ingested.Some? {
        return ingested.value;
      }
      chunks, offset, backfilling := [], 0, false;
      var _ := TailSource(retry, cap);
      return true;
    }
  }

  /** Everything one call of `scan_once` returns: the state, and whether the history is complete. */
  method ScanOnce(passes: seq<(PassIo, PassIo)>, maxPasses: nat, cap: nat) returns (t: TailState, complete: bool)
    requires |passes| >= Max(1, maxPasses)
    ensures (t, complete) == Drain(FRESH, passes[..Max(1, maxPasses)], cap)
  {
    var tailer := new Tailer();
    var limit := Max(1, maxPasses);
    var k := 0;
    while k < limit
      invariant 0 <= k <= limit
      invariant Drain(FRESH, passes[..limit], cap) == Drain(tailer.State(), passes[k..limit], cap)
    {
      var _ := tailer.Scan(passes[k].0, passes[k].1, cap);
      k := k + 1;
      assert passes[k - 1..limit][1..] == passes[k..limit];
      if !tailer.backfilling {
        return tailer.State(), true;
      }
    }
    return tailer.State(), false;
  }

  /** Passes until one leaves no backlog; `false` when they run out first. */
  function Drain(t: TailState, passes: seq<(PassIo, PassIo)>, cap: nat): (TailState, bool)
    decreases |passes|
  {
    if passes == [] then (t, false) else
    var t' := ScanPass(t, passes[0].0, passes[0].1, cap).0;
    if !t'.backfilling then (t', true) else Drain(t', passes[1..], cap)
  }
}
