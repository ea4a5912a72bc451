/** The PTY read loop: how raw reads become the chunks a pane's parser is handed. */
module PtyReader {
  import opened Common
  import opened Utf8

  /** `buf` ends in a character that starts at `i` and has bytes still to come. */
  predicate Truncated(buf: seq<byte>, i: nat) {
    i < |buf| <= i + 3 && !IsCont(buf[i]) && Announced(buf[i]) > |buf| - i
    && forall j :: i < j < |buf| ==> IsCont(buf[j])
  }

  /** Where a chunk may end: before its truncated character, or at its very end. */
  ghost predicate IsReadyLen(buf: seq<byte>, r: nat) {
    if r < |buf| then Truncated(buf, r) else r == |buf| && !exists i :: Truncated(buf, i)
  }

  /** The length of the prefix of `buf` that splits no character. */
  method Utf8ReadyPrefixLen(buf: seq<byte>) returns (r: nat)
    ensures r <= |buf| <= r + 3
    ensures IsReadyLen(buf, r)
  {
    var len := |buf|;
    var start := Max(0, len - 3);
    var i := len;
    while i > start
      invariant start <= i <= len
      invariant forall j :: i <= j < len ==> IsCont(buf[j])
    {
      i := i - 1;
      var b := buf[i];
      if !(0x80 <= b <= 0xBF) {
        var expected := if b <= 0x7F then 1
                        else if 0xC0 <= b <= 0xDF then 2
                        else if 0xE0 <= b <= 0xEF then 3 else 4;
        if len - i < expected {
          return i;
        }
        TruncatedOnlyAtLead(buf, i);
        return len;
      }
    }
    return len;
  }

  /** The last byte that starts a character is the only place a truncated one can start. */
  lemma TruncatedOnlyAtLead(buf: seq<byte>, i: nat)
    requires i < |buf| && !IsCont(buf[i])
    requires forall j :: i < j < |buf| ==> IsCont(buf[j])
    ensures forall k :: Truncated(buf, k) ==> k == i
  {}

  /** One `read` call: the bytes it returned (none at end of file), or an error. */
  datatype ReadResult = Data(bytes: seq<byte>) | Failed

  /** The bytes the loop receives before it stops at end of file or an error. */
  function Received(script: seq<ReadResult>): seq<byte>
  {
    if script == [] || script[0].Failed? || script[0].bytes == [] then []
    else script[0].bytes + Received(script[1..])
  }

  /** How many reads return bytes before the stream ends. */
  function ReadCount(script: seq<ReadResult>): nat
  {
    if script == [] || script[0].Failed? || script[0].bytes == [] then 0 else 1 + ReadCount(script[1..])
  }

  /** The bytes of the first `n` reads, while the stream lasts. */
  function BytesOf(script: seq<ReadResult>, n: nat): seq<byte>
    requires n <= ReadCount(script)
  {
    if n == 0 then [] else script[0].bytes + BytesOf(script[1..], n - 1)
  }

  lemma {:induction false} BytesOfNext(script: seq<ReadResult>, n: nat)
    requires n < ReadCount(script)
    ensures n < |script| && script[n].Data? && script[n].bytes != []
    ensures BytesOf(script, n + 1) == BytesOf(script, n) + script[n].bytes
  {
    if n > 0 {
      BytesOfNext(script[1..], n - 1);
    }
  }

  /** The reads that return bytes are followed by the end of the stream, an error or nothing. */
  lemma {:induction false} ReadCountIs(script: seq<ReadResult>, n: nat)
    requires n <= ReadCount(script)
    requires n == |script| || (n < |script| && (script[n].Failed? || script[n].bytes == []))
    ensures n == ReadCount(script) && BytesOf(script, n) == Received(script)
  {
    if n > 0 {
      ReadCountIs(script[1..], n - 1);
    }
  }

  lemma {:induction false} OneMoreRead(script: seq<ReadResult>, n: nat)
    requires n <= ReadCount(script) && n < |script| && script[n].Data? && script[n].bytes != []
    ensures n < ReadCount(script)
  {
    if n > 0 {
      OneMoreRead(script[1..], n - 1);
    }
  }

  // ---- The pane ----------------------------------------------------------------------------

  /** A chunk handed to the parser, and how many reads had been made by then. */
  datatype Handed = Handed(made: nat, bytes: seq<byte>)

  /** The reader thread's surroundings: the PTY it reads from, and the parser it hands chunks to. */
  class Pane {
    const script: seq<ReadResult>
    var made: nat
    var log: seq<Handed>

    constructor (script: seq<ReadResult>)
      ensures this.script == script && made == 0 && log == []
    {
      this.script, made, log := script, 0, [];
    }

    /** The next read; there is nothing behind the end of the script. */
    method Read() returns (r: ReadResult)
      modifies this`made
      ensures made == old(made) + 1
      ensures r == if old(made) < |script| then script[old(made)] else Data([])
    {
      r := if made < |script| then script[made] else Data([]);
      made := made + 1;
    }

    method Process(data: seq<byte>)
      modifies this`log
      ensures log == old(log) + [Handed(made, data)]
    {
      log := log + [Handed(made, data)];
    }
  }

  function Chunks(log: seq<Handed>): seq<seq<byte>> {
    seq(|log|, i requires 0 <= i < |log| => log[i].bytes)
  }

  /** What the parser had been handed when `n` reads had been made and the next not yet. */
  function HandedBy(log: seq<Handed>, n: nat): seq<byte> {
    if log == [] then []
    else HandedBy(log[..|log| - 1], n) + (if log[|log| - 1].made <= n then log[|log| - 1].bytes else [])
  }

  /** After each read the parser had been handed all that was received but a truncated character. */
  ghost predicate HandedPromptly(script: seq<ReadResult>, log: seq<Handed>, upTo: nat) {
    forall n :: 0 <= n <= upTo && n <= ReadCount(script) ==> HandedAt(script, log, n)
  }

  ghost predicate HandedAt(script: seq<ReadResult>, log: seq<Handed>, n: nat)
    requires n <= ReadCount(script)
  {
    HandedBy(log, n) <= BytesOf(script, n) && IsReadyLen(BytesOf(script, n), |HandedBy(log, n)|)
  }

  /** Every chunk is non-empty and splits no character. */
  predicate WholeChunks(chunks: seq<seq<byte>>) {
    forall c :: c in chunks ==> c != [] && WellFormed(c)
  }

  /** What has reached the parser, and what is held back, with `rest` of the stream `whole` unread. */
  ghost predicate Delivered(whole: seq<byte>, chunks: seq<seq<byte>>, carry: seq<byte>, rest: seq<byte>) {
    && |carry| <= 3
    && (carry != [] ==> Truncated(carry, 0))
    && Flatten(chunks) + (carry + rest) == whole
    && (WellFormed(whole) ==> WellFormed(carry + rest) && WholeChunks(chunks))
  }

  /** If the next byte continues a character, the one before it is truncated. */
  lemma ContinuationMeansTruncated(data: seq<byte>, rest: seq<byte>) returns (i: nat)
    requires WellFormed(data + rest) && rest != [] && IsCont(rest[0])
    ensures Truncated(data, i)
  {
    i := LeadBefore(data + rest, |data|);
    assert forall j :: i <= j < |data| ==> data[j] == (data + rest)[j];
  }

  /** A chunk cut at its ready length is well-formed, and so is everything after it. */
  lemma ReadyCutIsBoundary(data: seq<byte>, rest: seq<byte>, r: nat)
    requires WellFormed(data + rest) && r <= |data| && IsReadyLen(data, r)
    ensures WellFormed(data[..r]) && WellFormed(data[r..] + rest)
  {
    var s := data + rest;
    if r == |data| && rest != [] && IsCont(rest[0]) {
      var i := ContinuationMeansTruncated(data, rest);
      assert false;
    }
    SplitAtBoundary(s, r);
    assert s[..r] == data[..r] && s[r..] == data[r..] + rest;
  }

  /** The ready length of what has come of a text so far is all of it that is text: nothing complete waits. */
  lemma ReadyIsLongestText(data: seq<byte>, rest: seq<byte>, r: nat, m: nat)
    requires WellFormed(data + rest) && r <= |data| && IsReadyLen(data, r) && r < m <= |data|
    ensures WellFormed(data[..r]) && !WellFormed(data[..m])
  {
    ReadyCutIsBoundary(data, rest, r);
    assert data[..m][r] == data[r];
    if WellFormed(data[..m]) {
      CharIsComplete(data[..m], r);
    }
  }

  /** A character of a text has all the bytes its lead announces. */
  lemma CharIsComplete(s: seq<byte>, i: nat)
    requires WellFormed(s) && i < |s| && !IsCont(s[i])
    ensures Announced(s[i]) <= |s| - i
  {
    SplitAtBoundary(s, i);
    assert s[i..][0] == s[i];
  }

  lemma CutKeepsBytes(chunks: seq<seq<byte>>, data: seq<byte>, rest: seq<byte>, r: nat)
    requires r <= |data|
    ensures Flatten(chunks + [data[..r]]) + (data[r..] + rest) == Flatten(chunks) + (data + rest)
  {
    FlattenOne(chunks, data[..r]);
    assert data[..r] + data[r..] == data;
  }

  /** One iteration keeps the delivery invariant. */
  lemma ReadKeepsDelivery(whole: seq<byte>, chunks: seq<seq<byte>>, carry: seq<byte>,
                          bytes: seq<byte>, rest: seq<byte>, r: nat)
    requires Delivered(whole, chunks, carry, bytes + rest)
    requires r <= |carry + bytes| <= r + 3 && IsReadyLen(carry + bytes, r)
    ensures var data := carry + bytes;
            Delivered(whole, if r == 0 then chunks else chunks + [data[..r]], data[r..], rest)
  {
    hide WellFormed, Flatten;
    var data := carry + bytes;
    var after := if r == 0 then chunks else chunks + [data[..r]];
    assert data + rest == carry + (bytes + rest);
    assert Flatten(after) + (data[r..] + rest) == whole by {
      if r == 0 {
        assert data[r..] == data;
      } else {
        CutKeepsBytes(chunks, data, rest, r);
      }
    }
    if WellFormed(whole) {
      ReadyCutIsBoundary(data, rest, r);
    }
    assert data[r..] != [] ==> Truncated(data[r..], 0);
  }

  /** A character with bytes still to come is not well-formed on its own. */
  lemma TruncatedIsIllFormed(carry: seq<byte>)
    requires Truncated(carry, 0)
    ensures !WellFormed(carry)
  {}

  lemma {:induction false} HandedByAll(log: seq<Handed>, n: nat)
    requires forall h :: h in log ==> h.made <= n
    ensures HandedBy(log, n) == Flatten(Chunks(log))
  {
    if log != [] {
      var init := log[..|log| - 1];
      HandedByAll(init, n);
      assert Chunks(log)[..|log| - 1] == Chunks(init);
    }
  }

  /** A chunk handed over later changes nothing about earlier reads. */
  lemma HandedLater(log: seq<Handed>, h: Handed, n: nat)
    requires h.made > n
    ensures HandedBy(log + [h], n) == HandedBy(log, n)
  {
    assert (log + [h])[..|log|] == log;
  }

  lemma TruncatedBefore(got: seq<byte>, bytes: seq<byte>, i: nat)
    requires i < |got| && Truncated(got + bytes, i)
    ensures Truncated(got, i) && forall j :: i < j < |got| ==> IsCont(got[j])
  {
    assert forall j :: i <= j < |got| ==> (got + bytes)[j] == got[j];
  }

  /** What was ready stays ready: nothing cut off before is truncated again by more bytes. */
  lemma ReadyGoesOn(got: seq<byte>, handed: nat, bytes: seq<byte>, r: nat)
    requires handed <= |got| && IsReadyLen(got, handed)
    requires r <= |got[handed..] + bytes| && IsReadyLen(got[handed..] + bytes, r)
    ensures IsReadyLen(got + bytes, handed + r)
  {
    var all, data := got + bytes, got[handed..] + bytes;
    assert all[handed..] == data;
    forall i: nat | Truncated(all, i) ensures i >= handed {
      if i < handed {
        TruncatedBefore(got, bytes, i);
      }
    }
    forall i: nat | handed <= i < |all| ensures Truncated(all, i) <==> Truncated(data, i - handed) {
      assert forall j :: i <= j < |all| ==> all[j] == data[j - handed];
    }
  }

  /** What the loop knows after `n` reads: what it handed over, and when, and what it carries. */
  ghost predicate LoopInv(script: seq<ReadResult>, log: seq<Handed>, carry: seq<byte>, n: nat) {
    && n <= ReadCount(script) && n <= |script|
    && (forall h :: h in log ==> h.made <= n && h.bytes != [])
    && HandedPromptly(script, log, n) && HandedAt(script, log, n)
    && carry == BytesOf(script, n)[|HandedBy(log, n)|..]
    && Delivered(Received(script), Chunks(log), carry, Received(script[n..]))
  }

  lemma LoopStarts(script: seq<ReadResult>)
    ensures LoopInv(script, [], [], 0)
  {
    assert script[0..] == script;
    var whole := Received(script);
    assert [] + whole == whole;
    assert HandedAt(script, [], 0);
  }

  /** The log after `data` was handed over, if there was any. */
  function Logged(log: seq<Handed>, n: nat, data: seq<byte>): seq<Handed> {
    if data == [] then log else log + [Handed(n, data)]
  }

  lemma LoggedParts(log: seq<Handed>, n: nat, data: seq<byte>)
    requires forall h :: h in log ==> h.made < n
    ensures var after := Logged(log, n, data);
      && HandedBy(after, n) == HandedBy(log, n) + data
      && Chunks(after) == (if data == [] then Chunks(log) else Chunks(log) + [data])
      && forall m :: 0 <= m < n ==> HandedBy(after, m) == HandedBy(log, m)
  {
    var after := Logged(log, n, data);
    if data != [] {
      assert after[..|log|] == log;
    }
  }

  lemma EarlierIsSame(log: seq<Handed>, n: nat)
    requires forall h :: h in log ==> h.made <= n
    ensures HandedBy(log, n + 1) == HandedBy(log, n)
  {
    HandedByAll(log, n);
    HandedByAll(log, n + 1);
  }

  lemma LoopFacts(script: seq<ReadResult>, log: seq<Handed>, carry: seq<byte>, n: nat)
    requires LoopInv(script, log, carry, n)
    ensures n <= ReadCount(script) && HandedBy(log, n) <= BytesOf(script, n)
    ensures IsReadyLen(BytesOf(script, n), |HandedBy(log, n)|)
    ensures carry == BytesOf(script, n)[|HandedBy(log, n)|..] && forall h :: h in log ==> h.made <= n
  {
    hide IsReadyLen, HandedBy, BytesOf, Delivered;
  }

  /** After a read the parser has all but a truncated character of what was received. */
  lemma HandedAfterRead(script: seq<ReadResult>, log: seq<Handed>, carry: seq<byte>, n: nat, r: nat)
    requires LoopInv(script, log, carry, n) && n < ReadCount(script) && n < |script| && script[n].Data?
    requires r <= |carry + script[n].bytes| && IsReadyLen(carry + script[n].bytes, r)
    ensures var data := carry + script[n].bytes;
      var after := Logged(log, n + 1, data[..r]);
      && HandedBy(after, n + 1) <= BytesOf(script, n + 1)
      && IsReadyLen(BytesOf(script, n + 1), |HandedBy(after, n + 1)|)
      && data[r..] == BytesOf(script, n + 1)[|HandedBy(after, n + 1)|..]
  {
    hide *;
    var bytes, got := script[n].bytes, BytesOf(script, n);
    LoopFacts(script, log, carry, n);
    BytesOfNext(script, n);
    EarlierIsSame(log, n);
    LoggedParts(log, n + 1, (carry + bytes)[..r]);
    ReadyGoesOn(got, |HandedBy(log, n)|, bytes, r);
    HandedSplit(HandedBy(log, n), got, carry, bytes, r);
  }

  lemma HandedSplit(handed: seq<byte>, got: seq<byte>, carry: seq<byte>, bytes: seq<byte>, r: nat)
    requires handed <= got && carry == got[|handed|..] && r <= |carry + bytes|
    ensures var data := carry + bytes;
      && handed + data[..r] <= got + bytes && data[r..] == (got + bytes)[|handed + data[..r]|..]
  {
    var data := carry + bytes;
    assert got + bytes == handed + data;
    assert data == data[..r] + data[r..];
  }

  /** One iteration of the loop. */
  lemma ReadKeepsLoop(script: seq<ReadResult>, log: seq<Handed>, carry: seq<byte>, n: nat, r: nat)
    requires LoopInv(script, log, carry, n) && n < |script| && script[n].Data? && script[n].bytes != []
    requires r <= |carry + script[n].bytes| <= r + 3 && IsReadyLen(carry + script[n].bytes, r)
    ensures var data := carry + script[n].bytes;
      LoopInv(script, Logged(log, n + 1, data[..r]), data[r..], n + 1)
  {
    hide Delivered, IsReadyLen, Truncated, HandedPromptly, HandedAt, HandedBy, BytesOf, Chunks, Flatten;
    hide Received, ReadCount, WellFormed;
    var data := carry + script[n].bytes;
    var after := Logged(log, n + 1, data[..r]);
    OneMoreRead(script, n);
    HandedAfterRead(script, log, carry, n, r);
    LoggedParts(log, n + 1, data[..r]);
    PromptAfterRead(script, log, after, n);
    ReceivedRest(script, n);
    ReadKeepsDelivery(Received(script), Chunks(log), carry, script[n].bytes, Received(script[n + 1..]), r);
    assert r == 0 <==> data[..r] == [];
  }

  lemma ReceivedRest(script: seq<ReadResult>, n: nat)
    requires n < |script| && script[n].Data? && script[n].bytes != []
    ensures Received(script[n..]) == script[n].bytes + Received(script[n + 1..])
  {
    assert script[n..][1..] == script[n + 1..];
  }

  lemma PromptAfterRead(script: seq<ReadResult>, log: seq<Handed>, after: seq<Handed>, n: nat)
    requires n < ReadCount(script) && HandedPromptly(script, log, n)
    requires forall m :: 0 <= m < n + 1 ==> HandedBy(after, m) == HandedBy(log, m)
    requires HandedBy(after, n + 1) <= BytesOf(script, n + 1)
    requires IsReadyLen(BytesOf(script, n + 1), |HandedBy(after, n + 1)|)
    ensures HandedPromptly(script, after, n + 1) && HandedAt(script, after, n + 1)
  {
    hide IsReadyLen, HandedBy, BytesOf, ReadCount;
    forall m | 0 <= m <= n ensures HandedAt(script, after, m) {
      assert HandedAt(script, log, m);
    }
  }

  lemma StillPrompt(script: seq<ReadResult>, log: seq<Handed>, after: seq<Handed>, m: nat)
    requires m <= ReadCount(script) && HandedAt(script, log, m) && HandedBy(after, m) == HandedBy(log, m)
    ensures HandedAt(script, after, m)
  {}

  lemma LoopWithin(script: seq<ReadResult>, log: seq<Handed>, carry: seq<byte>, n: nat)
    requires LoopInv(script, log, carry, n)
    ensures n <= |script|
  {}

  lemma LoggedIs(log: seq<Handed>, n: nat, data: seq<byte>)
    ensures Logged(log, n, data) == if data == [] then log else log + [Handed(n, data)]
  {}

  /** The stream has ended after `n` reads; what is carried is flushed. */
  lemma LoopEnds(script: seq<ReadResult>, log: seq<Handed>, carry: seq<byte>, n: nat)
    requires LoopInv(script, log, carry, n)
    requires n == |script| || (n < |script| && (script[n].Failed? || script[n].bytes == []))
    ensures var after := Logged(log, n + 1, carry);
      && n == ReadCount(script) && HandedPromptly(script, after, n)
      && Flatten(Chunks(after)) == Received(script)
      && (forall h :: h in after ==> h.bytes != [])
      && (WellFormed(Received(script)) ==> WholeChunks(Chunks(after)) && forall h :: h in after ==> h.made <= n)
  {
    hide HandedAt, IsReadyLen, WellFormed, HandedBy, BytesOf, Flatten, Chunks, ReadCount, Truncated, WholeChunks;
    var after := Logged(log, n + 1, carry);
    ReadCountIs(script, n);
    LoggedParts(log, n + 1, carry);
    assert carry + [] == carry;
    if carry != [] {
      TruncatedIsIllFormed(carry);
      FlattenOne(Chunks(log), carry);
    }
    forall m | 0 <= m <= n ensures HandedAt(script, after, m) {
      StillPrompt(script, log, after, m);
    }
  }

  /**
   * The blocking read loop: carry a truncated character over to the next read, hand the parser
   * every other byte at once, and flush what is left when the stream ends.
   */
  method ReaderLoop(pane: Pane)
    requires pane.made == 0 && pane.log == []
    modifies pane
    ensures pane.made == ReadCount(pane.script) + 1
    ensures HandedPromptly(pane.script, pane.log, ReadCount(pane.script))
    ensures Flatten(Chunks(pane.log)) == Received(pane.script)
    ensures forall h :: h in pane.log ==> h.bytes != []
    ensures WellFormed(Received(pane.script)) ==>
      WholeChunks(Chunks(pane.log)) && forall h :: h in pane.log ==> h.made <= ReadCount(pane.script)
  {
    hide *;
    var carry := [];
    LoopStarts(pane.script);
    while true
      invariant LoopInv(pane.script, pane.log, carry, pane.made)
      invariant pane.made <= |pane.script|
      decreases |pane.script| - pane.made
    {
      ghost var n, log := pane.made, pane.log;
      var result := pane.Read();
      LoopWithin(pane.script, log, carry, n);
      if result.Failed? || result.bytes == [] {
        break;
      }
      var data := carry + result.bytes;
      var ready := Utf8ReadyPrefixLen(data);
      ReadKeepsLoop(pane.script, log, carry, n, ready);
      carry := data[ready..];
      data := data[..ready];
      LoggedIs(log, n + 1, data);
      if data != [] {
        pane.Process(data);
      }
    }
    LoopEnds(pane.script, pane.log, carry, pane.made - 1);
    LoggedIs(pane.log, pane.made, carry);
    if carry != [] {
      pane.Process(carry);
    }
  }

  /** However a well-formed stream was split into reads, the parser sees the same characters. */
  lemma ChunkingIsInvisible(chunks: seq<seq<byte>>, others: seq<seq<byte>>)
    requires Flatten(chunks) == Flatten(others)
    requires forall c :: c in chunks + others ==> WellFormed(c)
    ensures Flatten(seq(|chunks|, i requires 0 <= i < |chunks| => Chars(chunks[i])))
         == Flatten(seq(|others|, i requires 0 <= i < |others| => Chars(others[i])))
  {
    CharsOfPieces(chunks);
    CharsOfPieces(others);
  }
}
