/** What incremental tailing guarantees about the text its parser has been given. */
module TailProofs {
  import opened Common
  import opened Utf8
  import opened Tail

  // ---- The environment ---------------------------------------------------------------------

  /** `g` is `f` or a later version of it; every change moves the modification time on. */
  predicate Later(f: FileState, g: FileState) { f == g || f.mtime < g.mtime }

  /** Between two looks of one pass the file can only be appended to. */
  predicate Grows(f: FileState, g: FileState) {
    Later(f, g) && Text(f) <= Text(g)
  }

  /** The writer appends, or creates the file, while a pass reads. */
  predicate RacingPass(io: PassIo) {
    Later(io.stat, io.len) && Grows(io.len, io.open) && Grows(io.open, io.read) && Grows(io.read, io.rest)
  }

  /**
   * The file is cut short or removed while a pass reads. Whatever the looks in between saw, it is in
   * the end shorter than what has been ingested, or nothing has been.
   */
  predicate CutShort(t: TailState, io: PassIo, cap: nat) {
    var ingested := TailPass(t, io, cap).0.offset;
    && Later(io.stat, io.len) && Later(io.len, io.open) && Later(io.open, io.read) && Later(io.read, io.rest)
    && (|Text(io.rest)| < ingested || ingested == 0)
  }

  predicate RacingOrCut(t: TailState, io: PassIo, cap: nat) { RacingPass(io) || CutShort(t, io, cap) }

  /** Since it was last seen the file was appended to, or is shorter than what was ingested. */
  predicate AppendsOrShrinks(offset: nat, f: FileState, g: FileState) {
    Later(f, g) && (|Text(g)| < offset || (offset <= |Text(f)| && Text(f)[..offset] <= Text(g)))
  }

  /** What a caller's pass may meet when the file was last seen as `f`; behind a closed gate it is never opened. */
  predicate Admissible(t: TailState, f: FileState, pass: (PassIo, PassIo), cap: nat) {
    var (first, retry) := pass;
    && Later(f, first.stat)
    && (GateClosed(t, first.stat) ||
        (Later(first.stat, first.len) && AppendsOrShrinks(t.offset, f, first.len) &&
         if |Text(first.len)| >= t.offset then RacingOrCut(t, first, cap)
         else Later(first.len, retry.stat) && (GateClosed(Reset(t), retry.stat) || RacingOrCut(Reset(t), retry, cap))))
  }

  /** The signature is the same exactly when the file is absent still, or neither stamp nor length moved. */
  lemma SameSigIff(f: FileState, g: FileState)
    ensures SigOf(f) == SigOf(g) <==>
      f.present == g.present && (f.present ==> f.mtime == g.mtime && |f.bytes| == |g.bytes|)
  {}

  // ---- Whole lines -------------------------------------------------------------------------

  /** `chunk` is whole lines. */
  predicate IsLines(chunk: seq<byte>) { chunk != [] && chunk[|chunk| - 1] == NL }

  /** `chunk` is one line and nothing else. */
  predicate IsOneLine(chunk: seq<byte>) { IsLines(chunk) && NL !in chunk[..|chunk| - 1] }

  /** The parser's text is exactly the ingested bytes, fed as whole lines. */
  predicate Consistent(t: TailState) {
    t.offset == |Fed(t)| && forall c :: c in t.chunks ==> IsLines(c)
  }

  /** The parser's text is the start of the file, and nothing else. */
  predicate Agrees(t: TailState, f: FileState) { Consistent(t) && Fed(t) <= Text(f) }

  lemma FedEndsLine(t: TailState)
    requires Consistent(t) && t.offset > 0
    ensures Fed(t)[t.offset - 1] == NL
  {
    var init, last := t.chunks[..|t.chunks| - 1], t.chunks[|t.chunks| - 1];
    assert Fed(t) == Flatten(init) + last;
    assert last in t.chunks;
  }

  /** A well-formed text splits behind a newline. */
  lemma LineEndIsBoundary(lines: seq<byte>, rest: seq<byte>)
    requires WellFormed(lines + rest) && IsLines(lines)
    ensures WellFormed(lines) && WellFormed(rest)
  {
    var s, k := lines + rest, |lines|;
    assert s[k - 1] == NL;
    if k < |s| && IsCont(s[k]) {
      var i := LeadBefore(s, k);
      assert false;
    }
    SplitAtBoundary(s, k);
    assert s[..k] == lines && s[k..] == rest;
  }

  /** Whole lines of a well-formed text are well-formed text, as is what follows them. */
  lemma {:induction false} LinesAreWellFormed(chunks: seq<seq<byte>>, rest: seq<byte>)
    requires WellFormed(Flatten(chunks) + rest)
    requires forall c :: c in chunks ==> IsLines(c)
    ensures forall c :: c in chunks ==> WellFormed(c)
    ensures WellFormed(rest)
  {
    if chunks == [] {
      assert [] + rest == rest;
    } else {
      var init, last := chunks[..|chunks| - 1], chunks[|chunks| - 1];
      assert Flatten(chunks) + rest == Flatten(init) + (last + rest);
      LinesAreWellFormed(init, last + rest);
      LineEndIsBoundary(last, rest);
      assert chunks == init + [last];
    }
  }

  // ---- One call ----------------------------------------------------------------------------

  /** What `Lines` keeps is whole lines, and longer than the window only when it is one line. */
  lemma LinesShape(window: seq<byte>, after: seq<byte>)
    requires Lines(window, after).Some?
    ensures var bytes := Lines(window, after).value;
      IsLines(bytes) && bytes <= window + after && (|bytes| <= |window| || IsOneLine(bytes))
  {
    hide WholeLen, LineLen;
    var n := LineLen(after);
    if WholeLen(window) == 0 {
      var line := window + after[..n];
      assert line[..|line| - 1] == window + after[..n - 1];
    }
  }

  /**
   * The lines read continue the text at `offset` of the file as last seen; no read is longer than
   * the cap unless it is a single line.
   */
  lemma NewLinesContinue(io: PassIo, offset: nat, cap: nat)
    requires RacingPass(io) && NewLines(io, offset, cap).Some?
    ensures var c := NewLines(io, offset, cap).value;
      && IsLines(c.bytes) && (|c.bytes| <= cap || IsOneLine(c.bytes))
      && c.more == (c.newOffset < |Text(io.open)|)
      && c.newOffset == offset + |c.bytes| <= |Text(io.rest)|
      && Text(io.rest)[offset..c.newOffset] == c.bytes
  {
    hide WholeLen, LineLen, Lines, Window, Remainder, RacingPass;
    var window := Window(io, offset, cap);
    var after := Remainder(io, offset + |window|);
    ReadsContinue(io, offset, cap);
    LinesShape(window, after);
    var bytes := Lines(window, after).value;
    assert bytes == Text(io.rest)[offset..][..|bytes|];
  }

  /** The two reads of a pass return successive bytes of the file as last seen. */
  lemma ReadsContinue(io: PassIo, offset: nat, cap: nat)
    requires RacingPass(io) && offset <= |Text(io.open)|
    ensures offset <= |Text(io.rest)| && |Window(io, offset, cap)| <= cap
    ensures Window(io, offset, cap) + Remainder(io, offset + |Window(io, offset, cap)|) == Text(io.rest)[offset..]
  {
    hide Slice;
    var rest, end := Text(io.rest), Min(|Text(io.open)|, offset + cap);
    assert Text(io.open) <= Text(io.read) <= rest;
    assert Window(io, offset, cap) == Text(io.read)[offset..end] == rest[offset..end];
    assert rest[offset..end] + rest[end..] == rest[offset..];
  }

  /** A call that does not meet a shrink keeps the parser's text a prefix of the file. */
  lemma TailPassAgrees(t: TailState, io: PassIo, cap: nat)
    requires Consistent(t) && RacingPass(io) && !Shrunk(t, io)
    ensures var t' := TailPass(t, io, cap).0;
      && Consistent(t') && Fed(t) <= Fed(t')
      && (Fed(t') <= Text(io.rest) <==> Fed(t) <= Text(io.rest))
  {
    hide NewLines, RacingPass, Flatten;
    var t' := TailPass(t, io, cap).0;
    if t'.chunks != t.chunks {
      NewLinesContinue(io, t.offset, cap);
      FeedingContinues(t.chunks, NewLines(io, t.offset, cap).value.bytes, Text(io.rest));
    }
  }

  lemma FeedingContinues(chunks: seq<seq<byte>>, bytes: seq<byte>, text: seq<byte>)
    requires var from := |Flatten(chunks)|; from + |bytes| <= |text| && text[from..from + |bytes|] == bytes
    ensures Flatten(chunks + [bytes]) == Flatten(chunks) + bytes
    ensures Flatten(chunks + [bytes]) <= text <==> Flatten(chunks) <= text
  {
    FlattenOne(chunks, bytes);
    hide Flatten;
    var from := |Flatten(chunks)|;
    assert text[..from + |bytes|] == text[..from] + bytes;
  }

  /**
   * A caller's pass leaves parser and file in agreement exactly when the file still begins with the
   * text already ingested, or is shorter than it and the signature gate let the pass look.
   */
  lemma ScanAgreesIff(t: TailState, first: PassIo, retry: PassIo, cap: nat)
    requires Consistent(t) && RacingPass(first) && RacingPass(retry)
    ensures var t' := ScanPass(t, first, retry, cap).0;
      && Consistent(t')
      && (Agrees(t', LastSeen(t, first, retry)) <==> Shrunk(t, first) || Fed(t) <= Text(SeenBy(t, first)))
  {
    if Shrunk(t, first) {
      TailPassAgrees(Reset(t), retry, cap);
    } else {
      TailPassAgrees(t, first, cap);
    }
  }

  // ---- An unchanging file ------------------------------------------------------------------

  function StaticPass(f: FileState): PassIo { PassIo(f, f, f, f, f, true) }

  /** On an unchanging file the window holds the next `cap` bytes and the remainder all others. */
  lemma StaticWindow(f: FileState, offset: nat, cap: nat)
    requires offset <= |Text(f)|
    ensures var end := Min(|Text(f)|, offset + cap);
      && Window(StaticPass(f), offset, cap) == Text(f)[offset..end]
      && Remainder(StaticPass(f), end) == Text(f)[end..]
  {}

  /** The whole-line prefix of a file starts with any whole-line prefix of it. */
  lemma WholeLenFrom(s: seq<byte>, k: nat)
    requires k <= |s| && (k == 0 || s[k - 1] == NL)
    ensures WholeLen(s) == k + WholeLen(s[k..])
  {
    WholeLenIs(s, k + WholeLen(s[k..]));
  }

  /** When nothing is read of an unchanging file, it has no complete line left. */
  lemma NothingReadMeansNoLine(f: FileState, offset: nat, cap: nat)
    requires offset < |Text(f)| && NewLines(StaticPass(f), offset, cap).None?
    ensures WholeLen(Text(f)[offset..]) == 0
  {
    hide Slice, WholeLen;
    var rest := Text(f)[offset..];
    var window := Window(StaticPass(f), offset, cap);
    var after := Remainder(StaticPass(f), offset + |window|);
    StaticWindow(f, offset, cap);
    assert rest == window + after;
    assert NL !in window && (after == [] || NL !in after);
    WholeLenIs(rest, 0);
  }

  /**
   * A pass over an unchanging file that leaves a backlog ingests at least a byte, and one that
   * leaves none has ingested the whole-line prefix.
   */
  lemma StaticPassProgress(t: TailState, f: FileState, cap: nat)
    requires Agrees(t, f) && !GateClosed(t, f)
    ensures var t' := TailPass(t, StaticPass(f), cap).0;
      && Agrees(t', f) && t'.sig == SigOf(f)
      && (t'.backfilling ==> t.offset < t'.offset < |Text(f)|)
      && (!t'.backfilling ==> t'.offset == WholeLen(Text(f)))
  {
    hide NewLines, WholeLen, Flatten;
    var io, s, t' := StaticPass(f), Text(f), TailPass(t, StaticPass(f), cap).0;
    TailPassAgrees(t, io, cap);
    if t'.offset > 0 {
      FedEndsLine(t');
      assert s[t'.offset - 1] == NL;
    }
    WholeLenFrom(s, t'.offset);
    if t.offset < |s| {
      if NewLines(io, t.offset, cap).None? {
        NothingReadMeansNoLine(f, t.offset, cap);
      } else {
        NewLinesContinue(io, t.offset, cap);
      }
    }
  }

  /** A window's last newline is the last one before the window's end. */
  lemma WindowEndsBehindLastLine(f: FileState, offset: nat, cap: nat, at: nat)
    requires offset <= at < offset + cap && at < |Text(f)| && Text(f)[at] == NL
    ensures NewLines(StaticPass(f), offset, cap).Some?
    ensures at < NewLines(StaticPass(f), offset, cap).value.newOffset
  {
    StaticWindow(f, offset, cap);
    var window := Window(StaticPass(f), offset, cap);
    assert window[at - offset] == NL;
  }

  /** Two passes in a row that leave a backlog move on by more than the cap. */
  lemma TwoPassesExceedCap(t: TailState, f: FileState, cap: nat)
    requires Agrees(t, f) && !GateClosed(t, f)
    requires TailPass(t, StaticPass(f), cap).0.backfilling
    requires TailPass(TailPass(t, StaticPass(f), cap).0, StaticPass(f), cap).0.backfilling
    ensures TailPass(TailPass(t, StaticPass(f), cap).0, StaticPass(f), cap).0.offset > t.offset + cap
  {
    hide NewLines, WholeLen, Flatten;
    var t1 := TailPass(t, StaticPass(f), cap).0;
    StaticPassProgress(t, f, cap);
    StaticPassProgress(t1, f, cap);
    var t2 := TailPass(t1, StaticPass(f), cap).0;
    FedEndsLine(t2);
    assert Text(f)[t2.offset - 1] == NL;
    if t2.offset <= t.offset + cap {
      WindowEndsBehindLastLine(f, t.offset, cap, t2.offset - 1);
    }
  }

  function StaticPasses(f: FileState, n: nat): seq<(PassIo, PassIo)> {
    seq(n, i => (StaticPass(f), StaticPass(f)))
  }

  lemma DrainStep(t: TailState, f: FileState, cap: nat, n: nat)
    requires Agrees(t, f) && n > 0
    ensures var t' := TailPass(t, StaticPass(f), cap).0;
      Drain(t, StaticPasses(f, n), cap) ==
        if t'.backfilling then Drain(t', StaticPasses(f, n - 1), cap) else (t', true)
  {
    assert StaticPasses(f, n)[1..] == StaticPasses(f, n - 1);
  }

  /** Draining an unchanging file succeeds within two passes for every `cap` bytes left. */
  lemma {:induction false} StaticDrain(t: TailState, f: FileState, cap: nat, n: nat, m: nat)
    requires Agrees(t, f) && !GateClosed(t, f)
    requires m >= 1 && n >= 2 * m && t.offset + m * cap >= |Text(f)|
    ensures var (t', complete) := Drain(t, StaticPasses(f, n), cap);
      complete && !t'.backfilling && Agrees(t', f) && t'.offset == WholeLen(Text(f))
    decreases m
  {
    hide TailPass, Agrees, WholeLen, StaticPasses, Drain;
    var io := StaticPass(f);
    var t1 := TailPass(t, io, cap).0;
    StaticPassProgress(t, f, cap);
    DrainStep(t, f, cap, n);
    if t1.backfilling {
      var t2 := TailPass(t1, io, cap).0;
      StaticPassProgress(t1, f, cap);
      DrainStep(t1, f, cap, n - 1);
      if t2.backfilling {
        TwoPassesExceedCap(t, f, cap);
        assert (m - 1) * cap == m * cap - cap;
        StaticDrain(t2, f, cap, n - 2, m - 1);
      }
    }
  }

  /** A one-shot scan of an unchanging file is complete, and complete means every whole line. */
  lemma ScanOnceCompletes(f: FileState, maxPasses: nat, cap: nat)
    requires cap > 0 && maxPasses >= 2 * (|Text(f)| / cap + 1)
    ensures var (t, complete) := Drain(FRESH, StaticPasses(f, maxPasses), cap);
      complete && Fed(t) == Text(f)[..WholeLen(Text(f))]
  {
    var m := |Text(f)| / cap + 1;
    assert m * cap >= |Text(f)| by {
      assert |Text(f)| == (|Text(f)| / cap) * cap + |Text(f)| % cap;
      assert m * cap == (|Text(f)| / cap) * cap + cap;
    }
    StaticDrain(FRESH, f, cap, maxPasses, m);
  }

  // ---- What a complete scan has read -------------------------------------------------------

  /** Where the last look at a file began, and whether it could read it. */
  datatype Look = Look(offset: nat, readable: bool)

  /** Passes over an unchanging file, each of which may be unable to read it. */
  function FlaggedPasses(f: FileState, flags: seq<bool>): seq<(PassIo, PassIo)> {
    seq(|flags|, i requires 0 <= i < |flags| =>
      (StaticPass(f).(readable := flags[i]), StaticPass(f).(readable := flags[i])))
  }

  /** The look a drain stops at. */
  function StoppingLook(t: TailState, f: FileState, flags: seq<bool>, cap: nat): Look
    decreases |flags|
  {
    if flags == [] then Look(t.offset, false) else
    var io := StaticPass(f).(readable := flags[0]);
    var t' := ScanPass(t, io, io, cap).0;
    if !t'.backfilling then Look(t.offset, flags[0]) else StoppingLook(t', f, flags[1..], cap)
  }

  /** A pass that could not read leaves no backlog and ingests nothing. */
  lemma FlaggedPass(t: TailState, f: FileState, readable: bool, cap: nat)
    requires Agrees(t, f) && !GateClosed(t, f)
    ensures var io := StaticPass(f).(readable := readable);
      var t' := ScanPass(t, io, io, cap).0;
      && Agrees(t', f) && (t'.backfilling ==> !GateClosed(t', f))
      && (!t'.backfilling ==> (t'.offset == WholeLen(Text(f)) <==> readable || t.offset == WholeLen(Text(f))))
  {
    if readable {
      StaticPassProgress(t, f, cap);
    } else if t.offset == |Text(f)| && t.offset > 0 {
      FedEndsLine(t);
      WholeLenIs(Text(f), t.offset);
    }
    hide WholeLen, NewLines, Flatten;
  }

  /**
   * However many passes a drain is given and whichever of them can read: when it says complete, it
   * has ingested every whole line exactly when the pass it stopped at could read the file, or found
   * nothing left to read.
   */
  lemma {:induction false} DrainedIffReadable(t: TailState, f: FileState, flags: seq<bool>, cap: nat)
    requires Agrees(t, f) && !GateClosed(t, f)
    ensures var (t', complete) := Drain(t, FlaggedPasses(f, flags), cap);
      var look := StoppingLook(t, f, flags, cap);
      && Agrees(t', f)
      && (complete ==> (t'.offset == WholeLen(Text(f)) <==> look.readable || look.offset == WholeLen(Text(f))))
    decreases |flags|
  {
    hide WholeLen, ScanPass, GateClosed, Agrees;
    if flags != [] {
      var io := StaticPass(f).(readable := flags[0]);
      FlaggedPass(t, f, flags[0], cap);
      assert FlaggedPasses(f, flags)[1..] == FlaggedPasses(f, flags[1..]);
      var t' := ScanPass(t, io, io, cap).0;
      if t'.backfilling {
        DrainedIffReadable(t', f, flags[1..], cap);
      }
    }
  }

  lemma {:induction false} AllReadable(t: TailState, f: FileState, flags: seq<bool>, cap: nat)
    requires forall i :: 0 <= i < |flags| ==> flags[i]
    ensures Drain(t, FlaggedPasses(f, flags), cap).1 ==> StoppingLook(t, f, flags, cap).readable
    decreases |flags|
  {
    hide ScanPass;
    if flags != [] {
      var io := StaticPass(f).(readable := flags[0]);
      assert FlaggedPasses(f, flags)[1..] == FlaggedPasses(f, flags[1..]);
      AllReadable(ScanPass(t, io, io, cap).0, f, flags[1..], cap);
    }
  }

  /** A one-shot scan whose passes can read says complete, under any bound, only with every whole line. */
  lemma CompleteMeansEveryLine(f: FileState, maxPasses: nat, cap: nat)
    ensures var (t, complete) := Drain(FRESH, StaticPasses(f, maxPasses), cap);
      Agrees(t, f) && (complete ==> Fed(t) == Text(f)[..WholeLen(Text(f))])
  {
    var flags := seq(maxPasses, i => true);
    assert FlaggedPasses(f, flags) == StaticPasses(f, maxPasses);
    DrainedIffReadable(FRESH, f, flags, cap);
    AllReadable(FRESH, f, flags, cap);
  }

  /** A file that cannot be opened is reported as completely read, with nothing read. */
  lemma UnreadableScanSaysComplete(f: FileState, maxPasses: nat, cap: nat)
    requires maxPasses > 0
    ensures Drain(FRESH, FlaggedPasses(f, seq(maxPasses, i => false)), cap) == (TailState(SigOf(f), 0, false, []), true)
  {
    var flags := seq(maxPasses, i => false);
    assert FlaggedPasses(f, flags)[0].0 == StaticPass(f).(readable := false);
  }

  lemma NoLineBehind(s: seq<byte>, k: nat)
    requires forall i :: k <= i < |s| ==> s[i] != NL
    ensures WholeLen(s) <= k
  {}

  /** When a racing call reads nothing, the file held no complete line when its length was taken. */
  lemma NothingReadYet(io: PassIo, offset: nat, cap: nat)
    requires RacingPass(io) && io.readable && offset < |Text(io.len)| && NewLines(io, offset, cap).None?
    ensures WholeLen(Text(io.len)) <= offset
  {
    var len, rest := Text(io.len), Text(io.rest);
    assert len <= Text(io.open) && len <= rest;
    ReadsContinue(io, offset, cap);
    var window := Window(io, offset, cap);
    var after := Remainder(io, offset + |window|);
    hide Window, Remainder, RacingPass;
    forall i | offset <= i < |len| ensures len[i] != NL {
      assert len[i] == rest[offset..][i - offset] == (window + after)[i - offset];
      if i - offset < |window| {
        assert window[i - offset] != NL;
      } else {
        assert after[i - offset - |window|] != NL;
      }
    }
    NoLineBehind(len, offset);
  }

  /**
   * Also against a writer: a pass that leaves no backlog has ingested every line that was whole when
   * it took the file's length, exactly when it could read the file or there was no such line left.
   */
  lemma SettledPassIff(t: TailState, io: PassIo, cap: nat)
    requires RacingPass(io) && !GateClosed(t, io.stat) && !Shrunk(t, io) && !TailPass(t, io, cap).0.backfilling
    ensures TailPass(t, io, cap).0.offset >= WholeLen(Text(io.len))
      <==> io.readable || t.offset >= WholeLen(Text(io.len))
  {
    assert |Text(io.len)| <= |Text(io.open)|;
    hide WholeLen, RacingPass;
    if io.readable && t.offset < |Text(io.len)| {
      hide NewLines;
      if NewLines(io, t.offset, cap).None? {
        NothingReadYet(io, t.offset, cap);
      } else {
        NewLinesContinue(io, t.offset, cap);
      }
    }
  }
}
