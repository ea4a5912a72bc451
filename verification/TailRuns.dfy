/** Tailing over whole runs: any number of passes against a writer that races every one of them. */
module TailRuns {
  import opened Common
  import opened Utf8
  import opened Tail
  import opened TailProofs

  /**
   * The file has vanished and the tail cannot tell: it stored the signature of an absent file, took
   * the file's text in the same pass, and noted no backlog.
   */
  predicate Lost(t: TailState, f: FileState) { t.sig.Absent? && !t.backfilling && t.offset > 0 && !f.present }

  /** The file is shorter than what was ingested, and the next pass will see it. */
  predicate Behind(t: TailState, f: FileState) { |Text(f)| < t.offset && !GateClosed(t, f) }

  /** With the gate closed, every whole line was ingested exactly when the last look could read, or nothing was left. */
  predicate SettledIff(t: TailState, f: FileState, look: Look) {
    GateClosed(t, f) && !Lost(t, f) ==>
      (t.offset == WholeLen(Text(f)) <==> look.readable || look.offset == WholeLen(Text(f)))
  }

  /** The last look of a caller's pass; a retry behind a closed gate looks at nothing. */
  function LookAfter(t: TailState, look: Look, first: PassIo, retry: PassIo): Look {
    if GateClosed(t, first.stat) then look
    else if !Shrunk(t, first) then Look(t.offset, first.readable)
    else Look(0, !GateClosed(Reset(t), retry.stat) && retry.readable)
  }

  /**
   * What holds between passes. `seen` is the file whose signature is stored, `cur` the file as last
   * seen, `look` the last look that got past the gate.
   */
  ghost predicate Inv(t: TailState, seen: FileState, cur: FileState, look: Look) {
    && Consistent(t) && (Agrees(t, cur) || Lost(t, cur) || Behind(t, cur))
    && (t.sig.Unset? ==> t == FRESH)
    && (!t.sig.Unset? ==>
          t.sig == SigOf(seen) && Later(seen, cur) && look.offset <= t.offset && SettledIff(t, cur, look))
  }

  /** If the stamp of a racing pass's stat is still good after the pass, nothing raced it. */
  lemma StampStillGood(io: PassIo)
    requires RacingPass(io) && io.stat.present && SigOf(io.stat) == SigOf(io.rest)
    ensures io == StaticPass(io.stat).(readable := io.readable)
  {}

  lemma UnreadPass(t: TailState, io: PassIo, cap: nat)
    requires !io.readable
    ensures TailPass(t, io, cap).0.offset == t.offset
  {}

  lemma LookSettles(t: TailState, io: PassIo, cap: nat)
    requires Consistent(t) && Fed(t) <= Text(io.rest)
    requires RacingPass(io) && !GateClosed(t, io.stat) && !Shrunk(t, io)
    ensures SettledIff(TailPass(t, io, cap).0, io.rest, Look(t.offset, io.readable))
  {
    hide WholeLen, NewLines;
    var t' := TailPass(t, io, cap).0;
    TailPassAgrees(t, io, cap);
    if GateClosed(t', io.rest) {
      if io.stat.present {
        StampStillGood(io);
        if io.readable {
          StaticPassProgress(t, io.stat, cap);
        } else {
          UnreadPass(t, io, cap);
        }
      } else {
        assert Text(io.rest) == [];
        hide Flatten;
      }
    }
  }

  /** A pass that looks at the file establishes the invariant, whether or not it can read it. */
  lemma LookingEstablishesInv(t: TailState, io: PassIo, cap: nat)
    requires Consistent(t) && Fed(t) <= Text(io.rest)
    requires RacingPass(io) && !GateClosed(t, io.stat) && !Shrunk(t, io)
    ensures Inv(TailPass(t, io, cap).0, io.stat, io.rest, Look(t.offset, io.readable))
  {
    TailPassAgrees(t, io, cap);
    LookSettles(t, io, cap);
    hide Flatten, WholeLen, NewLines, SettledIff, Lost;
  }

  /** A pass behind a closed gate: an unchanged file, or a vanished one the tail cannot tell from absent. */
  lemma ClosedGateKeepsInv(t: TailState, seen: FileState, cur: FileState, look: Look, f: FileState)
    requires Inv(t, seen, cur, look) && Later(cur, f) && GateClosed(t, f)
    ensures Inv(t, seen, f, look)
  {
    hide Flatten, WholeLen;
    if seen.present {
      assert seen == cur == f;
    } else {
      assert Text(f) == [];
      WholeLenIs([], 0);
      if t.offset == 0 {
        assert Fed(t) == [];
      }
    }
  }

  lemma RacingPassStaysWithin(t: TailState, io: PassIo, cap: nat)
    requires RacingPass(io) && !GateClosed(t, io.stat) && !Shrunk(t, io)
    ensures TailPass(t, io, cap).0.offset <= |Text(io.rest)|
  {
    assert |Text(io.len)| <= |Text(io.rest)|;
    hide NewLines, RacingPass;
    if NewLines(io, t.offset, cap).Some? {
      NewLinesContinue(io, t.offset, cap);
    }
  }

  lemma CuttingMovesStamp(t: TailState, io: PassIo, cap: nat)
    requires CutShort(t, io, cap) && !GateClosed(t, io.stat) && !Shrunk(t, io)
    requires io.rest.present && SigOf(io.stat) == SigOf(io.rest)
    ensures RacingPass(io) && TailPass(t, io, cap).0.offset == 0
  {
    hide TailPass;
    RacingPassStaysWithin(t, io, cap);
  }

  /** A pass during which the file was cut short leaves it behind, or lost, if anything was ingested. */
  lemma CutShortIsBehind(t: TailState, io: PassIo, cap: nat)
    requires Consistent(t) && CutShort(t, io, cap) && !GateClosed(t, io.stat) && !Shrunk(t, io)
    ensures var t' := TailPass(t, io, cap).0;
      && Consistent(t') && t'.offset >= t.offset && t'.sig == SigOf(io.stat)
      && (t'.offset > 0 ==> Behind(t', io.rest) || Lost(t', io.rest))
  {
    EveryPassFeedsLines(t, io, cap);
    if io.rest.present && SigOf(io.stat) == SigOf(io.rest) {
      CuttingMovesStamp(t, io, cap);
    }
    hide NewLines, Flatten;
  }

  lemma EveryPassFeedsLines(t: TailState, io: PassIo, cap: nat)
    requires Consistent(t)
    ensures var t' := TailPass(t, io, cap).0; Consistent(t') && t'.offset >= t.offset
  {
    hide Lines, Flatten, Window, Remainder;
    var t' := TailPass(t, io, cap).0;
    if t'.chunks != t.chunks {
      var window := Window(io, t.offset, cap);
      LinesShape(window, Remainder(io, t.offset + |window|));
      FlattenOne(t.chunks, NewLines(io, t.offset, cap).value.bytes);
    }
  }

  /** A file cut short before anything was ingested: the gate is open, or the file is absent. */
  lemma CutFromNothing(t: TailState, io: PassIo, cap: nat)
    requires Consistent(t) && CutShort(t, io, cap) && !GateClosed(t, io.stat) && !Shrunk(t, io)
    requires TailPass(t, io, cap).0.offset == 0
    ensures Inv(TailPass(t, io, cap).0, io.stat, io.rest, Look(t.offset, io.readable))
  {
    hide Flatten, WholeLen, NewLines;
    var t' := TailPass(t, io, cap).0;
    CutShortIsBehind(t, io, cap);
    assert t.offset == 0 && Fed(t) == [] && Fed(t') == [];
    if io.rest.present && SigOf(io.stat) == SigOf(io.rest) {
      CuttingMovesStamp(t, io, cap);
      LookSettles(t, io, cap);
    }
    assert WholeLen([]) == 0;
    assert !io.rest.present ==> Text(io.rest) == [];
    hide TailPass;
  }

  /** A pass that races the writer, or during which the file is cut short, establishes the invariant. */
  lemma LookingOrCutEstablishesInv(t: TailState, io: PassIo, cap: nat)
    requires Consistent(t) && !GateClosed(t, io.stat) && !Shrunk(t, io)
    requires (RacingPass(io) && Fed(t) <= Text(io.rest)) || CutShort(t, io, cap)
    ensures Inv(TailPass(t, io, cap).0, io.stat, io.rest, Look(t.offset, io.readable))
  {
    hide Flatten, WholeLen, NewLines;
    if !CutShort(t, io, cap) {
      LookingEstablishesInv(t, io, cap);
    } else if TailPass(t, io, cap).0.offset == 0 {
      CutFromNothing(t, io, cap);
    } else {
      CutShortIsBehind(t, io, cap);
    }
  }

  /** Text known to agree is still the beginning of what an admissible pass that meets no shrink sees. */
  lemma StillAgrees(t: TailState, cur: FileState, io: PassIo)
    requires Consistent(t) && (Agrees(t, cur) || Lost(t, cur) || Behind(t, cur))
    requires RacingPass(io) && AppendsOrShrinks(t.offset, cur, io.len) && !GateClosed(t, io.stat) && !Shrunk(t, io)
    ensures Fed(t) <= Text(io.rest)
  {
    hide Flatten;
    assert Text(io.len) <= Text(io.rest);
    assert Text(cur)[..t.offset] <= Text(io.len);
  }

  /** Every admissible pass keeps the invariant. */
  lemma PassKeepsInv(t: TailState, seen: FileState, cur: FileState, look: Look, pass: (PassIo, PassIo), cap: nat)
    returns (seen': FileState)
    requires Inv(t, seen, cur, look) && Admissible(t, cur, pass, cap)
    ensures Inv(ScanPass(t, pass.0, pass.1, cap).0, seen', LastSeen(t, pass.0, pass.1),
                LookAfter(t, look, pass.0, pass.1))
  {
    hide WholeLen, NewLines, Flatten;
    var (first, retry) := pass;
    if GateClosed(t, first.stat) {
      seen' := seen;
      ClosedGateKeepsInv(t, seen, cur, look, first.stat);
    } else if Shrunk(t, first) {
      EmptyFlatten();
      if GateClosed(Reset(t), retry.stat) {
        seen' := seen;
      } else {
        seen' := retry.stat;
        LookingOrCutEstablishesInv(Reset(t), retry, cap);
      }
    } else {
      seen' := first.stat;
      if RacingPass(first) {
        StillAgrees(t, cur, first);
      }
      LookingOrCutEstablishesInv(t, first, cap);
    }
  }

  lemma EmptyFlatten()
    ensures Flatten<byte>([]) == []
  {}

  /** The tail, the file as last seen and the last look, after the given passes. */
  function Run(start: FileState, passes: seq<(PassIo, PassIo)>, cap: nat): (TailState, FileState, Look)
  {
    if passes == [] then (FRESH, start, Look(0, false)) else
    var (t, _, look) := Run(start, passes[..|passes| - 1], cap);
    var (first, retry) := passes[|passes| - 1];
    (ScanPass(t, first, retry, cap).0, LastSeen(t, first, retry), LookAfter(t, look, first, retry))
  }

  /** Every pass of the run meets an admissible file. */
  predicate AdmissibleRun(start: FileState, passes: seq<(PassIo, PassIo)>, cap: nat)
  {
    passes == [] ||
    var init, last := passes[..|passes| - 1], passes[|passes| - 1];
    var (t, f, _) := Run(start, init, cap);
    AdmissibleRun(start, init, cap) && Admissible(t, f, last, cap)
  }

  lemma NothingSeenYet(start: FileState)
    ensures Inv(FRESH, start, start, Look(0, false))
  {}

  lemma {:induction false} RunKeepsInv(start: FileState, passes: seq<(PassIo, PassIo)>, cap: nat)
    returns (seen: FileState)
    requires AdmissibleRun(start, passes, cap)
    ensures var (t, f, look) := Run(start, passes, cap);
      Inv(t, seen, f, look) && (passes == [] <==> t.sig.Unset?)
  {
    hide Inv, Admissible, LastSeen, LookAfter;
    if passes == [] {
      seen := start;
      NothingSeenYet(start);
    } else {
      hide Flatten, NewLines;
      var init, last := passes[..|passes| - 1], passes[|passes| - 1];
      var before := RunKeepsInv(start, init, cap);
      var (t, f, look) := Run(start, init, cap);
      seen := PassKeepsInv(t, before, f, look, last, cap);
      SigIsSet(t, before, f, look, last, cap);
    }
  }

  lemma SigIsSet(t: TailState, seen: FileState, cur: FileState, look: Look, pass: (PassIo, PassIo), cap: nat)
    requires Inv(t, seen, cur, look)
    ensures !ScanPass(t, pass.0, pass.1, cap).0.sig.Unset?
  {
    hide NewLines, Flatten, SettledIff;
  }

  /**
   * Incremental tailing agrees with reading the whole file. After any run, whichever passes could
   * read the file: the parser was fed whole lines, and exactly the file's first `offset` bytes unless
   * the file was lost. Those lines are well-formed text when the file is. Once the signature gate
   * closes they are all its whole lines exactly when the last look could read, or found none left.
   */
  lemma TailingIsWholeFileReading(start: FileState, passes: seq<(PassIo, PassIo)>, cap: nat)
    requires AdmissibleRun(start, passes, cap)
    ensures var (t, f, look) := Run(start, passes, cap);
      && (forall c :: c in t.chunks ==> IsLines(c))
      && (t.offset <= |Text(f)| ==> Fed(t) == Text(f)[..t.offset])
      && (t.offset > |Text(f)| <==> Lost(t, f) || Behind(t, f))
      && (0 < t.offset <= |Text(f)| ==> Text(f)[t.offset - 1] == NL)
      && (t.offset <= |Text(f)| && WellFormed(Text(f)) ==> forall c :: c in t.chunks ==> WellFormed(c))
      && (passes != [] && GateClosed(t, f) && !Lost(t, f) ==>
            (Fed(t) == Text(f)[..WholeLen(Text(f))] <==> look.readable || look.offset == WholeLen(Text(f))))
  {
    hide Run, AdmissibleRun, WellFormed, Flatten, WholeLen;
    var seen := RunKeepsInv(start, passes, cap);
    var (t, f, look) := Run(start, passes, cap);
    if t.offset <= |Text(f)| {
      if t.offset > 0 {
        FedEndsLine(t);
      }
      if WellFormed(Text(f)) {
        assert Text(f) == Fed(t) + Text(f)[t.offset..];
        LinesAreWellFormed(t.chunks, Text(f)[t.offset..]);
      }
    }
  }

  /** What a drain leaves behind is what a run over the passes it used leaves behind. */
  lemma {:induction false} DrainIsRun(start: FileState, passes: seq<(PassIo, PassIo)>, k: nat, cap: nat)
    returns (n: nat)
    requires k <= |passes|
    ensures k <= n <= |passes|
    ensures Drain(Run(start, passes[..k], cap).0, passes[k..], cap).0 == Run(start, passes[..n], cap).0
    decreases |passes| - k
  {
    n := k;
    if k < |passes| {
      assert passes[..k + 1][..k] == passes[..k] && passes[k..][1..] == passes[k + 1..];
      hide ScanPass;
      if Run(start, passes[..k + 1], cap).0.backfilling {
        n := DrainIsRun(start, passes, k + 1, cap);
      } else {
        n := k + 1;
      }
    }
  }

  // ---- What goes unnoticed -----------------------------------------------------------------

  /** A file that vanished is answered, by starting over, exactly when the tail's signature can tell. */
  lemma VanishingIsAnsweredIff(t: TailState, first: PassIo, retry: PassIo, cap: nat)
    requires Consistent(t) && t.offset > 0 && !first.stat.present && !first.len.present
    ensures Shrunk(t, first) <==> !t.sig.Absent? || t.backfilling
    ensures var t' := ScanPass(t, first, retry, cap).0;
      if t.sig.Absent? && !t.backfilling then t' == t else t' == TailPass(Reset(t), retry, cap).0
  {}

  lemma TwoPasses(start: FileState, p: (PassIo, PassIo), q: (PassIo, PassIo), cap: nat)
    ensures var t := ScanPass(FRESH, p.0, p.1, cap).0;
      var f := LastSeen(FRESH, p.0, p.1);
      && Run(start, [p, q], cap).0 == ScanPass(t, q.0, q.1, cap).0
      && Run(start, [p, q], cap).1 == LastSeen(t, q.0, q.1)
      && (Admissible(FRESH, start, p, cap) && Admissible(t, f, q, cap) ==> AdmissibleRun(start, [p, q], cap))
  {
    hide ScanPass, LastSeen, Admissible, LookAfter;
    var none: seq<(PassIo, PassIo)> := [];
    assert [p, q][..1] == [p] && [p][..0] == none;
    assert Run(start, none, cap) == (FRESH, start, Look(0, false)) && AdmissibleRun(start, none, cap);
    assert Run(start, [p], cap).0 == ScanPass(FRESH, p.0, p.1, cap).0;
    assert Run(start, [p], cap).1 == LastSeen(FRESH, p.0, p.1);
  }

  /** A file created, read and deleted around one stat: its text stays for as long as it is absent. */
  lemma VanishedFileIsLost(start: FileState, none: FileState, file: FileState, gone: FileState)
    requires !none.present && none.bytes == [] && !gone.present && file.present && file.bytes == [65, NL]
    requires start.mtime < none.mtime < file.mtime < gone.mtime
    ensures var passes :=
        [(PassIo(none, file, file, file, file, true), StaticPass(file)), (StaticPass(gone), StaticPass(gone))];
      && AdmissibleRun(start, passes, INGEST_CHUNK)
      && Lost(Run(start, passes, INGEST_CHUNK).0, Run(start, passes, INGEST_CHUNK).1)
  {
    var io := PassIo(none, file, file, file, file, true);
    var p, q := (io, StaticPass(file)), (StaticPass(gone), StaticPass(gone));
    TwoPasses(start, p, q, INGEST_CHUNK);
    hide Run, AdmissibleRun;
    ReadBehindStat(io);
    var t := ScanPass(FRESH, p.0, p.1, INGEST_CHUNK).0;
    hide NewLines, WholeLen;
    assert t.offset == 2 && t.sig == Absent && !t.backfilling;
  }

  lemma ReadBehindStat(io: PassIo)
    requires io.len == io.open == io.read && io.len.present && io.readable
    requires io.len.bytes == [65, NL]
    ensures var (t, ingested) := TailPass(FRESH, io, INGEST_CHUNK);
      t.offset == 2 && t.sig == SigOf(io.stat) && !t.backfilling && ingested == Some(true)
  {
    var window := Window(io, 0, INGEST_CHUNK);
    assert window == [65, NL];
    WholeLenIs(window, 2);
    assert NL in window;
    hide WholeLen, Window, Slice;
    assert Lines(window, Remainder(io, 2)) == Some(window[..2]);
    hide Lines;
  }

  /** A file emptied while it is being read: its old text is fed, and the next pass will see that it is gone. */
  lemma CutFileIsBehind(f: FileState, cut: FileState)
    requires f.present && f.bytes == [65, NL] && cut.present && cut.bytes == [] && f.mtime < cut.mtime
    ensures var io := StaticPass(f).(rest := cut);
      && CutShort(FRESH, io, INGEST_CHUNK) && Admissible(FRESH, f, (io, io), INGEST_CHUNK)
      && Behind(TailPass(FRESH, io, INGEST_CHUNK).0, cut)
  {
    ReadBehindStat(StaticPass(f).(rest := cut));
    hide NewLines, TailPass;
  }

  /** A file that is behind is started over by the next pass whose stat does not find it lost. */
  lemma BehindIsAnswered(t: TailState, seen: FileState, f: FileState, look: Look, pass: (PassIo, PassIo), cap: nat)
    requires Inv(t, seen, f, look) && Behind(t, f) && Admissible(t, f, pass, cap)
    ensures Shrunk(t, pass.0) <==> !Lost(t, pass.0.stat)
    ensures Shrunk(t, pass.0) ==> ScanPass(t, pass.0, pass.1, cap).0 == TailPass(Reset(t), pass.1, cap).0
  {
    hide Flatten, WholeLen, NewLines;
    assert GateClosed(t, pass.0.stat) && seen.present ==> seen == f;
  }

  /** A rewrite that is no shorter than what was ingested goes unnoticed. */
  lemma RewriteIsMissed()
    ensures var t := TailState(Stamp(1, 2), 2, false, [[65, NL]]);
      var f, g := FileState(true, [65, NL], 1), FileState(true, [66, NL, 67, NL], 2);
      && Agrees(t, f) && Later(f, g)
      && !Agrees(ScanPass(t, StaticPass(g), StaticPass(g), INGEST_CHUNK).0, g)
  {
    var t := TailState(Stamp(1, 2), 2, false, [[65, NL]]);
    var g := FileState(true, [66, NL, 67, NL], 2);
    FlattenOne([], [65, NL]);
    assert [] + [[65, NL]] == [[65, NL]] && Fed(t) == [65, NL];
    assert Fed(t)[0] != Text(g)[0];
    ScanAgreesIff(t, StaticPass(g), StaticPass(g), INGEST_CHUNK);
  }

  /**
   * A pass over an unchanging file that notes no backlog has ingested every complete line exactly
   * when the file could be read, or held no further complete line: an open that fails closes the
   * gate on a backlog nobody comes back for.
   */
  lemma UnreadableFileStrandsBacklogIff(t: TailState, f: FileState, readable: bool, cap: nat)
    requires Agrees(t, f) && !GateClosed(t, f)
    ensures var t' := TailPass(t, StaticPass(f).(readable := readable), cap).0;
      (t'.backfilling || t'.offset == WholeLen(Text(f)))
        <==> (readable || t.offset == WholeLen(Text(f)))
  {
    if readable {
      StaticPassProgress(t, f, cap);
    } else if t.offset == |Text(f)| && t.offset > 0 {
      FedEndsLine(t);
      WholeLenIs(Text(f), t.offset);
    }
  }

  /** Once stranded, a backlog stays stranded through any number of passes over the same file. */
  lemma {:induction false} StrandedStaysStranded(t: TailState, f: FileState, passes: seq<(PassIo, PassIo)>, cap: nat)
    requires GateClosed(t, f) && forall p :: p in passes ==> p.0.stat == f
    ensures Tailed(t, passes, cap) == t
  {
    hide GateClosed;
    if passes != [] {
      var init, last := passes[..|passes| - 1], passes[|passes| - 1];
      assert passes == init + [last];
      StrandedStaysStranded(t, f, init, cap);
      assert ScanPass(t, last.0, last.1, cap).0 == t;
    }
  }

  /** The tail after more passes. */
  function Tailed(t: TailState, passes: seq<(PassIo, PassIo)>, cap: nat): TailState {
    if passes == [] then t else
    var (first, retry) := passes[|passes| - 1];
    ScanPass(Tailed(t, passes[..|passes| - 1], cap), first, retry, cap).0
  }
}
