/**
 The engine as a value: what handling one command, and a whole run of them, makes of the book, the log
 and the counters, whichever appends fail.
 */
module EngineModel {
  import opened Bytes
  import opened Orders
  import opened Matching
  import opened BookModel
  import opened Wire
  import opened WalRecords
  import opened RecordFiles
  import opened Ledgers
  import opened WriteAheadLogs
  import opened Recovery

  /**
   An engine may have been given no log (`logging` is then false). `ledger` is the file with what is known
   of it, `logged` the commands it holds whole, and `next` the number of the record to come.
   */
  datatype EngineState = EngineState(
    book: BookState, logging: bool, codec: Codec<LoggedRecord, Byte>, ledger: Ledger<LoggedRecord, Byte>,
    logged: seq<Command>, next: Sequence, forcing: Forcing,
    processed: nat, rejected: nat, storageFailures: nat, published: seq<Fill>)
  {
    /** What becomes of the next append. */
    function Verdict(a: Attempt): AppendResult {
      if logging then forcing.Result(a) else Appended
    }

    function Failing(): EngineState {
      this.(storageFailures := storageFailures + 1)
    }

    function Applying(c: Command): EngineState {
      var applied := ApplyCommand(book, c);
      var counted :=
        if Accepted(applied.outcome) then this.(processed := processed + 1) else this.(rejected := rejected + 1);
      counted.(book := applied.book, published := published + FillsOf(applied.outcome))
    }

    /** Stopping forces what is pending, if it can. */
    function Flushing(ok: bool, now: int): EngineState {
      if logging && ok then this.(forcing := forcing.Reset(now), ledger := ledger.Forced()) else this
    }

    function Handled(): nat {
      processed + rejected + storageFailures
    }
  }

  /** The record of a command, where it fits one. */
  function RecordOf(n: Sequence, c: Command): LoggedRecord {
    if Storable(c) && n < TWO_TO_THE_64 then WalRecord(n, c) else WalRecord(1, CancelCommand(0))
  }

  /** What an append leaves in the file: part of the record, or all of it, forced or not. */
  function LedgerAfter(c: Codec<LoggedRecord, Byte>, l: Ledger<LoggedRecord, Byte>, r: LoggedRecord, a: Attempt,
                       forces: bool)
    : Ledger<LoggedRecord, Byte>
  {
    var bytes := c.encode(r);
    if a.io.WriteFails? then l.WithScrap(CutShort(bytes, a.io.written))
    else if forces then l.WithRecord(bytes, r).Forced()
    else l.WithRecord(bytes, r)
  }

  /** The append alone. */
  function Write(s: EngineState, c: Command, a: Attempt): EngineState {
    if !s.logging then s
    else
      var grown := s.(ledger := LedgerAfter(s.codec, s.ledger, RecordOf(s.next, c), a, s.forcing.Forces(a)));
      if a.io.WriteFails? then grown
      else grown.(forcing := s.forcing.After(a), logged := s.logged + [c], next := s.next + 1)
  }

  lemma HandledLedger(s: EngineState, c: Command, a: Attempt)
    requires s.logging
    ensures var s' := Handle(s, c, a);
      && s'.ledger == LedgerAfter(s.codec, s.ledger, RecordOf(s.next, c), a, s.forcing.Forces(a))
      && s'.codec == s.codec && s'.logging
  {
  }

  /** Write ahead, and only then mutate and publish; a failed append leaves the book alone. */
  function Handle(s: EngineState, c: Command, a: Attempt): EngineState {
    var written := Write(s, c, a);
    if s.Verdict(a) == Appended then written.Applying(c) else written.Failing()
  }

  function HandleAll(s: EngineState, commands: seq<Command>, attempts: seq<Attempt>): EngineState
    requires |attempts| == |commands|
  {
    if commands == [] then s
    else
      var n := |commands| - 1;
      Handle(HandleAll(s, commands[..n], attempts[..n]), commands[n], attempts[n])
  }

  /** Where the run stands after its first `i` commands. */
  function Stage(s: EngineState, commands: seq<Command>, attempts: seq<Attempt>, i: nat): EngineState
    requires i <= |commands| == |attempts|
  {
    HandleAll(s, commands[..i], attempts[..i])
  }

  lemma NextStage(s: EngineState, commands: seq<Command>, attempts: seq<Attempt>, i: nat)
    requires i < |commands| == |attempts|
    ensures Stage(s, commands, attempts, i + 1)
            == Handle(Stage(s, commands, attempts, i), commands[i], attempts[i])
  {
    assert commands[..i + 1][..i] == commands[..i] && attempts[..i + 1][..i] == attempts[..i];
  }

  lemma LastStage(s: EngineState, commands: seq<Command>, attempts: seq<Attempt>)
    requires |commands| == |attempts|
    ensures Stage(s, commands, attempts, |commands|) == HandleAll(s, commands, attempts)
  {
    assert commands[..|commands|] == commands && attempts[..|commands|] == attempts;
  }

  /** What became of command `i`. */
  function Fate(s: EngineState, commands: seq<Command>, attempts: seq<Attempt>, i: nat): AppendResult
    requires i < |commands| == |attempts|
  {
    Stage(s, commands, attempts, i).Verdict(attempts[i])
  }

  // ----- What a run amounts to -----

  /** The commands of a run that were applied: those whose append succeeded. */
  function Taken(s: EngineState, commands: seq<Command>, attempts: seq<Attempt>): seq<Command>
    requires |attempts| == |commands|
  {
    if commands == [] then []
    else
      var n := |commands| - 1;
      Taken(s, commands[..n], attempts[..n])
      + (if Fate(s, commands, attempts, n) == Appended then [commands[n]] else [])
  }

  /** Those whose record is in the file whole. */
  function Stored(s: EngineState, commands: seq<Command>, attempts: seq<Attempt>): seq<Command>
    requires |attempts| == |commands|
  {
    if commands == [] then []
    else
      var n := |commands| - 1;
      Stored(s, commands[..n], attempts[..n])
      + (if Fate(s, commands, attempts, n) != WriteFailed && s.logging then [commands[n]] else [])
  }

  /** And those whose append failed. */
  function Failures(s: EngineState, commands: seq<Command>, attempts: seq<Attempt>): nat
    requires |attempts| == |commands|
  {
    if commands == [] then 0
    else
      var n := |commands| - 1;
      Failures(s, commands[..n], attempts[..n]) + (if Fate(s, commands, attempts, n) == Appended then 0 else 1)
  }

  /** Every command is counted once, as processed, rejected or a storage failure, whatever fails. */
  lemma {:induction false} EachCountedOnce(s: EngineState, commands: seq<Command>, attempts: seq<Attempt>)
    requires |attempts| == |commands|
    ensures HandleAll(s, commands, attempts).Handled() == s.Handled() + |commands|
  {
    if commands != [] {
      var n := |commands| - 1;
      EachCountedOnce(s, commands[..n], attempts[..n]);
    }
  }

  lemma ProgressStep(b: BookState, run: seq<Command>, c: Command)
    ensures var applied := ApplyCommand(ApplyAll(b, run), c);
            && ApplyAll(b, run + [c]) == applied.book
            && AcceptedIn(b, run + [c]) == AcceptedIn(b, run) + (if Accepted(applied.outcome) then 1 else 0)
            && FillsIn(b, run + [c]) == FillsIn(b, run) + FillsOf(applied.outcome)
  {
    assert (run + [c])[..|run|] == run;
  }

  /** From `s`, the engine applied `run`, stored `stored` and failed `failures` times. */
  ghost predicate Amounts(s: EngineState, after: EngineState, run: seq<Command>, stored: seq<Command>, failures: nat) {
    && after.book == ApplyAll(s.book, run) && after.published == s.published + FillsIn(s.book, run)
    && after.processed == s.processed + AcceptedIn(s.book, run)
    && after.storageFailures == s.storageFailures + failures
    && after.logged == s.logged + stored && after.logging == s.logging
  }

  lemma StepAmounts(s: EngineState, before: EngineState, run: seq<Command>, stored: seq<Command>, failures: nat,
                    c: Command, a: Attempt)
    requires Amounts(s, before, run, stored, failures)
    ensures var result := before.Verdict(a);
      Amounts(s, Handle(before, c, a), run + (if result == Appended then [c] else []),
              stored + (if result != WriteFailed && s.logging then [c] else []),
              failures + (if result == Appended then 0 else 1))
  {
    Regrouped(s.logged, stored, [c]);
    Regrouped(s.published, FillsIn(s.book, run), FillsOf(ApplyCommand(before.book, c).outcome));
    assert run + [] == run && stored + [] == stored;
    if before.Verdict(a) == Appended {
      ProgressStep(s.book, run, c);
    }
  }

  /** The book, the counts and the fills are those of the commands applied; the log holds those stored. */
  lemma {:induction false} RunAmountsTo(s: EngineState, commands: seq<Command>, attempts: seq<Attempt>)
    requires |attempts| == |commands|
    ensures Amounts(s, HandleAll(s, commands, attempts), Taken(s, commands, attempts),
                    Stored(s, commands, attempts), Failures(s, commands, attempts))
  {
    if commands != [] {
      var n := |commands| - 1;
      var front, tried := commands[..n], attempts[..n];
      RunAmountsTo(s, front, tried);
      StepAmounts(s, HandleAll(s, front, tried), Taken(s, front, tried), Stored(s, front, tried),
                  Failures(s, front, tried), commands[n], attempts[n]);
    }
  }
}
