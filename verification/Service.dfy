/**
 The whole path: what producers hand to the queue, the engine that drains it, the orderly stop, and
 the book that a restart finds in the file.
 */
module Service {
  import opened Bytes
  import opened Crc32
  import opened Orders
  import opened BookModel
  import opened BookTheorems
  import opened Wire
  import opened WalRecords
  import opened RecordFiles
  import opened Ledgers
  import opened WriteAheadLogs
  import opened EngineModel
  import opened Engines
  import opened Durability
  import opened Agreement
  import opened Recovery
  import B = Book
  import Q = BoundedQueue

  /**
   Whatever the threads do, once the engine thread was told the queue is exhausted it has handled just
   the commands ever accepted, in that order, and counted each once.
   */
  lemma ServesWhatWasAccepted(
    q: Q.State<Command>, steps: seq<Q.Step<Command>>, more: seq<Q.Step<Command>>, t: Q.Thread,
    s: EngineState, attempts: seq<Attempt>)
    requires Q.Init(q) && Q.CanRun(q, steps) && Q.OnlyConsumer(steps, t) && Q.After(q, steps).exhausted
    requires Q.CanRun(Q.After(q, steps), more) && |attempts| == |Q.Popped(q, steps, t)|
    ensures var accepted := Q.After(Q.After(q, steps), more).accepted;
      && Q.Popped(q, steps, t) == accepted
      && HandleAll(s, accepted, attempts).Handled() == s.Handled() + |accepted|
      && HandleAll(s, accepted, attempts).book == ApplyAll(s.book, Taken(s, accepted, attempts))
  {
    Q.ConsumerSeesAll(q, steps, more, t);
    EachCountedOnce(s, Q.Popped(q, steps, t), attempts);
    RunAmountsTo(s, Q.Popped(q, steps, t), attempts);
  }

  /**
   The engine from start to stop: the thread drains the queue, is joined, and the log is flushed; a
   flush that fails is swallowed.
   */
  method ServeThenStop(
    engine: Engine, popped: seq<Command>, attempts: seq<Attempt>, flushed: bool, now: int, ghost s: EngineState,
    ghost q: Q.State<Command>, ghost steps: seq<Q.Step<Command>>, ghost t: Q.Thread)
    requires Q.Init(q) && Q.CanRun(q, steps) && Q.OnlyConsumer(steps, t) && Q.After(q, steps).exhausted
    requires popped == Q.Popped(q, steps, t) && |attempts| == |popped|
    requires engine.At(s) && Ready(s, popped, attempts)
    modifies engine, engine.log
    modifies engine.book`nextSequence, engine.book.bids, engine.book.asks
    modifies engine.book.bids.levels, engine.book.asks.levels
    ensures var accepted := Q.After(q, steps).accepted;
      && |attempts| == |accepted| && engine.At(HandleAll(s, accepted, attempts).Flushing(flushed, now))
      && engine.processed + engine.rejected + engine.storageFailures == s.Handled() + |accepted|
    ensures engine.log != null && flushed ==> engine.log.books.durable == |engine.log.file|
  {
    ServesWhatWasAccepted(q, steps, [], t, s, attempts);
    engine.Run(s, popped, attempts);
    engine.Flush(flushed, now, HandleAll(s, popped, attempts));
  }

  // ----- What a restart finds -----

  /** The commands a restart replays when the power fails with `k` bytes on the device. */
  ghost function Survivors(log: WriteAheadLog, k: nat): seq<Command>
    requires log.Has(Encoding) && k <= |log.file|
    reads log
  {
    CommandsOf(Replayed(log.codec, log.file[..k]).records)
  }

  /** They are a first part of `commands`, and at most `pending` of the `written` last ones are lost. */
  ghost predicate LosesAtMost(survivors: seq<Command>, commands: seq<Command>, written: nat, pending: nat) {
    survivors <= commands && Min(written, |commands| - |survivors|) <= pending
  }

  lemma StoredFront(c: Codec<LoggedRecord, Byte>, records: seq<LoggedRecord>, m: nat)
    requires IsWal(c) && m <= |records|
    ensures CommandsOf(Canonical(c, records[..m])) == AsStoredAll(CommandsOf(records))[..m]
  {
    CanonicalCommands(c, records[..m]);
    assert CommandsOf(records[..m]) == CommandsOf(records)[..m];
  }

  /**
   A power loss at any byte from what was forced on: what a restart replays from a clean log is a first
   part of the commands logged, short by at most those not yet forced, and all when nothing was pending.
   */
  lemma LogRecovers(log: WriteAheadLog, k: nat)
    requires log.Valid() && log.books.clean && log.books.durable <= k <= |log.file|
    ensures log.Has(Encoding)
    ensures LosesAtMost(Survivors(log, k), AsStoredAll(log.commands), log.recordsWritten, log.sinceSync)
    ensures k == |log.file| ==> Survivors(log, k) == AsStoredAll(log.commands)
  {
    var records := log.books.records;
    assert log.Keeps(Numbering) && log.Has(Encoding);
    BoundedLoss(log, k);
    StoredFront(log.codec, records, WholeIn(log.codec, records, k));
  }

  /**
   A power loss under a running engine. With all bytes on the device a restart rebuilds the engine's book
   exactly when log and book agreed, whatever failed before; and a clean log loses only what was pending.
   */
  lemma EngineRecovers(engine: Engine, s: EngineState, origin: BookState, k: nat)
    requires engine.At(s) && engine.log != null && engine.log.books.durable <= k <= |engine.log.file|
    ensures engine.log.Has(Encoding) && IsWal(s.codec)
    ensures k == |engine.log.file| ==> (ApplyAll(origin, Survivors(engine.log, k)) == s.book <==> Agrees(origin, s))
    ensures s.ledger.clean ==>
              LosesAtMost(Survivors(engine.log, k), AsStoredAll(s.logged), engine.log.recordsWritten, s.forcing.sinceSync)
  {
    assert engine.log.Has(Encoding) && engine.log.Keeps(Fields);
    assert engine.log.file[..|engine.log.file|] == engine.log.file;
    if s.ledger.clean {
      LogRecovers(engine.log, k);
    }
  }

  /** The restart itself: recovery over what the power loss left rebuilds the book that survived. */
  method Restart(table: seq<bv32>, log: WriteAheadLog, k: nat, book: B.Book, ghost origin: BookState)
    returns (report: RecoveryReport, trimmed: seq<Byte>)
    requires IsTable(table) && log.Valid() && log.Has(Encoding) && log.books.durable <= k <= |log.file|
    requires book.Intact() && book.State() == origin && ReadyRun(origin, Survivors(log, k))
    modifies book`nextSequence, book.bids, book.asks, book.bids.levels, book.asks.levels
    ensures book.Intact() && book.State() == ApplyAll(origin, old(Survivors(log, k)))
    ensures k == old(|log.file|) && old(log.books.clean) ==>
              book.State() == ApplyAll(origin, old(AsStoredAll(log.commands)))
  {
    if log.books.clean {
      LogRecovers(log, k);
    }
    report, trimmed := RecoverBookOnly(table, log.codec, log.file[..k], book, origin);
  }
}
