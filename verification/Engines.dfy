/**
 The engine thread: it takes commands off the queue one at a time, makes each durable, applies it to
 the book it alone owns, publishes the fills, and counts what became of it.
 */
module Engines {
  import opened Orders
  import opened Matching
  import opened BookModel
  import opened BookTheorems
  import opened WalRecords
  import opened WriteAheadLogs
  import opened Recovery
  import opened EngineModel
  import B = Book

  /** If it is logged the command fits a record and has a number, and if it is applied the book is fit for it. */
  ghost predicate ReadyFor(s: EngineState, c: Command, a: Attempt) {
    && (s.logging ==> Storable(c) && s.next < TWO_TO_THE_64)
    && (s.Verdict(a) == Appended ==> Structured(s.book) && Serviceable(s.book, c))
  }

  ghost predicate ReadyStage(s: EngineState, commands: seq<Command>, attempts: seq<Attempt>, i: nat)
    requires i < |commands| == |attempts|
  {
    ReadyFor(Stage(s, commands, attempts, i), commands[i], attempts[i])
  }

  ghost predicate Ready(s: EngineState, commands: seq<Command>, attempts: seq<Attempt>)
    requires |commands| == |attempts|
  {
    forall i :: 0 <= i < |commands| ==> ReadyStage(s, commands, attempts, i)
  }

  class Engine {
    const book: B.Book
    const log: WriteAheadLog?
    var processed: nat
    var rejected: nat
    var storageFailures: nat
    /** The fills handed to the callback, in order. */
    var published: seq<Fill>

    constructor (book: B.Book, log: WriteAheadLog?)
      ensures this.book == book && this.log == log && published == []
      ensures processed == rejected == storageFailures == 0
    {
      this.book, this.log := book, log;
      published := [];
      processed, rejected, storageFailures := 0, 0, 0;
    }

    ghost predicate LogAt(s: EngineState)
      reads log
    {
      && s.logging == (log != null)
      && (log != null ==>
            && log.Valid() && log.Policy() == s.forcing && log.codec == s.codec && log.books == s.ledger
            && log.commands == s.logged && log.nextSequence == s.next)
    }

    ghost predicate BookAt(b: BookState)
      reads book, book.bids, book.asks, book.bids.levels, book.asks.levels
    {
      book.Intact() && book.State() == b
    }

    ghost predicate CountsAt(s: EngineState)
      reads this
    {
      && processed == s.processed && rejected == s.rejected && storageFailures == s.storageFailures
      && published == s.published
    }

    /** The engine, with its book and its log, is where `s` says. */
    ghost predicate At(s: EngineState)
      reads this, log, book, book.bids, book.asks, book.bids.levels, book.asks.levels
    {
      LogAt(s) && BookAt(s.book) && CountsAt(s)
    }

    ghost predicate AtStage(s: EngineState, commands: seq<Command>, attempts: seq<Attempt>, i: nat)
      requires i <= |commands| == |attempts|
      reads this, log, book, book.bids, book.asks, book.bids.levels, book.asks.levels
    {
      At(Stage(s, commands, attempts, i))
    }

    /** The record of `c` is the last in the log, if there is one, and on the device under the strictest policy. */
    ghost predicate WrittenAhead(c: Command)
      reads log
    {
      log != null ==>
      && |log.commands| > 0 && log.commands[|log.commands| - 1] == c
      && (log.policy == Always ==> log.books.durable == |log.books.file|)
    }

    method WriteAhead(c: Command, a: Attempt, ghost s: EngineState) returns (result: AppendResult)
      requires At(s) && (s.logging ==> Storable(c) && s.next < TWO_TO_THE_64)
      modifies log
      ensures result == s.Verdict(a) && At(Write(s, c, a)) && (result == Appended ==> WrittenAhead(c))
    {
      result := Appended;
      if log != null {
        var sequence;
        result, sequence := log.Append(c, a);
      }
    }

    /** Only a command whose record was written ahead may reach the book. */
    method Mutate(c: Command, ghost b: BookState) returns (outcome: Outcome)
      requires BookAt(b) && Structured(b) && Serviceable(b, c) && WrittenAhead(c)
      modifies book`nextSequence, book.bids, book.asks, book.bids.levels, book.asks.levels
      ensures BookAt(ApplyCommand(b, c).book) && book.OnlyNewLevels() && outcome == ApplyCommand(b, c).outcome
    {
      outcome := book.Apply(c);
    }

    method MutateBook(c: Command, ghost s: EngineState) returns (outcome: Outcome)
      requires At(s) && Structured(s.book) && Serviceable(s.book, c) && WrittenAhead(c)
      modifies book`nextSequence, book.bids, book.asks, book.bids.levels, book.asks.levels
      ensures LogAt(s) && BookAt(ApplyCommand(s.book, c).book) && CountsAt(s) && book.OnlyNewLevels()
      ensures outcome == ApplyCommand(s.book, c).outcome
    {
      outcome := Mutate(c, s.book);
    }

    method Publish(outcome: Outcome)
      modifies this`processed, this`rejected, this`published
      ensures published == old(published) + FillsOf(outcome)
      ensures processed == old(processed) + (if Accepted(outcome) then 1 else 0)
      ensures rejected == old(rejected) + (if Accepted(outcome) then 0 else 1)
    {
      published := published + FillsOf(outcome);
      if Accepted(outcome) {
        processed := processed + 1;
      } else {
        rejected := rejected + 1;
      }
    }

    method PublishFills(c: Command, outcome: Outcome, ghost s: EngineState)
      requires LogAt(s) && BookAt(ApplyCommand(s.book, c).book) && CountsAt(s)
      requires outcome == ApplyCommand(s.book, c).outcome
      modifies this`processed, this`rejected, this`published
      ensures At(s.Applying(c))
    {
      Publish(outcome);
    }

    method Settle(c: Command, ghost s: EngineState)
      requires At(s) && Structured(s.book) && Serviceable(s.book, c) && WrittenAhead(c)
      modifies this`processed, this`rejected, this`published
      modifies book`nextSequence, book.bids, book.asks, book.bids.levels, book.asks.levels
      ensures At(s.Applying(c)) && book.OnlyNewLevels()
    {
      var outcome := MutateBook(c, s);
      PublishFills(c, outcome, s);
    }

    method Fail(ghost s: EngineState)
      requires At(s)
      modifies this`storageFailures
      ensures At(s.Failing())
    {
      storageFailures := storageFailures + 1;
    }

    /** One turn of the thread: write ahead, then mutate, then publish; a storage error is only counted. */
    method Apply(c: Command, a: Attempt, ghost s: EngineState)
      requires At(s) && ReadyFor(s, c, a)
      modifies this, log
      modifies book`nextSequence, book.bids, book.asks, book.bids.levels, book.asks.levels
      ensures At(Handle(s, c, a)) && book.OnlyNewLevels()
    {
      ghost var written := Write(s, c, a);
      var result := WriteAhead(c, a, s);
      if result == Appended {
        Settle(c, written);
      } else {
        Fail(written);
      }
    }

    method Flush(ok: bool, now: int, ghost s: EngineState)
      requires At(s)
      modifies log
      ensures At(s.Flushing(ok, now)) && (log != null && ok ==> log.books.durable == |log.file|)
    {
      if log != null {
        log.Flush(ok, now);
      }
    }

    /** The thread loop over everything the queue delivered, each command once and in order. */
    method Run(ghost s: EngineState, commands: seq<Command>, attempts: seq<Attempt>)
      requires |attempts| == |commands| && At(s) && Ready(s, commands, attempts)
      modifies this, log
      modifies book`nextSequence, book.bids, book.asks, book.bids.levels, book.asks.levels
      ensures At(HandleAll(s, commands, attempts)) && book.OnlyNewLevels()
    {
      for i := 0 to |commands|
        invariant AtStage(s, commands, attempts, i) && book.OnlyNewLevels()
      {
        Turn(s, commands, attempts, i);
      }
      LastStage(s, commands, attempts);
    }

    method Turn(ghost s: EngineState, commands: seq<Command>, attempts: seq<Attempt>, i: nat)
      requires i < |commands| == |attempts| && Ready(s, commands, attempts) && AtStage(s, commands, attempts, i)
      modifies this, log
      modifies book`nextSequence, book.bids, book.asks, book.bids.levels, book.asks.levels
      ensures AtStage(s, commands, attempts, i + 1) && book.OnlyNewLevels()
    {
      assert ReadyStage(s, commands, attempts, i);
      NextStage(s, commands, attempts, i);
      Apply(commands[i], attempts[i], Stage(s, commands, attempts, i));
    }
  }
}
