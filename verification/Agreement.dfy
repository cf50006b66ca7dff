/**
 Whether the log and the book agree: what a restart would read from the file as it stands, against the
 book the engine has, through every run and whichever appends fail.
 */
module Agreement {
  import opened Bytes
  import opened Orders
  import opened Matching
  import opened Ladders
  import opened BookModel
  import opened BookTheorems
  import opened WalRecords
  import opened RecordFiles
  import opened Ledgers
  import opened WriteAheadLogs
  import opened Recovery
  import opened EngineModel
  import opened Durability

  // ----- Commands without effect -----

  /** A command that would leave the book as it is. */
  predicate Idle(b: BookState, c: Command) {
    match c
    case SubmitCommand(o) => !Admissible(b, o)
    case CancelCommand(id) => b.Lookup(id).None?
    case ModifyCommand(id, qty, price) =>
      || qty == 0 || b.Lookup(id).None?
      || (var o := b.Lookup(id).value;
          KeepsPlace(o, qty, price) && qty == o.remaining && o.Visible() <= qty && o.Display() <= qty)
  }

  lemma {:induction false} ReduceIdleIff(ladder: Ladder, id: OrderId, qty: Quantity)
    requires Find(ladder, id).Some?
    ensures var o := Find(ladder, id).value; Reduce(ladder, id, qty) == ladder <==> o.Reduced(qty) == o
  {
    var queue := ladder[0].queue;
    var k := Position(queue, id);
    var after := Reduce(ladder, id, qty);
    if k == |queue| {
      ReduceIdleIff(ladder[1..], id, qty);
      assert after[1..] == Reduce(ladder[1..], id, qty) && ladder == [ladder[0]] + ladder[1..];
    } else {
      assert after[0].queue[k] == queue[k].Reduced(qty);
      assert queue[k := queue[k]] == queue && ladder == [LevelState(ladder[0].price, queue)] + ladder[1..];
    }
  }

  lemma ModifyIdleIff(b: BookState, id: OrderId, qty: Quantity, price: Option<Price>)
    ensures Modify(b, id, qty, price).book == b <==> Idle(b, ModifyCommand(id, qty, price))
  {
    var status := Modify(b, id, qty, price).result.status;
    if status == AmendedInPlace {
      if Find(b.bids, id).Some? {
        ReduceIdleIff(b.bids, id, qty);
      } else {
        ReduceIdleIff(b.asks, id, qty);
      }
    } else if status == Requeued {
      var o := b.Lookup(id).value;
      assert Modify(b, id, qty, price).book.nextSequence == b.nextSequence + 1;
    }
  }

  /** Told from the book it meets, exactly the idle commands change nothing. */
  lemma IdleIff(b: BookState, c: Command)
    requires Structured(b)
    ensures ApplyCommand(b, c).book == b <==> Idle(b, c)
  {
    match c
    case SubmitCommand(o) =>
      assert Accept(b, o).book.nextSequence == b.nextSequence + 1;
    case CancelCommand(id) =>
      LookupIffCounted(b, id);
      CancelKeepsStructure(b, id);
    case ModifyCommand(id, qty, price) =>
      ModifyIdleIff(b, id, qty, price);
  }

  // ----- What a restart would read -----

  /** The ledger is right about the file. */
  ghost predicate Tracked(s: EngineState) {
    s.logging && IsWal(s.codec) && Tracks(s.codec, s.ledger)
  }

  /** The commands a restart would replay from the file as it stands. */
  ghost function Readable(s: EngineState): seq<Command>
    requires IsWal(s.codec)
  {
    CommandsOf(Replayed(s.codec, s.ledger.file).records)
  }

  /** Replay ends where the first scrap begins: the decoder does not take it for a record. */
  ghost predicate EndsAtScrap(s: EngineState)
    requires Tracked(s)
  {
    Unreadable(s.codec, Behind(s.codec, s.ledger))
  }

  lemma CanonicalCommands(c: Codec<LoggedRecord, Byte>, records: seq<LoggedRecord>)
    requires forall r :: Encodes(c, r)
    ensures CommandsOf(Canonical(c, records)) == AsStoredAll(CommandsOf(records))
  {
    forall i | 0 <= i < |records| ensures c.canon(records[i]).command == CommandAsStored(records[i].command) {
      assert Encodes(c, records[i]);
    }
  }

  lemma ReadableFront(s: EngineState)
    requires Tracked(s) && EndsAtScrap(s)
    ensures Readable(s) == AsStoredAll(CommandsOf(Front(s.ledger)))
  {
    LedgerReplays(s.codec, s.ledger);
    CanonicalCommands(s.codec, Front(s.ledger));
  }

  // ----- One command -----

  lemma LedgerTracked(c: Codec<LoggedRecord, Byte>, l: Ledger<LoggedRecord, Byte>, r: LoggedRecord, a: Attempt,
                      forces: bool)
    requires Tracks(c, l)
    ensures var l' := LedgerAfter(c, l, r, a, forces);
      Tracks(c, l') && Front(l') == Front(l) + if l.clean && !a.io.WriteFails? then [r] else []
  {
    if a.io.WriteFails? {
      ScrapTracked(c, l, CutShort(c.encode(r), a.io.written));
      assert Front(l) + [] == Front(l);
    } else {
      AppendTracked(c, l, r, forces);
    }
  }

  lemma WriteTracked(s: EngineState, c: Command, a: Attempt)
    requires Tracked(s)
    ensures Tracked(Handle(s, c, a))
    ensures Front(Handle(s, c, a).ledger) ==
            Front(s.ledger) + if s.ledger.clean && !a.io.WriteFails? then [RecordOf(s.next, c)] else []
  {
    HandledLedger(s, c, a);
    LedgerTracked(s.codec, s.ledger, RecordOf(s.next, c), a, s.forcing.Forces(a));
  }

  /** A command adds to what can be read just when its record goes whole into a clean file. */
  lemma ReadableGrows(s: EngineState, c: Command, a: Attempt)
    requires Tracked(s) && EndsAtScrap(s) && Storable(c) && s.next < TWO_TO_THE_64
    requires Tracked(Handle(s, c, a)) && EndsAtScrap(Handle(s, c, a))
    ensures Readable(Handle(s, c, a)) ==
            Readable(s) + if s.ledger.clean && !a.io.WriteFails? then [CommandAsStored(c)] else []
  {
    WriteTracked(s, c, a);
    ReadableFront(s);
    ReadableFront(Handle(s, c, a));
  }

  /** Replaying the file from `origin` would give the book the engine has. */
  ghost predicate Agrees(origin: BookState, s: EngineState)
    requires IsWal(s.codec)
  {
    s.book == ApplyAll(origin, Readable(s))
  }

  /**
   A command does not part the log from the book it meets. In a clean file: a failed force must be of a
   command without effect, and a command that is applied must replay alike. Behind a scrap nothing is
   read any more, so there a command that is applied must have no effect.
   */
  predicate Harmless(b: BookState, c: Command, clean: bool, verdict: AppendResult) {
    if clean then (verdict == SyncFailed ==> Idle(b, c)) && (verdict == Appended ==> !ReplaysOtherwise(b, c))
    else verdict == Appended ==> Idle(b, c)
  }

  /** What the code asks of a command and of the book it meets. */
  ghost predicate Fit(s: EngineState, c: Command, a: Attempt) {
    && Storable(c) && s.next < TWO_TO_THE_64 && (c.SubmitCommand? ==> c.order.Fresh())
    && (s.Verdict(a) == Appended ==> Serviceable(s.book, c))
  }

  /** The book and what can be read move together exactly when the command is harmless. */
  lemma MoveTogetherIff(origin: BookState, read: seq<Command>, b: BookState, c: Command, clean: bool,
                        verdict: AppendResult)
    requires Structured(b) && b == ApplyAll(origin, read) && (c.SubmitCommand? ==> c.order.Fresh())
    requires verdict == Appended ==> Serviceable(b, c)
    ensures var b' := if verdict == Appended then ApplyCommand(b, c).book else b;
      var read' := read + if clean && verdict != WriteFailed then [CommandAsStored(c)] else [];
      b' == ApplyAll(origin, read') <==> Harmless(b, c, clean, verdict)
  {
    ProgressStep(origin, read, CommandAsStored(c));
    assert read + [] == read;
    IdleIff(b, c);
    StoredIdle(b, c);
    if verdict == Appended {
      ReplaysAlike(b, c);
    }
  }

  /** One command keeps the agreement exactly when it is harmless. */
  lemma StepAgreesIff(origin: BookState, s: EngineState, c: Command, a: Attempt)
    requires Tracked(s) && EndsAtScrap(s) && Structured(s.book) && Fit(s, c, a) && Agrees(origin, s)
    requires Tracked(Handle(s, c, a)) && EndsAtScrap(Handle(s, c, a))
    ensures Agrees(origin, Handle(s, c, a)) <==> Harmless(s.book, c, s.ledger.clean, s.Verdict(a))
  {
    ReadableGrows(s, c, a);
    MoveTogetherIff(origin, Readable(s), s.book, c, s.ledger.clean, s.Verdict(a));
  }

  lemma StoredIdle(b: BookState, c: Command)
    requires Structured(b)
    ensures ApplyCommand(b, CommandAsStored(c)).book == b <==> Idle(b, c)
  {
    IdleIff(b, CommandAsStored(c));
  }

  // ----- Whole runs -----

  ghost predicate StageFit(s: EngineState, commands: seq<Command>, attempts: seq<Attempt>, i: nat)
    requires i < |commands| == |attempts|
  {
    Fit(Stage(s, commands, attempts, i), commands[i], attempts[i])
  }

  ghost predicate StageEnds(s: EngineState, commands: seq<Command>, attempts: seq<Attempt>, i: nat)
    requires i <= |commands| == |attempts|
  {
    Tracked(Stage(s, commands, attempts, i)) && EndsAtScrap(Stage(s, commands, attempts, i))
  }

  ghost predicate AgreesAt(origin: BookState, s: EngineState, commands: seq<Command>, attempts: seq<Attempt>, i: nat)
    requires i <= |commands| == |attempts| && StageEnds(s, commands, attempts, i)
  {
    Agrees(origin, Stage(s, commands, attempts, i))
  }

  predicate HarmlessAt(s: EngineState, commands: seq<Command>, attempts: seq<Attempt>, i: nat)
    requires i < |commands| == |attempts|
  {
    var now := Stage(s, commands, attempts, i);
    Harmless(now.book, commands[i], now.ledger.clean, now.Verdict(attempts[i]))
  }

  lemma {:induction false} StageStructured(s: EngineState, commands: seq<Command>, attempts: seq<Attempt>, i: nat)
    requires i <= |commands| == |attempts| && Structured(s.book)
    requires forall k :: 0 <= k < |commands| ==> StageFit(s, commands, attempts, k)
    ensures Structured(Stage(s, commands, attempts, i).book)
  {
    if i > 0 {
      StageStructured(s, commands, attempts, i - 1);
      assert StageFit(s, commands, attempts, i - 1);
      NextStage(s, commands, attempts, i - 1);
      StepStructured(Stage(s, commands, attempts, i - 1), commands[i - 1], attempts[i - 1]);
    }
  }

  lemma StepStructured(s: EngineState, c: Command, a: Attempt)
    requires Structured(s.book) && Fit(s, c, a)
    ensures Structured(Handle(s, c, a).book)
  {
    if s.Verdict(a) == Appended {
      CommandKeepsStructure(s.book, c);
    }
  }

  lemma StageAgreesIff(origin: BookState, s: EngineState, commands: seq<Command>, attempts: seq<Attempt>, i: nat)
    requires i < |commands| == |attempts| && Structured(s.book)
    requires forall k :: 0 <= k < |commands| ==> StageFit(s, commands, attempts, k)
    requires StageEnds(s, commands, attempts, i) && StageEnds(s, commands, attempts, i + 1)
    requires AgreesAt(origin, s, commands, attempts, i)
    ensures AgreesAt(origin, s, commands, attempts, i + 1) <==> HarmlessAt(s, commands, attempts, i)
  {
    StageStructured(s, commands, attempts, i);
    assert StageFit(s, commands, attempts, i);
    NextStage(s, commands, attempts, i);
    StepAgreesIff(origin, Stage(s, commands, attempts, i), commands[i], attempts[i]);
  }

  lemma {:induction false} HarmlessAgrees(
    origin: BookState, s: EngineState, commands: seq<Command>, attempts: seq<Attempt>, i: nat)
    requires i <= |commands| == |attempts| && Structured(s.book)
    requires forall k :: 0 <= k < |commands| ==> StageFit(s, commands, attempts, k)
    requires forall k :: 0 <= k <= |commands| ==> StageEnds(s, commands, attempts, k)
    requires AgreesAt(origin, s, commands, attempts, 0)
    requires forall k :: 0 <= k < |commands| ==> HarmlessAt(s, commands, attempts, k)
    ensures AgreesAt(origin, s, commands, attempts, i)
  {
    if i > 0 {
      HarmlessAgrees(origin, s, commands, attempts, i - 1);
      assert HarmlessAt(s, commands, attempts, i - 1);
      StageAgreesIff(origin, s, commands, attempts, i - 1);
    }
  }

  /**
   The file replays to the engine's book all along a run exactly when every command was harmless: up to
   the first scrap each failed force was of a command without effect and each command applied replays
   alike, and behind it each command applied was without effect.
   */
  lemma LogAgreesIff(origin: BookState, s: EngineState, commands: seq<Command>, attempts: seq<Attempt>)
    requires |attempts| == |commands| && Structured(s.book)
    requires forall i :: 0 <= i < |commands| ==> StageFit(s, commands, attempts, i)
    requires forall i :: 0 <= i <= |commands| ==> StageEnds(s, commands, attempts, i)
    requires AgreesAt(origin, s, commands, attempts, 0)
    ensures (forall i :: 0 <= i <= |commands| ==> AgreesAt(origin, s, commands, attempts, i)) <==>
            (forall i :: 0 <= i < |commands| ==> HarmlessAt(s, commands, attempts, i))
  {
    if forall i :: 0 <= i < |commands| ==> HarmlessAt(s, commands, attempts, i) {
      forall i | 0 <= i <= |commands| ensures AgreesAt(origin, s, commands, attempts, i) {
        HarmlessAgrees(origin, s, commands, attempts, i);
      }
    } else {
      var i :| 0 <= i < |commands| && !HarmlessAt(s, commands, attempts, i);
      if AgreesAt(origin, s, commands, attempts, i) {
        StageAgreesIff(origin, s, commands, attempts, i);
        assert !AgreesAt(origin, s, commands, attempts, i + 1);
      }
    }
  }

  // ----- Short scraps -----

  /** One to three bytes, and then nothing or something that starts like a record. */
  predicate ShortStart(bytes: seq<Byte>, n: nat) {
    1 <= n <= 3 && n <= |bytes| && (n < |bytes| ==> bytes[n] as nat >= 17)
  }

  predicate ShortTail(bytes: seq<Byte>) {
    bytes == [] || ShortStart(bytes, 1) || ShortStart(bytes, 2) || ShortStart(bytes, 3)
  }

  lemma ShortUnreadable(c: Codec<LoggedRecord, Byte>, bytes: seq<Byte>)
    requires IsWal(c) && ShortTail(bytes)
    ensures Unreadable(c, bytes)
  {
    assert Reads(c, bytes);
    if |bytes| >= HEADER_SIZE {
      HighLength(bytes, if ShortStart(bytes, 1) then 1 else if ShortStart(bytes, 2) then 2 else 3);
    }
  }

  lemma ShortGrows(bytes: seq<Byte>, more: seq<Byte>)
    requires ShortTail(bytes) && (more == [] || more[0] as nat >= 17)
    ensures bytes != [] ==> ShortTail(bytes + more)
    ensures |more| <= 3 ==> ShortTail(bytes + more)
  {
    if bytes == [] {
      assert bytes + more == more;
      assert more != [] ==> |more| <= 3 ==> ShortStart(more, |more|);
    } else {
      var n := if ShortStart(bytes, 1) then 1 else if ShortStart(bytes, 2) then 2 else 3;
      assert ShortStart(bytes + more, n);
    }
  }

  lemma RecordStart(c: Codec<LoggedRecord, Byte>, r: LoggedRecord)
    requires forall r :: Encodes(c, r)
    ensures |c.encode(r)| >= 25 && c.encode(r)[0] as nat >= 17
  {
    assert Encodes(c, r);
    LengthByte(Payload(r));
  }

  /** No failed write has left more than three bytes. */
  ghost predicate ShortLedger(c: Codec<LoggedRecord, Byte>, l: Ledger<LoggedRecord, Byte>) {
    Tracks(c, l) && ShortTail(Behind(c, l)) && (l.clean || Behind(c, l) != [])
  }

  lemma ShortScrapStep(c: Codec<LoggedRecord, Byte>, l: Ledger<LoggedRecord, Byte>, r: LoggedRecord, n: nat)
    requires IsWal(c) && ShortLedger(c, l) && n <= 3
    ensures ShortLedger(c, l.WithScrap(CutShort(c.encode(r), n)))
  {
    var scrap := CutShort(c.encode(r), n);
    RecordStart(c, r);
    ScrapTracked(c, l, scrap);
    BehindGrows(c, l, scrap, r);
    ShortGrows(Behind(c, l), scrap);
  }

  lemma ShortRecordStep(c: Codec<LoggedRecord, Byte>, l: Ledger<LoggedRecord, Byte>, r: LoggedRecord, forced: bool)
    requires IsWal(c) && ShortLedger(c, l)
    ensures var written := l.WithRecord(c.encode(r), r); ShortLedger(c, if forced then written.Forced() else written)
  {
    var bytes := c.encode(r);
    RecordStart(c, r);
    AppendTracked(c, l, r, forced);
    BehindGrows(c, l, bytes, r);
    BehindGrows(c, if forced then l.WithRecord(bytes, r).Forced() else l.WithRecord(bytes, r), [], r);
    ShortGrows(Behind(c, l), bytes);
  }

  lemma ShortLedgerStep(c: Codec<LoggedRecord, Byte>, l: Ledger<LoggedRecord, Byte>, r: LoggedRecord, a: Attempt,
                        forces: bool)
    requires IsWal(c) && ShortLedger(c, l) && (a.io.WriteFails? ==> a.io.written <= 3)
    ensures ShortLedger(c, LedgerAfter(c, l, r, a, forces))
  {
    if a.io.WriteFails? {
      ShortScrapStep(c, l, r, a.io.written);
    } else {
      ShortRecordStep(c, l, r, forces);
    }
  }

  ghost predicate ShortScraps(s: EngineState) {
    s.logging && IsWal(s.codec) && ShortLedger(s.codec, s.ledger)
  }

  lemma ShortStep(s: EngineState, c: Command, a: Attempt)
    requires ShortScraps(s) && (a.io.WriteFails? ==> a.io.written <= 3)
    ensures ShortScraps(Handle(s, c, a))
  {
    HandledLedger(s, c, a);
    ShortLedgerStep(s.codec, s.ledger, RecordOf(s.next, c), a, s.forcing.Forces(a));
  }

  lemma {:induction false} ShortStages(s: EngineState, commands: seq<Command>, attempts: seq<Attempt>, i: nat)
    requires i <= |commands| == |attempts| && ShortScraps(s)
    requires forall k :: 0 <= k < |attempts| && attempts[k].io.WriteFails? ==> attempts[k].io.written <= 3
    ensures ShortScraps(Stage(s, commands, attempts, i)) && StageEnds(s, commands, attempts, i)
  {
    if i > 0 {
      ShortStages(s, commands, attempts, i - 1);
      NextStage(s, commands, attempts, i - 1);
      ShortStep(Stage(s, commands, attempts, i - 1), commands[i - 1], attempts[i - 1]);
    }
    ShortEnds(Stage(s, commands, attempts, i));
  }

  /** When no failed write leaves more than three bytes, replay ends at the first scrap, whatever is written behind it. */
  lemma ShortScrapsAgreeIff(origin: BookState, s: EngineState, commands: seq<Command>, attempts: seq<Attempt>)
    requires |attempts| == |commands| && Structured(s.book) && ShortScraps(s) && Agrees(origin, s)
    requires forall k :: 0 <= k < |attempts| && attempts[k].io.WriteFails? ==> attempts[k].io.written <= 3
    requires forall i :: 0 <= i < |commands| ==> StageFit(s, commands, attempts, i)
    ensures forall i :: 0 <= i <= |commands| ==> StageEnds(s, commands, attempts, i)
    ensures (forall i :: 0 <= i <= |commands| ==> AgreesAt(origin, s, commands, attempts, i)) <==>
            (forall i :: 0 <= i < |commands| ==> HarmlessAt(s, commands, attempts, i))
  {
    forall i | 0 <= i <= |commands| ensures StageEnds(s, commands, attempts, i) {
      ShortStages(s, commands, attempts, i);
    }
    assert Stage(s, commands, attempts, 0) == s;
    LogAgreesIff(origin, s, commands, attempts);
  }

  // ----- Where log and book part -----

  /** An engine that has just opened an empty file and has an empty book. */
  function FreshEngine(c: Codec<LoggedRecord, Byte>): EngineState {
    EngineState(EmptyBook, true, c, Ledger([], [], 0, true, 0, 0, 0), [], 1, Forcing(Always, 0, 0, 0, 0), 0, 0, 0, [])
  }

  const FirstSell := SubmitCommand(NewLimit(1, Sell, 1, 20, 100))

  lemma FreshEngineAgrees(c: Codec<LoggedRecord, Byte>)
    requires IsWal(c)
    ensures ShortScraps(FreshEngine(c)) && EndsAtScrap(FreshEngine(c)) && Readable(FreshEngine(c)) == []
  {
  }

  lemma FirstSellRests()
    ensures ApplyCommand(EmptyBook, FirstSell).book == OneSell && CommandAsStored(FirstSell) == FirstSell
    ensures ApplyAll(EmptyBook, [FirstSell]) == OneSell && OneSell != EmptyBook && Storable(FirstSell)
  {
    assert Accept(EmptyBook, FirstSell.order).book == OneSell;
    ProgressStep(EmptyBook, [], FirstSell);
    assert [] + [FirstSell] == [FirstSell];
  }

  /**
   The engine's own claim that a throwing append leaves log and book in agreement is false: the force
   behind a first sell fails, the sell is not in the book and counted as failed, and a restart replays it.
   */
  lemma FailedForceDisagrees(c: Codec<LoggedRecord, Byte>)
    requires IsWal(c)
    ensures var after := Handle(FreshEngine(c), FirstSell, Attempt(SyncFails, 0, 0));
      && after.book == EmptyBook && after.storageFailures == 1
      && ApplyAll(EmptyBook, Readable(after)) == OneSell && OneSell != EmptyBook
  {
    var s, a := FreshEngine(c), Attempt(SyncFails, 0, 0);
    FreshEngineAgrees(c);
    FirstSellRests();
    ShortStep(s, FirstSell, a);
    ShortEnds(Handle(s, FirstSell, a));
    ReadableGrows(s, FirstSell, a);
    assert [] + [FirstSell] == [FirstSell];
  }

  /**
   Nor does it hold of a write that fails: after one byte of a first sell and a second try that succeeds
   and is forced, the sell is in the book, and a restart finds nothing.
   */
  lemma FailedWriteDisagrees(c: Codec<LoggedRecord, Byte>)
    requires IsWal(c)
    ensures var once := Handle(FreshEngine(c), FirstSell, Attempt(WriteFails(1), 0, 0));
      var after := Handle(once, FirstSell, Attempt(Succeeds, 0, 0));
      && after.book == OneSell && after.ledger.durable == |after.ledger.file|
      && ApplyAll(EmptyBook, Readable(after)) == EmptyBook && OneSell != EmptyBook
  {
    var s, a, a' := FreshEngine(c), Attempt(WriteFails(1), 0, 0), Attempt(Succeeds, 0, 0);
    var once := Handle(s, FirstSell, a);
    FreshEngineAgrees(c);
    FirstSellRests();
    ShortStep(s, FirstSell, a);
    ShortEnds(once);
    ShortStep(once, FirstSell, a');
    ShortEnds(Handle(once, FirstSell, a'));
    RecordStart(c, RecordOf(1, FirstSell));
    ReadableGrows(s, FirstSell, a);
    ReadableGrows(once, FirstSell, a');
  }

  lemma ShortEnds(s: EngineState)
    requires ShortScraps(s)
    ensures Tracked(s) && EndsAtScrap(s)
  {
    ShortUnreadable(s.codec, Behind(s.codec, s.ledger));
  }

  /** Yet later commands can paper over it: a cancel whose force failed, sent again, ends in agreement. */
  lemma SentAgainHeals(origin: BookState, s: EngineState, id: OrderId, a: Attempt, again: Attempt)
    requires ShortScraps(s) && s.ledger.clean && Structured(s.book) && Agrees(origin, s)
    requires s.book.Lookup(id).Some? && id < TWO_TO_THE_64 && s.next + 1 < TWO_TO_THE_64
    requires s.Verdict(a) == SyncFailed && s.forcing.After(a).Result(again) == Appended
    ensures var failed := Handle(s, CancelCommand(id), a);
      !Agrees(origin, failed) && Agrees(origin, Handle(failed, CancelCommand(id), again))
  {
    var cancel, gone := CancelCommand(id), Cancel(s.book, id).book;
    var failed := Handle(s, cancel, a);
    ShortEnds(s);
    ShortStep(s, cancel, a);
    ShortEnds(failed);
    ShortStep(failed, cancel, again);
    ShortEnds(Handle(failed, cancel, again));
    ReadableGrows(s, cancel, a);
    ReadableGrows(failed, cancel, again);
    CancelledTwice(origin, Readable(s), s.book, id);
  }

  lemma CancelledTwice(origin: BookState, read: seq<Command>, b: BookState, id: OrderId)
    requires Structured(b) && b == ApplyAll(origin, read) && b.Lookup(id).Some?
    ensures var cancel := CancelCommand(id);
      && ApplyAll(origin, read + [cancel]) != b
      && ApplyAll(origin, read + [cancel] + [cancel]) == ApplyCommand(b, cancel).book
  {
    var cancel, gone := CancelCommand(id), Cancel(b, id).book;
    LookupIffCounted(b, id);
    LookupIffCounted(gone, id);
    CancelKeepsStructure(b, id);
    ProgressStep(origin, read, cancel);
    ProgressStep(origin, read + [cancel], cancel);
    assert Cancel(gone, id).book == gone;
  }
}
