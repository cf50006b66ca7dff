/** The crash machine with the exchange in it: its log records, its book, and applying a command to it. */
module Durability {
  import opened Bytes
  import opened Orders
  import opened Matching
  import opened Ladders
  import opened BookModel
  import opened BookTheorems
  import opened WalRecords
  import opened RecordFiles
  import opened WriteAheadLogs
  import opened Recovery
  import opened CrashSafety

  function ApplyRecord(b: BookState, r: LoggedRecord): BookState {
    ApplyCommand(b, r.command).book
  }

  predicate ComesNext(records: seq<LoggedRecord>, r: LoggedRecord) {
    r.sequence == SequenceAfter(records)
  }

  /** An iceberg that shows all it holds. */
  predicate FullDisplay(o: OrderState) {
    o.terms.Iceberg? && o.terms.display == o.remaining
  }

  /** A submitted order is as a constructor left it, and does not come to rest if it is a full-display iceberg. */
  predicate KeepsItsEffect(b: BookState, c: Command) {
    c.SubmitCommand? ==>
      && c.order.Fresh()
      && (FullDisplay(c.order) && Admissible(b, c.order) ==> !WillRest(c.order, Sweep(b, c.order)))
  }

  predicate AdmitsRecord(b: BookState, r: LoggedRecord) {
    KeepsItsEffect(b, r.command)
  }

  function Exchange(forced: bool): World<LoggedRecord, Byte, BookState> {
    World(WAL, EmptyBook, ApplyRecord, AdmitsRecord, ComesNext, forced)
  }

  ghost predicate Applies(w: World<LoggedRecord, Byte, BookState>, b: BookState, r: LoggedRecord) {
    w.apply(b, r) == ApplyRecord(b, r)
  }

  ghost predicate Numbers(w: World<LoggedRecord, Byte, BookState>, records: seq<LoggedRecord>, r: LoggedRecord) {
    w.follows(records, r) == ComesNext(records, r)
  }

  ghost predicate Admits(w: World<LoggedRecord, Byte, BookState>, b: BookState, r: LoggedRecord) {
    w.admits(b, r) == AdmitsRecord(b, r)
  }

  /** `w` is the exchange; taken as a parameter where a proof need not look inside a record or a book. */
  ghost predicate IsExchange(w: World<LoggedRecord, Byte, BookState>) {
    && IsWal(w.codec) && w.initial == EmptyBook
    && (forall b, r :: Applies(w, b, r)) && (forall b, r :: Admits(w, b, r)) && (forall records, r :: Numbers(w, records, r))
  }

  lemma ExchangeIsExchange(forced: bool)
    ensures IsExchange(Exchange(forced))
  {
    WalIsWal();
    var w := Exchange(forced);
    forall b: BookState, r: LoggedRecord ensures Applies(w, b, r) {
    }
    forall b: BookState, r: LoggedRecord ensures Admits(w, b, r) {
    }
    forall records: seq<LoggedRecord>, r: LoggedRecord ensures Numbers(w, records, r) {
    }
  }

  /** An admitted command is stored like what it is read back as, and the two do the same to the book. */
  lemma RecordFaithful(b: BookState, r: LoggedRecord)
    requires AdmitsRecord(b, r)
    ensures Encoded(AsRead(r)) == Encoded(r) && AsRead(AsRead(r)) == AsRead(r)
    ensures ApplyRecord(b, AsRead(r)) == ApplyRecord(b, r)
  {
    if r.command.SubmitCommand? {
      var o := r.command.order;
      StoredExactly(o);
      if FullDisplay(o) {
        FullDisplayAccepted(b, o);
      }
    }
  }

  lemma ExchangeSound(w: World<LoggedRecord, Byte, BookState>)
    requires IsExchange(w)
    ensures SoundWorld(w)
  {
    forall b: BookState, r: LoggedRecord | w.admits(b, r) ensures Faithful(w, b, r) {
      ExchangeFaithful(w, b, r);
    }
    forall records: seq<LoggedRecord>, r: LoggedRecord | w.follows(records, r)
      ensures w.follows(records, w.codec.canon(r))
    {
      assert Encodes(w.codec, r) && Numbers(w, records, r) && Numbers(w, records, w.codec.canon(r));
    }
  }

  lemma ExchangeFaithful(w: World<LoggedRecord, Byte, BookState>, b: BookState, r: LoggedRecord)
    requires IsExchange(w) && w.admits(b, r)
    ensures Faithful(w, b, r)
  {
    assert Admits(w, b, r) && Encodes(w.codec, r) && Encodes(w.codec, AsRead(r));
    assert Applies(w, b, r) && Applies(w, b, AsRead(r));
    RecordFaithful(b, r);
  }

  /** Folding the records is applying their commands. */
  lemma {:induction false} FoldIsApplyAll(w: World<LoggedRecord, Byte, BookState>, records: seq<LoggedRecord>)
    requires IsExchange(w)
    ensures Fold(w.apply, EmptyBook, records) == ApplyAll(EmptyBook, CommandsOf(records))
  {
    if records != [] {
      var n := |records| - 1;
      FoldIsApplyAll(w, records[..n]);
      assert CommandsOf(records)[..n] == CommandsOf(records[..n]);
      assert Applies(w, Fold(w.apply, EmptyBook, records[..n]), records[n]);
    }
  }

  /**
   For every run of the exchange from an empty log, with any number of crashes behind it, and every
   point at which it may die again: the log that survives rebuilds the book after some first `m`
   commands, in every field. They are all the commands that were published, and at most one more
   than had been served.
   */
  lemma RecoveredExchange(
    w: World<LoggedRecord, Byte, BookState>, start: System<LoggedRecord, Byte, BookState>,
    steps: seq<Step<LoggedRecord>>, k: nat)
    requires IsExchange(w) && Start(w, start) && CanRun(w, start, steps)
    requires Enabled(w, After(w, start, steps), Crash(k))
    ensures
      var s := After(w, start, steps);
      var commands, m, back := CommandsOf(s.records), Surviving(w, s, k), Next(w, s, Crash(k));
      && s.acked <= m <= s.served + 1 && m <= |commands| && 0 <= InMemory(s)
      && back.records == s.records[..m]
      && back.state == ApplyAll(EmptyBook, commands[..m])
      && s.state == ApplyAll(EmptyBook, commands[..InMemory(s)])
  {
    var s := After(w, start, steps);
    ExchangeSound(w);
    StartInv(w, start);
    RunKeepsInv(w, start, steps);
    CrashSafe(w, s, k);
    FrontBook(w, s.records, Surviving(w, s, k));
    FrontBook(w, s.records, InMemory(s));
  }

  lemma FrontBook(w: World<LoggedRecord, Byte, BookState>, records: seq<LoggedRecord>, n: nat)
    requires IsExchange(w) && n <= |records|
    ensures Fold(w.apply, EmptyBook, records[..n]) == ApplyAll(EmptyBook, CommandsOf(records)[..n])
  {
    FoldIsApplyAll(w, records[..n]);
    assert CommandsOf(records)[..n] == CommandsOf(records[..n]);
  }

  /** Whatever crashes lie behind it, the log numbers its records one, two, three. */
  lemma {:induction false} NumberedFromOne(w: World<LoggedRecord, Byte, BookState>, records: seq<LoggedRecord>, i: nat)
    requires IsExchange(w) && Numbered(w, records) && i < |records|
    ensures records[i].sequence == i + 1
  {
    assert Numbers(w, records[..i], records[i]);
    if i > 0 {
      NumberedFromOne(w, records, i - 1);
      assert records[..i][i - 1] == records[i - 1];
    }
  }

  /** When each command met its condition, the recovered book and the live one are whole and uncrossed. */
  lemma RecoveredBookIsFit(
    w: World<LoggedRecord, Byte, BookState>, start: System<LoggedRecord, Byte, BookState>,
    steps: seq<Step<LoggedRecord>>, k: nat)
    requires IsExchange(w) && Start(w, start) && CanRun(w, start, steps)
    requires Enabled(w, After(w, start, steps), Crash(k))
    requires HealthyRun(EmptyBook, CommandsOf(After(w, start, steps).records))
    ensures
      var s := After(w, start, steps);
      var back := Next(w, s, Crash(k));
      Structured(back.state) && HealthyBook(back.state) && Structured(s.state) && HealthyBook(s.state)
  {
    var s := After(w, start, steps);
    RecoveredExchange(w, start, steps, k);
    FrontIsFit(CommandsOf(s.records), Surviving(w, s, k));
    FrontIsFit(CommandsOf(s.records), InMemory(s));
  }

  lemma FrontIsFit(commands: seq<Command>, n: nat)
    requires HealthyRun(EmptyBook, commands) && n <= |commands|
    ensures var b := ApplyAll(EmptyBook, commands[..n]); Structured(b) && HealthyBook(b)
  {
    HealthyFront(EmptyBook, commands, n);
    ReachableBooks(commands[..n]);
  }

  // ----- Which commands replay to the same book -----

  /** The two orders look the same to everybody they meet. */
  predicate Alike(a: OrderState, a': OrderState) {
    && a.id == a'.id && a.side == a'.side && a.account == a'.account && a.remaining == a'.remaining
    && a.RestingPrice() == a'.RestingPrice()
  }

  lemma {:induction false} MatchAlike(ladder: Ladder, a: OrderState, a': OrderState, available: Quantity)
    requires Alike(a, a')
    ensures Match(ladder, a, available) == Match(ladder, a', available)
    decreases available, |ladder|
  {
    if ladder != [] && ladder[0].queue == [] {
      MatchAlike(ladder[1..], a, a', available);
    } else if Trades(ladder, a, available) {
      var qty := Min(available, ladder[0].queue[0].Visible());
      MatchAlike(Traded(ladder, qty), a, a', available - qty);
    }
  }

  lemma {:induction false} RestInjective(side: Side, ladder: Ladder, price: Price, o: OrderState, o': OrderState)
    requires Rest(side, ladder, price, o) == Rest(side, ladder, price, o')
    ensures o == o'
  {
    var after, after' := Rest(side, ladder, price, o), Rest(side, ladder, price, o');
    if ladder == [] || Better(side, price, ladder[0].price) {
      assert after[0].queue == [o] && after'[0].queue == [o'];
    } else if ladder[0].price == price {
      assert after[0].queue[|ladder[0].queue|] == o && after'[0].queue[|ladder[0].queue|] == o';
    } else {
      assert after[1..] == Rest(side, ladder[1..], price, o) && after'[1..] == Rest(side, ladder[1..], price, o');
      RestInjective(side, ladder[1..], price, o, o');
    }
  }

  /** A full-display iceberg and the limit order it is stored as part ways just when they come to rest. */
  lemma FullDisplayAccepted(b: BookState, o: OrderState)
    requires o.Fresh() && FullDisplay(o)
    ensures Accept(b, o).book == Accept(b, AsStored(o)).book <==> !WillRest(o, Sweep(b, o))
  {
    var o', opposite := AsStored(o), o.side.Opposite();
    MatchAlike(b.On(opposite), o, o', o.remaining);
    var m := Sweep(b, o);
    if WillRest(o, m) {
      var price := o.terms.limit;
      var rested, rested' := ConsumedBy(o.Stamped(b.nextSequence), m.fills), ConsumedBy(o'.Stamped(b.nextSequence), m.fills);
      ConsumedKeepsIdentity(o.Stamped(b.nextSequence), m.fills);
      ConsumedKeepsIdentity(o'.Stamped(b.nextSequence), m.fills);
      assert Accept(b, o).book.On(o.side) == Rest(o.side, b.On(o.side), price, rested);
      assert Accept(b, o').book.On(o.side) == Rest(o.side, b.On(o.side), price, rested');
      if Accept(b, o).book == Accept(b, o').book {
        RestInjective(o.side, b.On(o.side), price, rested, rested');
      }
    }
  }

  /** A command that what is stored of it does not stand for: a full-display iceberg that comes to rest. */
  predicate ReplaysOtherwise(b: BookState, c: Command) {
    c.SubmitCommand? && FullDisplay(c.order) && Admissible(b, c.order) && ComesToRest(b, c.order)
  }

  /** What the machine admits, told from the book the command finds. */
  lemma KeepsItsEffectIff(b: BookState, c: Command)
    requires Structured(b) && Serviceable(b, c)
    ensures KeepsItsEffect(b, c) <==> (c.SubmitCommand? ==> c.order.Fresh()) && !ReplaysOtherwise(b, c)
  {
    if c.SubmitCommand? && Admissible(b, c.order) {
      SubmitForetold(b, c.order);
    }
  }

  /**
   Exactly which commands replay to another book, told from the book they find: a command and what
   the log gives back for it lead to the same book unless it is an admissible submit of a full-display
   iceberg that comes to rest.
   */
  lemma ReplaysAlike(b: BookState, c: Command)
    requires Structured(b) && Serviceable(b, c) && (c.SubmitCommand? ==> c.order.Fresh())
    ensures ApplyCommand(b, c).book == ApplyCommand(b, CommandAsStored(c)).book <==> !ReplaysOtherwise(b, c)
  {
    if c.SubmitCommand? {
      StoredExactly(c.order);
      if Admissible(b, c.order) {
        SubmitForetold(b, c.order);
      }
      if FullDisplay(c.order) {
        FullDisplayAccepted(b, c.order);
      }
    }
  }

  function AsStoredAll(commands: seq<Command>): (stored: seq<Command>)
    ensures |stored| == |commands|
    ensures forall i :: 0 <= i < |commands| ==> stored[i] == CommandAsStored(commands[i])
  {
    seq(|commands|, i requires 0 <= i < |commands| => CommandAsStored(commands[i]))
  }

  ghost predicate SameAfter(b: BookState, commands: seq<Command>, i: nat)
    requires i <= |commands|
  {
    ApplyAll(b, commands[..i]) == ApplyAll(b, AsStoredAll(commands)[..i])
  }

  ghost predicate AlikeAt(b: BookState, commands: seq<Command>, i: nat)
    requires i < |commands|
  {
    !ReplaysOtherwise(ApplyAll(b, commands[..i]), commands[i])
  }

  lemma SameStep(b: BookState, commands: seq<Command>, i: nat)
    requires i < |commands| && ReadyRun(b, commands) && (commands[i].SubmitCommand? ==> commands[i].order.Fresh())
    requires SameAfter(b, commands, i)
    ensures SameAfter(b, commands, i + 1) <==> AlikeAt(b, commands, i)
  {
    assert ReadyAt(b, commands, i);
    RunStep(b, commands, i);
    RunStep(b, AsStoredAll(commands), i);
    ReplaysAlike(ApplyAll(b, commands[..i]), commands[i]);
  }

  lemma {:induction false} AlikeSoFar(b: BookState, commands: seq<Command>, i: nat)
    requires i <= |commands| && ReadyRun(b, commands)
    requires forall k :: 0 <= k < |commands| && commands[k].SubmitCommand? ==> commands[k].order.Fresh()
    requires forall k :: 0 <= k < |commands| ==> AlikeAt(b, commands, k)
    ensures SameAfter(b, commands, i)
  {
    if i > 0 {
      AlikeSoFar(b, commands, i - 1);
      assert AlikeAt(b, commands, i - 1);
      SameStep(b, commands, i - 1);
    }
  }

  /** A run and the run the log gives back for it go the same way exactly when each command replays alike. */
  lemma RunReplaysAlikeIff(b: BookState, commands: seq<Command>)
    requires ReadyRun(b, commands)
    requires forall k :: 0 <= k < |commands| && commands[k].SubmitCommand? ==> commands[k].order.Fresh()
    ensures (forall i :: 0 <= i <= |commands| ==> SameAfter(b, commands, i)) <==>
            (forall i :: 0 <= i < |commands| ==> AlikeAt(b, commands, i))
  {
    if forall i :: 0 <= i < |commands| ==> AlikeAt(b, commands, i) {
      forall i | 0 <= i <= |commands| ensures SameAfter(b, commands, i) {
        AlikeSoFar(b, commands, i);
      }
    } else {
      var i :| 0 <= i < |commands| && !AlikeAt(b, commands, i);
      if SameAfter(b, commands, i) {
        SameStep(b, commands, i);
        assert !SameAfter(b, commands, i + 1);
      }
    }
  }

  // ----- Why an iceberg must hide something -----

  /** A book holding one sell order and nothing else. */
  function LoneSell(o: OrderState, price: Price, nextSequence: Sequence): BookState {
    BookState([], [LevelState(price, [o])], nextSequence)
  }

  lemma FirstSell(o: OrderState, n: Sequence)
    requires o.side == Sell && !o.terms.Market? && o.remaining > 0
    ensures Accept(BookState([], [], n), o).book == LoneSell(o.Stamped(n), o.terms.limit, n + 1)
    ensures Admissible(BookState([], [], n), o)
  {
    assert Sweep(BookState([], [], n), o) == MatchResult([], [], o.remaining, false);
    assert ConsumedBy(o.Stamped(n), []) == o.Stamped(n);
  }

  lemma GrownSell(o: OrderState, price: Price, n: Sequence, qty: Quantity)
    requires o.side == Sell && !o.terms.Market? && o.terms.limit == price && 0 < o.remaining < qty
    ensures Modify(LoneSell(o, price, n), o.id, qty, None).book == LoneSell(o.Amended(qty, price).Stamped(n), price, n + 1)
  {
    var b := LoneSell(o, price, n);
    assert Find(b.asks, o.id) == Some(o);
    assert Remove(b.asks, o.id) == [];
    FirstSell(o.Amended(qty, price), n);
  }

  lemma SubmitThenGrow(o: OrderState, qty: Quantity)
    requires o.side == Sell && !o.terms.Market? && o.sequence == 0 && 0 < o.remaining < qty
    ensures var commands := [SubmitCommand(o), ModifyCommand(o.id, qty, None)];
            ApplyAll(EmptyBook, commands) == LoneSell(o.Amended(qty, o.terms.limit).Stamped(2), o.terms.limit, 3)
  {
    var commands := [SubmitCommand(o), ModifyCommand(o.id, qty, None)];
    assert commands[..1] == [SubmitCommand(o)] && commands[..1][..0] == [];
    FirstSell(o, 1);
    assert ApplyAll(EmptyBook, commands[..1]) == LoneSell(o.Stamped(1), o.terms.limit, 2);
    GrownSell(o.Stamped(1), o.terms.limit, 2, qty);
  }

  /**
   An iceberg that shows all it holds is logged as a limit order, and grows differently on replay:
   doubled, the live book shows the ten it always did, the replayed one all twenty.
   */
  lemma FullDisplayDiverges()
    ensures
      var o := NewIceberg(1, Sell, 1, 10, 100, 10);
      var grow := ModifyCommand(1, 20, None);
      && ApplyAll(EmptyBook, [SubmitCommand(o), grow]).Sum(Shown) == 10
      && ApplyAll(EmptyBook, [CommandAsStored(SubmitCommand(o)), grow]).Sum(Shown) == 20
  {
    var o := NewIceberg(1, Sell, 1, 10, 100, 10);
    SubmitThenGrow(o, 20);
    SubmitThenGrow(AsStored(o), 20);
    LoneSellShows(o.Amended(20, 100).Stamped(2), 100, 3);
    LoneSellShows(AsStored(o).Amended(20, 100).Stamped(2), 100, 3);
  }

  lemma LoneSellShows(o: OrderState, price: Price, nextSequence: Sequence)
    ensures LoneSell(o, price, nextSequence).Sum(Shown) == o.Visible()
  {
    var asks := LoneSell(o, price, nextSequence).asks;
    assert asks[1..] == [] && asks[0].queue[1..] == [];
    assert QueueSum(asks[0].queue, Shown) == o.Visible() + QueueSum([], Shown);
    assert LadderSum(asks, Shown) == QueueSum(asks[0].queue, Shown) + LadderSum([], Shown);
  }
}
