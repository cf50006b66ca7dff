/** Rebuilding the book: every intact record of the log goes through the path live commands take. */
module Recovery {
  import opened Bytes
  import opened Crc32
  import opened Orders
  import opened Matching
  import opened BookModel
  import opened BookTheorems
  import opened WalRecords
  import opened RecordFiles
  import opened WriteAheadLogs
  import B = Book

  predicate Accepted(o: Outcome) {
    o.Outcome? && o.accepted
  }

  function FillsOf(o: Outcome): seq<Fill> {
    if o.Outcome? then o.fills else []
  }

  /** How many commands of a run the book accepts. */
  ghost function AcceptedIn(b: BookState, commands: seq<Command>): (n: nat)
    ensures n <= |commands|
  {
    if commands == [] then 0
    else
      var before := commands[..|commands| - 1];
      AcceptedIn(b, before)
      + if Accepted(ApplyCommand(ApplyAll(b, before), commands[|commands| - 1]).outcome) then 1 else 0
  }

  /** The fills of a run, in the order they happen. */
  ghost function FillsIn(b: BookState, commands: seq<Command>): seq<Fill> {
    if commands == [] then []
    else
      var before := commands[..|commands| - 1];
      FillsIn(b, before) + FillsOf(ApplyCommand(ApplyAll(b, before), commands[|commands| - 1]).outcome)
  }

  lemma RunStep(b: BookState, commands: seq<Command>, i: nat)
    requires i < |commands|
    ensures var front, more := commands[..i], commands[..i + 1];
            var applied := ApplyCommand(ApplyAll(b, front), commands[i]);
            && ApplyAll(b, more) == applied.book
            && AcceptedIn(b, more) == AcceptedIn(b, front) + (if Accepted(applied.outcome) then 1 else 0)
            && FillsIn(b, more) == FillsIn(b, front) + FillsOf(applied.outcome)
  {
    assert commands[..i + 1][..i] == commands[..i];
  }

  ghost predicate ReadyAt(b: BookState, commands: seq<Command>, k: nat)
    requires k < |commands|
  {
    var now := ApplyAll(b, commands[..k]);
    Structured(now) && Serviceable(now, commands[k])
  }

  /** Each command of a run finds a book that is fit for it. */
  ghost predicate ReadyRun(b: BookState, commands: seq<Command>) {
    forall k :: 0 <= k < |commands| ==> ReadyAt(b, commands, k)
  }

  lemma HealthyIsReady(b: BookState, commands: seq<Command>)
    requires Structured(b) && HealthyBook(b) && HealthyRun(b, commands)
    ensures ReadyRun(b, commands)
  {
    forall k | 0 <= k < |commands| ensures ReadyAt(b, commands, k) {
      HealthyFront(b, commands, k);
      RunKeepsBook(b, commands[..k]);
      HealthyServes(ApplyAll(b, commands[..k]), commands[k]);
    }
  }

  /** Where a run stands: the book it has made, and what it has produced. */
  datatype Progress = Progress(book: BookState, accepted: nat, fills: seq<Fill>)

  ghost function ProgressOf(b: BookState, commands: seq<Command>): Progress {
    Progress(ApplyAll(b, commands), AcceptedIn(b, commands), FillsIn(b, commands))
  }

  ghost predicate Reached(b: BookState, commands: seq<Command>, i: nat, p: Progress)
    requires i <= |commands|
  {
    p == ProgressOf(b, commands[..i])
  }

  /** `course` is where the run from `b` stands before each command and at the end. */
  ghost predicate Course(b: BookState, commands: seq<Command>, course: seq<Progress>) {
    && |course| == |commands| + 1
    && forall i {:trigger Reached(b, commands, i, course[i])} :: 0 <= i <= |commands| ==> Reached(b, commands, i, course[i])
  }

  lemma Chart(b: BookState, commands: seq<Command>) returns (course: seq<Progress>)
    ensures Course(b, commands, course)
    ensures course[0] == Progress(b, 0, []) && course[|commands|] == ProgressOf(b, commands)
  {
    course := seq(|commands| + 1, i requires 0 <= i <= |commands| => ProgressOf(b, commands[..i]));
    forall i | 0 <= i <= |commands| ensures Reached(b, commands, i, course[i]) {
    }
    assert commands[..|commands|] == commands;
  }

  /** Applies command `i` of a run to the book the first `i` made. */
  method ApplyNext(book: B.Book, c: Command, ghost b: BookState, ghost commands: seq<Command>,
                   ghost course: seq<Progress>, ghost i: nat)
    returns (outcome: Outcome)
    requires ReadyRun(b, commands) && Course(b, commands, course) && i < |commands| && commands[i] == c
    requires book.Intact() && book.State() == course[i].book
    modifies book`nextSequence, book.bids, book.asks, book.bids.levels, book.asks.levels
    ensures book.Intact() && book.OnlyNewLevels() && book.State() == course[i + 1].book
    ensures course[i + 1].accepted == course[i].accepted + (if Accepted(outcome) then 1 else 0)
    ensures course[i + 1].fills == course[i].fills + FillsOf(outcome)
  {
    assert Reached(b, commands, i, course[i]) && Reached(b, commands, i + 1, course[i + 1]);
    assert ReadyAt(b, commands, i);
    RunStep(b, commands, i);
    outcome := book.Apply(c);
  }

  datatype RecoveryReport = RecoveryReport(
    recordsReplayed: nat, recordsRejected: nat, fillsReplayed: nat,
    logTruncated: bool, validBytes: nat, lastSequence: Sequence)

  /** What recovering into the book `b` reports. */
  ghost function ReportOf(b: BookState, replayed: Replay<LoggedRecord>): RecoveryReport {
    var commands := CommandsOf(replayed.records);
    RecoveryReport(AcceptedIn(b, commands), |commands| - AcceptedIn(b, commands), |FillsIn(b, commands)|,
                   replayed.truncated, replayed.validBytes,
                   if replayed.records == [] then 0 else replayed.records[|replayed.records| - 1].sequence)
  }

  /** Replays the log into the book, then trims the file to what was replayed. */
  method RecoverBookOnly(table: seq<bv32>, ghost c: Codec<LoggedRecord, Byte>, file: seq<Byte>,
                         book: B.Book, ghost b: BookState)
    returns (report: RecoveryReport, trimmed: seq<Byte>)
    requires IsTable(table) && IsWal(c) && book.Intact() && book.State() == b
    requires ReadyRun(b, CommandsOf(Replayed(c, file).records))
    modifies book`nextSequence, book.bids, book.asks, book.bids.levels, book.asks.levels
    ensures book.Intact() && book.State() == ApplyAll(b, CommandsOf(Replayed(c, file).records))
    ensures report == ReportOf(b, Replayed(c, file))
    ensures trimmed == file[..report.validBytes]
  {
    var replayed;
    replayed, trimmed := ReadLog(table, c, file);
    report := ReplayInto(book, b, replayed);
  }

  method ReadLog(table: seq<bv32>, ghost c: Codec<LoggedRecord, Byte>, file: seq<Byte>)
    returns (replayed: Replay<LoggedRecord>, trimmed: seq<Byte>)
    requires IsTable(table) && IsWal(c)
    ensures replayed == Replayed(c, file) && trimmed == file[..replayed.validBytes]
  {
    replayed := ReplayFile(table, c, file);
    trimmed := if replayed.truncated then file[..replayed.validBytes] else file;
    if !replayed.truncated {
      UntruncatedIsWhole(c, file);
    }
  }

  method ReplayInto(book: B.Book, ghost b: BookState, replayed: Replay<LoggedRecord>) returns (report: RecoveryReport)
    requires book.Intact() && book.State() == b && ReadyRun(b, CommandsOf(replayed.records))
    modifies book`nextSequence, book.bids, book.asks, book.bids.levels, book.asks.levels
    ensures book.Intact() && book.State() == ApplyAll(b, CommandsOf(replayed.records))
    ensures report == ReportOf(b, replayed)
  {
    var accepted, rejected, fills := ReplayAll(book, b, CommandsOf(replayed.records));
    report := RecoveryReport(accepted, rejected, fills, replayed.truncated, replayed.validBytes,
                             if replayed.records == [] then 0 else replayed.records[|replayed.records| - 1].sequence);
  }

  lemma {:induction false} UntruncatedIsWhole(c: Codec<LoggedRecord, Byte>, bytes: seq<Byte>)
    requires Advances(c) && !Replayed(c, bytes).truncated
    ensures Replayed(c, bytes).validBytes == |bytes|
    decreases |bytes|
  {
    if bytes != [] {
      UntruncatedIsWhole(c, bytes[c.read(bytes).consumed..]);
    }
  }

  /** What has been counted so far. */
  datatype Tally = Tally(accepted: nat, rejected: nat, fills: nat)

  /** The book stands where the first `i` commands of the run lead, and they are counted. */
  ghost predicate Rebuilt(book: B.Book, course: seq<Progress>, i: nat, t: Tally)
    reads book, book.bids, book.asks, book.bids.levels, book.asks.levels
  {
    && i < |course| && book.Intact() && book.State() == course[i].book
    && t.accepted == course[i].accepted && t.accepted + t.rejected == i && t.fills == |course[i].fills|
  }

  method ReplayAll(book: B.Book, ghost b: BookState, commands: seq<Command>)
    returns (accepted: nat, rejected: nat, fills: nat)
    requires ReadyRun(b, commands) && book.Intact() && book.State() == b
    modifies book`nextSequence, book.bids, book.asks, book.bids.levels, book.asks.levels
    ensures book.Intact() && book.State() == ApplyAll(b, commands)
    ensures accepted == AcceptedIn(b, commands) && accepted + rejected == |commands|
    ensures fills == |FillsIn(b, commands)|
  {
    var t := Tally(0, 0, 0);
    ghost var course := Chart(b, commands);
    for i := 0 to |commands|
      invariant Rebuilt(book, course, i, t) && book.OnlyNewLevels()
    {
      t := ReplayOne(book, commands[i], t, b, commands, course, i);
    }
    accepted, rejected, fills := t.accepted, t.rejected, t.fills;
  }

  method ReplayOne(book: B.Book, c: Command, t: Tally, ghost b: BookState, ghost commands: seq<Command>,
                   ghost course: seq<Progress>, ghost i: nat)
    returns (t': Tally)
    requires ReadyRun(b, commands) && Course(b, commands, course) && i < |commands| && commands[i] == c
    requires Rebuilt(book, course, i, t)
    modifies book`nextSequence, book.bids, book.asks, book.bids.levels, book.asks.levels
    ensures Rebuilt(book, course, i + 1, t') && book.OnlyNewLevels()
  {
    var outcome := ApplyNext(book, c, b, commands, course, i);
    t' := t.(fills := t.fills + |FillsOf(outcome)|);
    if Accepted(outcome) {
      t' := t'.(accepted := t.accepted + 1);
    } else {
      t' := t'.(rejected := t.rejected + 1);
    }
  }
}
