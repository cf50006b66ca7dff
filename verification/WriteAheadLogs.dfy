/**
 The write-ahead log: a file of records, appended under a sync policy and read back by a replay that
 stops at the first record it cannot trust.
 */
module WriteAheadLogs {
  import opened Bytes
  import opened Crc32
  import opened Orders
  import opened BookModel
  import opened Wire
  import opened WalRecords
  import opened RecordFiles
  import opened Ledgers

  type LoggedRecord = r: WalRecord | Storable(r.command) && r.sequence < TWO_TO_THE_64
    witness WalRecord(1, CancelCommand(0))

  function EncodeOne(r: LoggedRecord): seq<Byte> {
    Encoded(r)
  }

  /** Incomplete and corrupt records end a replay alike. */
  function ReadOne(bytes: seq<Byte>): Read<LoggedRecord> {
    DecodedStorable(bytes);
    match Decoded(bytes)
    case Ok(record, consumed) => Whole(record, consumed)
    case _ => Torn
  }

  function AsRead(r: LoggedRecord): LoggedRecord {
    WalRecord(r.sequence, CommandAsStored(r.command))
  }

  const WAL: Codec<LoggedRecord, Byte> := Codec(EncodeOne, ReadOne, AsRead)

  lemma WalAdvances()
    ensures Advances(WAL)
  {
  }

  /** The laws replay rests on hold of the log's records. */
  lemma WalSound()
    ensures Sound(WAL)
  {
    WalAdvances();
    forall r: LoggedRecord, more: seq<Byte>
      ensures ReadOne(EncodeOne(r) + more) == Whole(AsRead(r), |EncodeOne(r)|)
    {
      RecordReadBack(r, more);
    }
    forall r: LoggedRecord, k | 0 <= k < |EncodeOne(r)| ensures ReadOne(EncodeOne(r)[..k]).Torn? {
      CutRecord(r, k);
    }
  }

  ghost predicate Encodes(c: Codec<LoggedRecord, Byte>, r: LoggedRecord) {
    c.encode(r) == Encoded(r) && c.canon(r) == AsRead(r)
  }

  ghost predicate Reads(c: Codec<LoggedRecord, Byte>, bytes: seq<Byte>) {
    c.read(bytes) == ReadOne(bytes)
  }

  /** `c` is the log's codec; taken as a parameter where a proof need not look inside a record. */
  ghost predicate IsWal(c: Codec<LoggedRecord, Byte>) {
    Sound(c) && (forall r :: Encodes(c, r)) && (forall bytes :: Reads(c, bytes))
  }

  lemma WalIsWal()
    ensures IsWal(WAL)
  {
    WalSound();
    forall r: LoggedRecord ensures Encodes(WAL, r) {
    }
    forall bytes: seq<Byte> ensures Reads(WAL, bytes) {
    }
  }

  // ----- Reading -----

  /** The replay loop: an offset that moves past each sound record and stops at the first other. */
  method ReplayFile(table: seq<bv32>, ghost c: Codec<LoggedRecord, Byte>, contents: seq<Byte>)
    returns (result: Replay<LoggedRecord>)
    requires IsTable(table) && IsWal(c)
    ensures result == Replayed(c, contents)
  {
    var records: seq<LoggedRecord> := [];
    var offset: nat := 0;
    var truncated := false;
    BehindNothing(Replayed(c, contents));
    assert contents[0..] == contents;
    while offset < |contents| && !truncated
      invariant offset <= |contents|
      invariant Replayed(c, contents) == Replayed(c, contents[offset..]).Behind(records, offset)
      invariant truncated ==> Replayed(c, contents[offset..]) == Replay([], 0, true)
      decreases |contents| - offset, !truncated
    {
      var rest := contents[offset..];
      var read := ReadNext(table, c, rest);
      if read.Whole? {
        assert rest[read.consumed..] == contents[offset + read.consumed..];
        BehindTwice(Replayed(c, rest[read.consumed..]), records, read.record, offset, read.consumed);
        offset := offset + read.consumed;
        records := records + [read.record];
      } else {
        truncated := true;
      }
    }
    result := Replay(records, offset, truncated);
  }

  method ReadNext(table: seq<bv32>, ghost c: Codec<LoggedRecord, Byte>, bytes: seq<Byte>)
    returns (read: Read<LoggedRecord>)
    requires IsTable(table) && IsWal(c)
    ensures read == c.read(bytes)
  {
    var decoded := DecodeRecord(table, bytes);
    DecodedStorable(bytes);
    assert Reads(c, bytes);
    read := if decoded.Ok? then Whole(decoded.record, decoded.consumed) else Torn;
  }

  /**
   A log cut at any byte replays to the records wholly inside the cut, is called truncated exactly
   when the cut is not where one of them ends, and after trimming takes appends without a hole.
   */
  lemma CutLog(records: seq<LoggedRecord>, k: nat, more: seq<LoggedRecord>)
    ensures Sound(WAL)
    ensures k <= |Log(WAL, records)| ==>
      var torn, m := Log(WAL, records)[..k], WholeIn(WAL, records, k);
      var end := |Log(WAL, records[..m])|;
      && end <= k && (m < |records| ==> k < |Log(WAL, records[..m + 1])|)
      && Replayed(WAL, torn) == Replay(Canonical(WAL, records[..m]), end, k != end)
      && Replayed(WAL, torn[..end] + Log(WAL, more)).records == Canonical(WAL, records[..m] + more)
  {
    WalSound();
    if k <= |Log(WAL, records)| {
      WholeInIsLongest(WAL, records, k);
      TornTail(WAL, records, k);
      TrimThenAppend(WAL, records, k, more);
    }
  }

  // ----- Writing -----

  function CommandsOf(records: seq<LoggedRecord>): (commands: seq<Command>)
    ensures |commands| == |records|
    ensures forall i :: 0 <= i < |records| ==> commands[i] == records[i].command
  {
    seq(|records|, i requires 0 <= i < |records| => records[i].command)
  }

  datatype SyncPolicy = Always | Batch | Never

  /** What the operating system makes of an append: it may fail partway, or fail to force. */
  datatype Io = Succeeds | WriteFails(written: nat) | SyncFails

  /** One append as it meets the world, with what the clock says before and after forcing. */
  datatype Attempt = Attempt(io: Io, now: int, later: int)

  datatype AppendResult = Appended | WriteFailed | SyncFailed

  function LargestLoss(batchRecords: nat): nat {
    if batchRecords == 0 then 0 else batchRecords - 1
  }

  /** The first `n` bytes of a record, but never all of them. */
  function CutShort(bytes: seq<Byte>, n: nat): seq<Byte> {
    if n < |bytes| then bytes[..n] else if bytes == [] then [] else bytes[..|bytes| - 1]
  }

  /** The part of the log that decides when to force. */
  datatype Forcing = Forcing(
    policy: SyncPolicy, batchRecords: nat, batchInterval: int, sinceSync: nat, lastSync: int)
  {
    predicate Due(now: int) {
      match policy
      case Always => true
      case Never => false
      case Batch => sinceSync >= batchRecords || now - lastSync >= batchInterval
    }

    function Counted(): Forcing {
      this.(sinceSync := sinceSync + 1)
    }

    function Reset(now: int): Forcing {
      this.(sinceSync := 0, lastSync := now)
    }

    function Result(a: Attempt): AppendResult {
      if a.io.WriteFails? then WriteFailed
      else if a.io.SyncFails? && Counted().Due(a.now) then SyncFailed
      else Appended
    }

    /** The append ends with everything written so far on the device. */
    predicate Forces(a: Attempt) {
      a.io.Succeeds? && Counted().Due(a.now)
    }

    function After(a: Attempt): Forcing {
      if a.io.WriteFails? then this
      else if Forces(a) then Reset(a.later)
      else Counted()
    }

    /** What the policy promises of the records not yet forced. */
    predicate Bounded() {
      && (policy == Always ==> sinceSync == 0)
      && (policy == Batch ==> sinceSync <= LargestLoss(batchRecords))
    }
  }

  function SequenceAfter(records: seq<LoggedRecord>): Sequence {
    if records == [] then 1 else records[|records| - 1].sequence + 1
  }

  method EncodeNext(table: seq<bv32>, ghost codec: Codec<LoggedRecord, Byte>, sequence: Sequence, c: Command)
    returns (bytes: seq<Byte>)
    requires IsTable(table) && IsWal(codec) && Storable(c) && sequence < TWO_TO_THE_64
    ensures bytes == codec.encode(WalRecord(sequence, c)) && |bytes| > 1
  {
    bytes := EncodeRecord(table, sequence, c);
    assert Encodes(codec, WalRecord(sequence, c));
  }

  lemma SequenceAsRead(c: Codec<LoggedRecord, Byte>, records: seq<LoggedRecord>)
    requires forall r :: Encodes(c, r)
    ensures SequenceAfter(Canonical(c, records)) == SequenceAfter(records)
  {
    if records != [] {
      assert Encodes(c, records[|records| - 1]);
    }
  }

  /** The number the next record gets, found by replaying the file, whatever stands behind its records. */
  method FirstSequence(table: seq<bv32>, ghost c: Codec<LoggedRecord, Byte>, contents: seq<Byte>,
                       ghost records: seq<LoggedRecord>)
    returns (next: Sequence)
    requires IsTable(table) && IsWal(c) && Opens(c, records, contents)
    ensures next == SequenceAfter(records)
  {
    var existing := ReplayFile(table, c, contents);
    next := SequenceAfter(existing.records);
    OpenedReplays(c, records, contents);
    SequenceAsRead(c, records);
  }

  lemma SequenceGrows(records: seq<LoggedRecord>, r: LoggedRecord)
    ensures SequenceAfter(records + [r]) == r.sequence + 1
    ensures CommandsOf(records + [r]) == CommandsOf(records) + [r.command]
  {
  }

  /** What a log is given for good, and what every operation keeps, one aspect at a time. */
  datatype Given = Table | Encoding
  datatype Kept = Bookkeeping | Fields | Numbering

  class WriteAheadLog {
    const table: seq<bv32>
    const policy: SyncPolicy
    const batchRecords: nat
    const batchInterval: int

    var file: seq<Byte>
    var nextSequence: Sequence
    var recordsWritten: nat
    var syncCount: nat
    var sinceSync: nat
    var lastSync: int

    /** What the file holds, and the commands in it. */
    ghost const codec: Codec<LoggedRecord, Byte>
    ghost var books: Ledger<LoggedRecord, Byte>
    ghost var commands: seq<Command>

    ghost predicate Has(g: Given) {
      match g
      case Table => IsTable(table)
      case Encoding => IsWal(codec)
    }

    ghost predicate Keeps(k: Kept)
      reads this
    {
      match k
      case Bookkeeping => Tracks(codec, books)
      case Fields => books.file == file && books.written == recordsWritten && books.since == sinceSync
      case Numbering => nextSequence == SequenceAfter(books.records) && commands == CommandsOf(books.records)
    }

    ghost predicate Valid()
      reads this
    {
      (forall g :: Has(g)) && (forall k :: Keeps(k))
    }

    function Policy(): Forcing
      reads this
    {
      Forcing(policy, batchRecords, batchInterval, sinceSync, lastSync)
    }

    /** Opens a file, with whatever other bytes stand behind its records, and carries their numbering on. */
    constructor (table: seq<bv32>, policy: SyncPolicy, batchRecords: nat, batchInterval: int, now: int,
                 contents: seq<Byte>, ghost codec: Codec<LoggedRecord, Byte>, ghost written: seq<LoggedRecord>,
                 ghost durable: nat)
      requires IsTable(table) && IsWal(codec) && Opens(codec, written, contents) && durable <= |contents|
      ensures Valid() && books == Opened(codec, written, contents, durable)
      ensures this.codec == codec && file == contents
      ensures Policy() == Forcing(policy, batchRecords, batchInterval, 0, now)
    {
      var next := FirstSequence(table, codec, contents, written);
      OpenedTracked(codec, written, contents, durable);
      ghost var start := Opened(codec, written, contents, durable);
      this.table := table;
      this.codec := codec;
      this.policy := policy;
      this.batchRecords := batchRecords;
      this.batchInterval := batchInterval;
      this.file := contents;
      this.nextSequence := next;
      this.recordsWritten := 0;
      this.syncCount := 0;
      this.sinceSync := 0;
      this.lastSync := now;
      this.books := start;
      this.commands := CommandsOf(start.records);
      new;
      assert Has(Table) && Has(Encoding) && Keeps(Bookkeeping) && Keeps(Fields) && Keeps(Numbering);
    }

    /** Forces the file; when that fails, it throws and changes nothing. */
    method SyncNow(ok: bool, now: int)
      requires Valid()
      modifies this`syncCount, this`sinceSync, this`lastSync, this`books
      ensures Valid()
      ensures ok ==>
                books == old(books).Forced() && Policy() == old(Policy()).Reset(now) && syncCount == old(syncCount) + 1
      ensures !ok ==> books == old(books) && Policy() == old(Policy()) && syncCount == old(syncCount)
      ensures books.durable >= old(books).durable
    {
      assert Keeps(Bookkeeping) && Keeps(Fields) && Keeps(Numbering);
      if ok {
        ForcedTracked(codec, books);
        syncCount := syncCount + 1;
        sinceSync := 0;
        lastSync := now;
        books := books.Forced();
        assert Keeps(Bookkeeping) && Keeps(Fields) && Keeps(Numbering);
      }
    }

    /** SyncNow at any time, due or not. */
    method Flush(ok: bool, now: int)
      requires Valid()
      modifies this`syncCount, this`sinceSync, this`lastSync, this`books
      ensures Valid() && Policy() == if ok then old(Policy()).Reset(now) else old(Policy())
      ensures books == if ok then old(books).Forced() else old(books)
      ensures ok ==> books.durable == |file|
    {
      SyncNow(ok, now);
      assert Keeps(Fields);
    }

    /**
     Writes one record behind the rest and forces it if the policy says so. A write that fails leaves a
     part of the record, and the number unused; a failure to force leaves the whole record in the file.
     */
    method Append(c: Command, a: Attempt) returns (result: AppendResult, sequence: Sequence)
      requires Valid() && Storable(c) && nextSequence < TWO_TO_THE_64
      modifies this
      ensures Valid() && sequence == old(nextSequence)
      ensures result == old(Policy()).Result(a) && Policy() == old(Policy()).After(a)
      ensures |codec.encode(WalRecord(sequence, c))| > 1
      ensures nextSequence == sequence + (if result == WriteFailed then 0 else 1)
      ensures commands == old(commands) + (if result == WriteFailed then [] else [c])
      ensures books.clean == (old(books).clean && (a.io.WriteFails? ==> a.io.written == 0))
      ensures result == WriteFailed ==>
                books == old(books).WithScrap(CutShort(codec.encode(WalRecord(sequence, c)), a.io.written))
      ensures result != WriteFailed ==>
                var written := old(books).WithRecord(codec.encode(WalRecord(sequence, c)), WalRecord(sequence, c));
                books == if old(Policy()).Forces(a) then written.Forced() else written
      ensures result == Appended ==> Policy().Bounded() && (policy == Always ==> books.durable == |books.file|)
    {
      sequence := nextSequence;
      var bytes := Encode(c);
      if a.io.WriteFails? {
        WritePart(CutShort(bytes, a.io.written));
        return WriteFailed, sequence;
      }
      Write(WalRecord(sequence, c), bytes);
      if Policy().Due(a.now) {
        SyncNow(!a.io.SyncFails?, a.later);
        if a.io.SyncFails? {
          return SyncFailed, sequence;
        }
      }
      result := Appended;
    }

    method Encode(c: Command) returns (bytes: seq<Byte>)
      requires Valid() && Storable(c) && nextSequence < TWO_TO_THE_64
      ensures bytes == codec.encode(WalRecord(nextSequence, c)) && |bytes| > 1
    {
      assert Has(Table) && Has(Encoding);
      bytes := EncodeNext(table, codec, nextSequence, c);
    }

    method Write(r: LoggedRecord, bytes: seq<Byte>)
      requires Valid() && r.sequence == nextSequence && bytes == codec.encode(r)
      modifies this`file, this`nextSequence, this`recordsWritten, this`sinceSync, this`books, this`commands
      ensures Valid() && books == old(books).WithRecord(bytes, r)
      ensures nextSequence == old(nextSequence) + 1 && commands == old(commands) + [r.command]
      ensures Policy() == old(Policy()).Counted()
    {
      assert Keeps(Bookkeeping) && Keeps(Fields) && Keeps(Numbering);
      RecordTracked(codec, books, r);
      SequenceGrows(books.records, r);
      file := file + bytes;
      nextSequence := nextSequence + 1;
      recordsWritten := recordsWritten + 1;
      sinceSync := sinceSync + 1;
      books := books.WithRecord(bytes, r);
      commands := commands + [r.command];
      assert Keeps(Bookkeeping) && Keeps(Fields) && Keeps(Numbering);
    }

    method WritePart(bytes: seq<Byte>)
      requires Valid()
      modifies this`file, this`books
      ensures Valid() && books == old(books).WithScrap(bytes)
    {
      assert Keeps(Bookkeeping) && Keeps(Fields) && Keeps(Numbering);
      ScrapTracked(codec, books, bytes);
      file := file + bytes;
      books := books.WithScrap(bytes);
      assert Keeps(Bookkeeping) && Keeps(Fields) && Keeps(Numbering);
    }
  }

  /**
   A power loss keeps what was forced and any part of the rest. Of the records a log appended to a
   clean file it loses at most the last `sinceSync`, which the policy bounds after every success.
   */
  lemma BoundedLoss(log: WriteAheadLog, k: nat)
    requires log.Valid() && log.books.clean && log.books.durable <= k <= |log.file|
    ensures log.Has(Encoding)
    ensures var records := log.books.records;
            var m := WholeIn(log.codec, records, k);
            var lost := Min(log.recordsWritten, |records| - m);
            && Replayed(log.codec, log.file[..k]).records == Canonical(log.codec, records[..m])
            && lost <= log.sinceSync && (k == |log.file| ==> m == |records|)
            && (log.Policy().Bounded() && log.policy == Batch ==> lost <= LargestLoss(log.batchRecords))
            && (log.Policy().Bounded() && log.policy == Always ==> lost == 0)
  {
    assert log.Has(Encoding) && log.Keeps(Bookkeeping) && log.Keeps(Fields);
    LossIsBounded(log.codec, log.books, k);
  }

  /** Whatever failed, all that was written before the first scrap is replayed. */
  lemma FrontSurvives(log: WriteAheadLog)
    requires log.Valid()
    ensures log.Has(Encoding) && log.books.intact <= |log.books.records|
    ensures Canonical(log.codec, log.books.records[..log.books.intact]) <= Replayed(log.codec, log.file).records
  {
    assert log.Has(Encoding) && log.Keeps(Bookkeeping) && log.Keeps(Fields);
    FrontReplays(log.codec, log.books.records[..log.books.intact], log.file);
  }

  lemma ScrapTorn(scrap: seq<Byte>, next: LoggedRecord, more: seq<Byte>)
    requires 1 <= |scrap| <= 3
    ensures ReadOne(scrap + (Encoded(next) + more)).Torn?
  {
    ScrapIsCorrupt(scrap, Payload(next), more);
  }

  lemma ScrapUnread(c: Codec<LoggedRecord, Byte>, scrap: seq<Byte>, later: seq<LoggedRecord>)
    requires IsWal(c) && 1 <= |scrap| <= 3 && later != []
    ensures c.read(scrap + Log(c, later)).Torn?
  {
    assert Encodes(c, later[0]) && Reads(c, scrap + Log(c, later));
    ScrapTorn(scrap, later[0], Log(c, later[1..]));
  }

  /**
   And that can be all: once a write failed after one to three bytes, no record appended from then on
   is ever replayed, however many appends succeed and are forced.
   */
  lemma ScrapHidesTheRest(c: Codec<LoggedRecord, Byte>, records: seq<LoggedRecord>, scrap: seq<Byte>,
                          later: seq<LoggedRecord>)
    requires IsWal(c) && 1 <= |scrap| <= 3 && later != []
    ensures Replayed(c, Log(c, records) + (scrap + Log(c, later)))
            == Replay(Canonical(c, records), |Log(c, records)|, true)
  {
    ScrapUnread(c, scrap, later);
    ScrapEnds(c, records, scrap + Log(c, later));
  }
}
