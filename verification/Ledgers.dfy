/**
 A file of records together with what is known of it: which records were written whole, whether a
 failed write left scraps between them, and how much has been forced to the device.
 */
module Ledgers {
  import opened Orders
  import opened RecordFiles

  /**
   `intact` records stand in front of the first scrap; a `clean` file has none. Of the `written`
   records appended since the file was opened, the last `since` have not been forced.
   */
  datatype Ledger<R, B> = Ledger(
    file: seq<B>, records: seq<R>, intact: nat, clean: bool, durable: nat, written: nat, since: nat)
  {
    function WithRecord(bytes: seq<B>, r: R): Ledger<R, B> {
      this.(file := file + bytes, records := records + [r], intact := if clean then intact + 1 else intact,
            written := written + 1, since := since + 1)
    }

    function WithScrap(bytes: seq<B>): Ledger<R, B> {
      this.(file := file + bytes, clean := clean && bytes == [])
    }

    function Forced(): Ledger<R, B> {
      this.(durable := |file|, since := 0)
    }
  }

  /** The records in front of the first scrap. */
  function Front<R, B>(l: Ledger<R, B>): seq<R>
    requires l.intact <= |l.records|
  {
    l.records[..l.intact]
  }

  ghost predicate Sums<R, B>(c: Codec<R, B>, l: Ledger<R, B>) {
    && l.since <= l.written <= |l.records| && l.durable <= |l.file| && l.intact <= |l.records|
    && Log(c, l.records[..l.intact]) <= l.file
  }

  /** A clean file is its records, and all of them but the last `since` appended are on the device. */
  ghost predicate CleanSums<R, B>(c: Codec<R, B>, l: Ledger<R, B>)
    requires l.since <= |l.records|
  {
    && l.intact == |l.records| && l.file == Log(c, l.records)
    && (l.written > l.since ==> |Log(c, l.records[..|l.records| - l.since])| <= l.durable)
  }

  ghost predicate Tracks<R, B>(c: Codec<R, B>, l: Ledger<R, B>) {
    Sums(c, l) && (l.clean ==> CleanSums(c, l))
  }

  lemma RecordTracked<R, B>(c: Codec<R, B>, l: Ledger<R, B>, r: R)
    requires Tracks(c, l)
    ensures Tracks(c, l.WithRecord(c.encode(r), r))
  {
    var grown := l.WithRecord(c.encode(r), r);
    LogGrows(c, l.records, r, l.intact);
    LogGrows(c, l.records, r, |l.records| - l.since);
    if l.clean {
      assert grown.records[..grown.intact] == grown.records;
    }
  }

  lemma FrontGrows<R, B>(c: Codec<R, B>, l: Ledger<R, B>, bytes: seq<B>, r: R)
    requires Tracks(c, l)
    ensures Front(l.WithRecord(bytes, r)) == Front(l) + if l.clean then [r] else []
  {
    if l.clean {
      assert l.records[..l.intact] == l.records && (l.records + [r])[..l.intact + 1] == l.records + [r];
    }
  }

  lemma ScrapTracked<R, B>(c: Codec<R, B>, l: Ledger<R, B>, bytes: seq<B>)
    requires Tracks(c, l)
    ensures Tracks(c, l.WithScrap(bytes))
  {
    if bytes == [] {
      assert l.file + bytes == l.file;
    }
  }

  lemma ForcedTracked<R, B>(c: Codec<R, B>, l: Ledger<R, B>)
    requires Tracks(c, l)
    ensures Tracks(c, l.Forced())
  {
    assert l.records[..|l.records|] == l.records;
  }

  /** A whole record, forced or not. */
  lemma AppendTracked<R, B>(c: Codec<R, B>, l: Ledger<R, B>, r: R, forced: bool)
    requires Tracks(c, l)
    ensures var written := l.WithRecord(c.encode(r), r);
      var after := if forced then written.Forced() else written;
      Tracks(c, after) && Front(after) == Front(l) + if l.clean then [r] else []
  {
    var bytes := c.encode(r);
    RecordTracked(c, l, r);
    FrontGrows(c, l, bytes, r);
    ForcedTracked(c, l.WithRecord(bytes, r));
  }

  /** A file as it is opened: records, and possibly other bytes behind them. */
  ghost function Opened<R, B>(c: Codec<R, B>, records: seq<R>, contents: seq<B>, durable: nat): Ledger<R, B> {
    Ledger(contents, records, |records|, contents == Log(c, records), durable, 0, 0)
  }

  /** `records` are what the file starts with, and nothing behind them would be taken for a record. */
  ghost predicate Opens<R, B>(c: Codec<R, B>, records: seq<R>, contents: seq<B>) {
    Log(c, records) <= contents && Unreadable(c, contents[|Log(c, records)|..])
  }

  lemma OpenedTracked<R, B>(c: Codec<R, B>, records: seq<R>, contents: seq<B>, durable: nat)
    requires Opens(c, records, contents) && durable <= |contents|
    ensures Tracks(c, Opened(c, records, contents, durable))
  {
    assert records[..|records|] == records;
  }

  lemma OpenedReplays<R(!new), B(!new)>(c: Codec<R, B>, records: seq<R>, contents: seq<B>)
    requires Sound(c) && Opens(c, records, contents)
    ensures Replayed(c, contents).records == Canonical(c, records)
  {
    var rest := contents[|Log(c, records)|..];
    assert contents == Log(c, records) + rest;
    HidesIff(c, records, rest);
  }

  lemma CutSplits<R, B>(c: Codec<R, B>, records: seq<R>, k: nat)
    requires k <= |Log(c, records)|
    ensures var front, contents := records[..WholeIn(c, records, k)], Log(c, records)[..k];
      |Log(c, front)| <= k && contents == Log(c, front) + contents[|Log(c, front)|..]
  {
    var m := WholeIn(c, records, k);
    WholeInIsLongest(c, records, k);
    KeptFront(c, records, m, k);
  }

  /** A file of records cut anywhere opens with those that are whole. */
  lemma CutOpens<R(!new), B(!new)>(c: Codec<R, B>, records: seq<R>, k: nat)
    requires Sound(c) && k <= |Log(c, records)|
    ensures Opens(c, records[..WholeIn(c, records, k)], Log(c, records)[..k])
  {
    var front, contents := records[..WholeIn(c, records, k)], Log(c, records)[..k];
    CutSplits(c, records, k);
    TornTail(c, records, k);
    HidesIff(c, front, contents[|Log(c, front)|..]);
  }

  lemma TornFile<R(!new), B(!new)>(c: Codec<R, B>, records: seq<R>, contents: seq<B>)
    requires Sound(c) && contents <= Log(c, records)
    ensures Replayed(c, contents).records == Canonical(c, records[..WholeIn(c, records, |contents|)])
  {
    assert contents == Log(c, records)[..|contents|];
    TornTail(c, records, |contents|);
  }

  /** Replay reads past the records in front and then makes of the rest what it would make of it alone. */
  lemma {:induction false} ReplayBehind<R(!new), B(!new)>(c: Codec<R, B>, records: seq<R>, rest: seq<B>)
    requires Sound(c)
    ensures Replayed(c, Log(c, records) + rest)
            == Replayed(c, rest).Behind(Canonical(c, records), |Log(c, records)|)
    decreases |records|
  {
    if records == [] {
      assert Log(c, records) + rest == rest;
      BehindNothing(Replayed(c, rest));
    } else {
      var first, tail := c.encode(records[0]), Log(c, records[1..]);
      assert first + tail + rest == first + (tail + rest);
      ReplayPast(c, records[0], tail + rest);
      ReplayBehind(c, records[1..], rest);
      BehindFirst(Replayed(c, rest), c.canon(records[0]), Canonical(c, records[1..]), |first|, |tail|);
    }
  }

  lemma BehindFirst<R>(r: Replay<R>, first: R, front: seq<R>, bytes: nat, more: nat)
    ensures r.Behind(front, more).Behind([first], bytes) == r.Behind([first] + front, bytes + more)
  {
    assert [first] + (front + r.records) == [first] + front + r.records;
  }

  /** Whatever stands behind them, records at the front of a file are replayed. */
  lemma FrontReplays<R(!new), B(!new)>(c: Codec<R, B>, records: seq<R>, file: seq<B>)
    requires Sound(c) && Log(c, records) <= file
    ensures Canonical(c, records) <= Replayed(c, file).records
  {
    var rest := file[|Log(c, records)|..];
    assert file == Log(c, records) + rest;
    ReplayBehind(c, records, rest);
  }

  /** What stands behind the records in front hides from replay exactly when it does not start like a record. */
  lemma HidesIff<R(!new), B(!new)>(c: Codec<R, B>, records: seq<R>, rest: seq<B>)
    requires Sound(c)
    ensures Replayed(c, Log(c, records) + rest).records == Canonical(c, records) <==> Unreadable(c, rest)
  {
    ReplayBehind(c, records, rest);
    assert |Canonical(c, records) + Replayed(c, rest).records| == |Canonical(c, records)| + |Replayed(c, rest).records|;
    assert Replayed(c, rest).records == [] ==> Canonical(c, records) + Replayed(c, rest).records == Canonical(c, records);
  }

  /** Nothing behind what cannot be read is replayed. */
  lemma ScrapEnds<R(!new), B(!new)>(c: Codec<R, B>, records: seq<R>, rest: seq<B>)
    requires Sound(c) && rest != [] && c.read(rest).Torn?
    ensures Replayed(c, Log(c, records) + rest) == Replay(Canonical(c, records), |Log(c, records)|, true)
  {
    ReplayBehind(c, records, rest);
  }

  /** What stands behind the records in front of the first scrap. */
  function Behind<R, B>(c: Codec<R, B>, l: Ledger<R, B>): seq<B>
    requires l.intact <= |l.records| && Log(c, Front(l)) <= l.file
  {
    l.file[|Log(c, Front(l))|..]
  }

  /** Behind a scrap everything adds to what stands there; a clean file has nothing there. */
  lemma BehindGrows<R, B>(c: Codec<R, B>, l: Ledger<R, B>, bytes: seq<B>, r: R)
    requires Tracks(c, l)
    ensures l.clean ==> Behind(c, l) == []
    ensures Behind(c, l.WithScrap(bytes)) == Behind(c, l) + bytes
    ensures !l.clean ==>
              && Front(l.WithRecord(bytes, r)) == Front(l)
              && Behind(c, l.WithRecord(bytes, r)) == Behind(c, l) + bytes
  {
    assert l.records[..|l.records|] == l.records;
    assert !l.clean ==> Front(l.WithRecord(bytes, r)) == Front(l);
  }

  /** There is nothing, or nothing that would be taken for a record. */
  predicate Unreadable<R, B(==)>(c: Codec<R, B>, bytes: seq<B>) {
    bytes == [] || c.read(bytes).Torn?
  }

  /** If what stands behind the first scrap is unreadable, replay gives just what stands in front of it. */
  lemma LedgerReplays<R(!new), B(!new)>(c: Codec<R, B>, l: Ledger<R, B>)
    requires Sound(c) && Tracks(c, l) && Unreadable(c, Behind(c, l))
    ensures Replayed(c, l.file).records == Canonical(c, Front(l))
  {
    var front, rest := Front(l), Behind(c, l);
    assert l.file == Log(c, front) + rest;
    if rest == [] {
      TornFile(c, front, l.file);
      WholeInAll(c, front);
      assert front[..|front|] == front;
    } else {
      ScrapEnds(c, front, rest);
    }
  }

  /**
   A power loss keeps what was forced and any part of the rest. Of the records appended to a clean
   file it loses at most the last `since`.
   */
  lemma LossIsBounded<R(!new), B(!new)>(c: Codec<R, B>, l: Ledger<R, B>, k: nat)
    requires Sound(c) && Tracks(c, l) && l.clean && l.durable <= k <= |l.file|
    ensures var m := WholeIn(c, l.records, k);
            && Replayed(c, l.file[..k]).records == Canonical(c, l.records[..m])
            && Min(l.written, |l.records| - m) <= l.since
            && (k == |l.file| ==> m == |l.records|)
  {
    TornTail(c, l.records, k);
    WholeInAll(c, l.records);
    ForcedSurvive(c, l, k);
  }

  lemma ForcedSurvive<R, B>(c: Codec<R, B>, l: Ledger<R, B>, k: nat)
    requires Tracks(c, l) && l.clean && l.durable <= k <= |l.file|
    ensures Min(l.written, |l.records| - WholeIn(c, l.records, k)) <= l.since
  {
    if l.written > l.since {
      WholeInGrows(c, l.records, |l.records| - l.since, k);
    }
  }
}
