/**
 Files of self-delimiting records, for any way of encoding one record that meets a few laws: what a
 replay from the front returns, and what is left of a file that was cut at any byte.
 */
module RecordFiles {

  /** One record read from the front, or none that can be trusted. */
  datatype Read<+R> = Whole(record: R, consumed: nat) | Torn

  /** `canon` is what a record is read back as. */
  datatype Codec<!R, !B> = Codec(encode: R -> seq<B>, read: seq<B> -> Read<R>, canon: R -> R)

  ghost predicate Advances<R(!new), B(!new)>(c: Codec<R, B>) {
    && (forall bytes :: c.read(bytes).Whole? ==> 0 < c.read(bytes).consumed <= |bytes|)
    && (forall r :: |c.encode(r)| > 0)
  }

  ghost predicate ReadsBack<R(!new), B(!new)>(c: Codec<R, B>) {
    forall r, more {:trigger c.read(c.encode(r) + more)} ::
      c.read(c.encode(r) + more) == Whole(c.canon(r), |c.encode(r)|)
  }

  /** A record cut short is never taken for one. */
  ghost predicate SeesCuts<R(!new), B(!new)>(c: Codec<R, B>) {
    forall r, k {:trigger c.read(c.encode(r)[..k])} ::
      0 <= k < |c.encode(r)| ==> c.read(c.encode(r)[..k]).Torn?
  }

  ghost predicate Sound<R(!new), B(!new)>(c: Codec<R, B>) {
    Advances(c) && ReadsBack(c) && SeesCuts(c)
  }

  /** The bytes of a sequence of records. */
  function Log<R, B>(c: Codec<R, B>, records: seq<R>): seq<B> {
    if records == [] then [] else c.encode(records[0]) + Log(c, records[1..])
  }

  lemma {:induction false} LogAppend<R, B>(c: Codec<R, B>, a: seq<R>, b: seq<R>)
    ensures Log(c, a + b) == Log(c, a) + Log(c, b)
  {
    if a == [] {
      assert a + b == b;
    } else {
      assert (a + b)[1..] == a[1..] + b;
      LogAppend(c, a[1..], b);
      assert c.encode(a[0]) + (Log(c, a[1..]) + Log(c, b)) == c.encode(a[0]) + Log(c, a[1..]) + Log(c, b);
    }
  }

  lemma LogSnoc<R, B>(c: Codec<R, B>, records: seq<R>, r: R)
    ensures Log(c, records + [r]) == Log(c, records) + c.encode(r)
  {
    LogAppend(c, records, [r]);
    assert Log(c, [r][1..]) == [];
  }

  /** Appending leaves the front of the file where it was. */
  lemma LogGrows<R, B>(c: Codec<R, B>, records: seq<R>, r: R, kept: nat)
    requires kept <= |records|
    ensures var grown := records + [r];
            && Log(c, grown) == Log(c, records) + c.encode(r)
            && Log(c, grown[..kept]) == Log(c, records[..kept])
  {
    LogSnoc(c, records, r);
    assert (records + [r])[..kept] == records[..kept];
  }

  function Canonical<R, B>(c: Codec<R, B>, records: seq<R>): (stored: seq<R>)
    ensures |stored| == |records|
    ensures forall i :: 0 <= i < |records| ==> stored[i] == c.canon(records[i])
  {
    if records == [] then [] else [c.canon(records[0])] + Canonical(c, records[1..])
  }

  // ----- Replay -----

  datatype Replay<+R> = Replay(records: seq<R>, validBytes: nat, truncated: bool) {
    /** The replay of a file whose front has already been read. */
    function Behind(front: seq<R>, bytes: nat): Replay<R> {
      Replay(front + records, bytes + validBytes, truncated)
    }
  }

  /** Everything readable from the front; whatever is not a whole, sound record ends the file. */
  ghost function Replayed<R(!new), B(!new)>(c: Codec<R, B>, bytes: seq<B>): (r: Replay<R>)
    requires Advances(c)
    ensures r.validBytes <= |bytes|
    decreases |bytes|
  {
    if bytes == [] then Replay([], 0, false)
    else
      var read := c.read(bytes);
      if read.Whole? then Replayed(c, bytes[read.consumed..]).Behind([read.record], read.consumed)
      else Replay([], 0, true)
  }

  lemma BehindTwice<R>(r: Replay<R>, front: seq<R>, next: R, bytes: nat, more: nat)
    ensures r.Behind([next], more).Behind(front, bytes) == r.Behind(front + [next], bytes + more)
  {
    assert front + ([next] + r.records) == front + [next] + r.records;
  }

  lemma BehindNothing<R>(r: Replay<R>)
    ensures r.Behind([], 0) == r
  {
    assert [] + r.records == r.records;
  }

  // ----- Torn tails -----

  /** How many records lie wholly within the first `k` bytes. */
  function WholeIn<R, B>(c: Codec<R, B>, records: seq<R>, k: nat): (m: nat)
    ensures m <= |records|
    decreases |records|
  {
    if records == [] || |c.encode(records[0])| > k then 0
    else 1 + WholeIn(c, records[1..], k - |c.encode(records[0])|)
  }

  /** They are the longest run of records that ends within the cut. */
  lemma {:induction false} WholeInIsLongest<R, B>(c: Codec<R, B>, records: seq<R>, k: nat)
    ensures var m := WholeIn(c, records, k);
            |Log(c, records[..m])| <= k && (m < |records| ==> k < |Log(c, records[..m + 1])|)
    decreases |records|
  {
    if records != [] {
      var first, more, m := records[0], records[1..], WholeIn(c, records, k);
      if m > 0 {
        WholeInIsLongest(c, more, k - |c.encode(first)|);
        assert records[..m][1..] == more[..m - 1];
        if m < |records| {
          assert records[..m + 1][1..] == more[..m];
        }
      } else {
        assert records[..1][1..] == [];
      }
    }
  }

  lemma {:induction false} WholeInGrows<R, B>(c: Codec<R, B>, records: seq<R>, kept: nat, k: nat)
    requires kept <= |records| && |Log(c, records[..kept])| <= k
    ensures kept <= WholeIn(c, records, k)
    decreases |records|
  {
    if kept > 0 {
      assert records[..kept][1..] == records[1..][..kept - 1];
      WholeInGrows(c, records[1..], kept - 1, k - |c.encode(records[0])|);
    }
  }

  lemma CutFirst<R, B>(c: Codec<R, B>, records: seq<R>, k: nat)
    requires records != [] && k <= |Log(c, records)|
    ensures var first := c.encode(records[0]);
            Log(c, records)[..k] == if k < |first| then first[..k] else first + Log(c, records[1..])[..k - |first|]
  {
  }

  lemma ReplayPast<R(!new), B(!new)>(c: Codec<R, B>, r: R, tail: seq<B>)
    requires Sound(c)
    ensures Replayed(c, c.encode(r) + tail) == Replayed(c, tail).Behind([c.canon(r)], |c.encode(r)|)
  {
    var first := c.encode(r);
    assert (first + tail)[|first|..] == tail && first + tail != [];
  }

  lemma ReplayCut<R(!new), B(!new)>(c: Codec<R, B>, r: R, k: nat)
    requires Sound(c) && k < |c.encode(r)|
    ensures Replayed(c, c.encode(r)[..k]) == Replay([], 0, k != 0)
  {
  }

  /** However the file was cut, replay returns exactly the whole records, and where they end. */
  lemma {:induction false} TornTail<R(!new), B(!new)>(c: Codec<R, B>, records: seq<R>, k: nat)
    requires Sound(c) && k <= |Log(c, records)|
    ensures Replayed(c, Log(c, records)[..k]) == WholeReplay(c, records, k)
    decreases |records|
  {
    if records == [] {
    } else if k < |c.encode(records[0])| {
      TornFirst(c, records, k);
    } else {
      TornTail(c, records[1..], k - |c.encode(records[0])|);
      TornPast(c, records, k);
    }
  }

  lemma TornFirst<R(!new), B(!new)>(c: Codec<R, B>, records: seq<R>, k: nat)
    requires Sound(c) && records != [] && k < |c.encode(records[0])|
    ensures Replayed(c, Log(c, records)[..k]) == WholeReplay(c, records, k)
  {
    CutFirst(c, records, k);
    ReplayCut(c, records[0], k);
  }

  lemma TornPast<R(!new), B(!new)>(c: Codec<R, B>, records: seq<R>, k: nat)
    requires Sound(c) && records != [] && |c.encode(records[0])| <= k <= |Log(c, records)|
    requires var rest := k - |c.encode(records[0])|;
             Replayed(c, Log(c, records[1..])[..rest]) == WholeReplay(c, records[1..], rest)
    ensures Replayed(c, Log(c, records)[..k]) == WholeReplay(c, records, k)
  {
    var first := c.encode(records[0]);
    CutFirst(c, records, k);
    ReplayPast(c, records[0], Log(c, records[1..])[..k - |first|]);
    WholeReplayPast(c, records, k);
  }

  /** What replay should return of the first `k` bytes. */
  function WholeReplay<R, B>(c: Codec<R, B>, records: seq<R>, k: nat): Replay<R> {
    var m := WholeIn(c, records, k);
    Replay(Canonical(c, records[..m]), |Log(c, records[..m])|, k != |Log(c, records[..m])|)
  }

  lemma WholeReplayPast<R, B>(c: Codec<R, B>, records: seq<R>, k: nat)
    requires records != [] && k >= |c.encode(records[0])|
    ensures var first := c.encode(records[0]);
            WholeReplay(c, records, k) == WholeReplay(c, records[1..], k - |first|).Behind([c.canon(records[0])], |first|)
  {
    FirstOfFront(c, records, WholeIn(c, records, k));
  }

  lemma FirstOfFront<R, B>(c: Codec<R, B>, records: seq<R>, m: nat)
    requires 0 < m <= |records|
    ensures Log(c, records[..m]) == c.encode(records[0]) + Log(c, records[1..][..m - 1])
    ensures Canonical(c, records[..m]) == [c.canon(records[0])] + Canonical(c, records[1..][..m - 1])
  {
    assert records[..m][1..] == records[1..][..m - 1] && records[..m][0] == records[0];
  }

  lemma {:induction false} WholeInAll<R, B>(c: Codec<R, B>, records: seq<R>)
    ensures WholeIn(c, records, |Log(c, records)|) == |records|
  {
    if records != [] {
      WholeInAll(c, records[1..]);
    }
  }

  lemma ReplayWhole<R(!new), B(!new)>(c: Codec<R, B>, records: seq<R>)
    requires Sound(c)
    ensures Replayed(c, Log(c, records)) == Replay(Canonical(c, records), |Log(c, records)|, false)
  {
    var all := Log(c, records);
    WholeInAll(c, records);
    TornTail(c, records, |all|);
    assert all[..|all|] == all && records[..|records|] == records;
  }

  lemma KeptFront<R, B>(c: Codec<R, B>, records: seq<R>, m: nat, k: nat)
    requires m <= |records| && |Log(c, records[..m])| <= k <= |Log(c, records)|
    ensures Log(c, records)[..k][..|Log(c, records[..m])|] == Log(c, records[..m])
  {
    LogAppend(c, records[..m], records[m..]);
    assert records == records[..m] + records[m..];
  }

  /** Trimming to the valid bytes and appending on replays to one history without a hole. */
  lemma TrimThenAppend<R(!new), B(!new)>(c: Codec<R, B>, records: seq<R>, k: nat, more: seq<R>)
    requires Sound(c) && k <= |Log(c, records)|
    ensures var torn := Log(c, records)[..k];
            var history := records[..WholeIn(c, records, k)] + more;
            Replayed(c, torn[..Replayed(c, torn).validBytes] + Log(c, more))
            == Replay(Canonical(c, history), |Log(c, history)|, false)
  {
    var m := WholeIn(c, records, k);
    TornTail(c, records, k);
    WholeInIsLongest(c, records, k);
    KeptFront(c, records, m, k);
    LogAppend(c, records[..m], more);
    ReplayWhole(c, records[..m] + more);
  }
}
