/**
 Crashes at any byte. A machine logs each command, forces it, applies it and publishes it, and may die
 between any two steps or in the middle of a write; it then comes back from what is left of its file.
 The machine is stated for any records, bytes and state, so that its proof rests on the laws of the
 record codec alone.
 */
module CrashSafety {
  import opened Orders
  import opened RecordFiles

  /**
   `forced` is the policy that forces every record before it is applied; without it the file only
   outlives the process, not the machine. `admits` says which records may be logged in which state, and
   `follows` numbers them.
   */
  datatype World<!R, !B, !S> = World(
    codec: Codec<R, B>, initial: S, apply: (S, R) -> S,
    admits: (S, R) -> bool, follows: (seq<R>, R) -> bool, forced: bool)

  /** What `r` is read back as is stored like it, comes back as itself, and does to the state what `r` does. */
  predicate Faithful<R(==), B(==), S(==)>(w: World<R, B, S>, state: S, r: R) {
    var stored := w.codec.canon(r);
    && w.codec.encode(stored) == w.codec.encode(r) && w.codec.canon(stored) == stored
    && w.apply(state, stored) == w.apply(state, r)
  }

  /** What may be logged is faithful. */
  ghost predicate AdmitsFaithful<R(!new), B(!new), S(!new)>(w: World<R, B, S>) {
    forall state, r {:trigger w.admits(state, r)} :: w.admits(state, r) ==> Faithful(w, state, r)
  }

  /** A record is numbered like what it is read back as. */
  ghost predicate FollowsStored<R(!new), B(!new), S(!new)>(w: World<R, B, S>) {
    forall records, r {:trigger w.follows(records, r)} :: w.follows(records, r) ==> w.follows(records, w.codec.canon(r))
  }

  ghost predicate SoundWorld<R(!new), B(!new), S(!new)>(w: World<R, B, S>) {
    Sound(w.codec) && AdmitsFaithful(w) && FollowsStored(w)
  }

  /** How far the current command has got. */
  datatype Phase<R, B> =
    | Idle
    | Writing(r: R, left: seq<B>)
    | Written(r: R)
    | Synced(r: R)
    | Applied

  datatype System<R, B, S> = System(
    file: seq<B>,       // what has been written
    durable: nat,       // how many of those bytes are on the device
    state: S,           // what is in memory
    phase: Phase<R, B>,
    records: seq<R>,    // the records the file holds whole, as they are read back
    served: nat,        // how many of them were recovered at the start or published since
    acked: nat)         // every published command is among the first `acked`

  datatype Step<R> =
    | Begin(r: R)
    | Write(n: nat)     // a write may be short
    | Sync
    | Apply
    | Publish
    | Crash(k: nat)     // `k` bytes of the file survive; then recover and start again

  function Fold<R, S>(apply: (S, R) -> S, s: S, records: seq<R>): S {
    if records == [] then s else apply(Fold(apply, s, records[..|records| - 1]), records[|records| - 1])
  }

  ghost predicate Enabled<R(!new), B(!new), S(!new)>(w: World<R, B, S>, s: System<R, B, S>, a: Step<R>) {
    match a
    case Begin(r) => s.phase.Idle? && w.admits(s.state, r) && w.follows(s.records, r)
    case Write(n) => s.phase.Writing? && 0 < n <= |s.phase.left|
    case Sync => s.phase.Written?
    case Apply => s.phase.Synced? || (s.phase.Written? && !w.forced)
    case Publish => s.phase.Applied?
    case Crash(k) => s.durable <= k <= |s.file| && (w.forced || k == |s.file|)
  }

  /** What recovery leaves: the whole records, the file trimmed to them, and the state they lead to. */
  ghost function Recovered<R(!new), B(!new), S(!new)>(w: World<R, B, S>, s: System<R, B, S>, k: nat): System<R, B, S>
    requires Advances(w.codec) && k <= |s.file|
  {
    var replay := Replayed(w.codec, s.file[..k]);
    System(s.file[..replay.validBytes], Min(s.durable, replay.validBytes),
           Fold(w.apply, w.initial, replay.records), Idle, replay.records, |replay.records|, s.acked)
  }

  ghost function Next<R(!new), B(!new), S(!new)>(w: World<R, B, S>, s: System<R, B, S>, a: Step<R>): System<R, B, S>
    requires Advances(w.codec) && Enabled(w, s, a)
  {
    match a
    case Begin(r) => s.(phase := Writing(r, w.codec.encode(r)))
    case Write(n) =>
      var left := s.phase.left[n..];
      var s' := s.(file := s.file + s.phase.left[..n]);
      if left == [] then s'.(phase := Written(s.phase.r), records := s.records + [w.codec.canon(s.phase.r)])
      else s'.(phase := Writing(s.phase.r, left))
    case Sync => s.(durable := |s.file|, phase := Synced(s.phase.r))
    case Apply => s.(state := w.apply(s.state, s.phase.r), phase := Applied)
    case Publish => s.(phase := Idle, served := |s.records|, acked := |s.records|)
    case Crash(k) => Recovered(w, s, k)
  }

  predicate Start<R, B, S(==)>(w: World<R, B, S>, s: System<R, B, S>) {
    s == System([], 0, w.initial, Idle, [], 0, 0)
  }

  // ----- The invariant -----

  /** How many records the state in memory reflects. */
  function InMemory<R, B, S>(s: System<R, B, S>): int {
    if s.phase.Written? || s.phase.Synced? then |s.records| - 1 else |s.records|
  }

  /** The file is its whole records and then the part of the current one that was written. */
  ghost predicate FileHolds<R(!new), B(!new), S(!new)>(w: World<R, B, S>, s: System<R, B, S>) {
    if s.phase.Writing? then
      && 0 < |s.phase.left| <= |w.codec.encode(s.phase.r)|
      && s.file == Log(w.codec, s.records)
                   + w.codec.encode(s.phase.r)[..|w.codec.encode(s.phase.r)| - |s.phase.left|]
      && s.phase.left == w.codec.encode(s.phase.r)[|w.codec.encode(s.phase.r)| - |s.phase.left|..]
    else s.file == Log(w.codec, s.records)
  }

  ghost predicate Numbered<R(!new), B(!new), S(!new)>(w: World<R, B, S>, records: seq<R>) {
    forall i :: 0 <= i < |records| ==> w.codec.canon(records[i]) == records[i] && w.follows(records[..i], records[i])
  }

  /** `r` is the last record, and has yet to be applied. */
  ghost predicate Awaiting<R(!new), B(!new), S(!new)>(w: World<R, B, S>, s: System<R, B, S>, r: R) {
    |s.records| == s.served + 1 && w.codec.canon(r) == s.records[s.served] && Faithful(w, s.state, r)
  }

  ghost predicate PhaseFits<R(!new), B(!new), S(!new)>(w: World<R, B, S>, s: System<R, B, S>) {
    match s.phase
    case Idle => |s.records| == s.served
    case Writing(r, left) =>
      |s.records| == s.served && Faithful(w, s.state, r) && w.follows(s.records, w.codec.canon(r))
    case Written(r) => Awaiting(w, s, r)
    case Synced(r) => Awaiting(w, s, r) && s.durable == |s.file|
    case Applied => |s.records| == s.served + 1 && (w.forced ==> s.durable == |s.file|)
  }

  ghost predicate Inv<R(!new), B(!new), S(!new)>(w: World<R, B, S>, s: System<R, B, S>) {
    && FileHolds(w, s) && Numbered(w, s.records) && PhaseFits(w, s)
    && s.acked <= s.served <= |s.records| && s.durable <= |s.file|
    && s.state == Fold(w.apply, w.initial, s.records[..InMemory(s)])
    && (w.forced ==> |Log(w.codec, s.records[..s.acked])| <= s.durable)
  }

  // ----- What is left after a crash -----

  /** The records the file holds, and the one it is in the middle of. */
  function Pending<R, B, S>(w: World<R, B, S>, s: System<R, B, S>): seq<R> {
    if s.phase.Writing? then s.records + [w.codec.canon(s.phase.r)] else s.records
  }

  /** The record being written is stored like what it is read back as. */
  predicate WritesStored<R, B(==), S>(w: World<R, B, S>, s: System<R, B, S>) {
    s.phase.Writing? ==> w.codec.encode(w.codec.canon(s.phase.r)) == w.codec.encode(s.phase.r)
  }

  lemma FileIsCut<R(!new), B(!new), S(!new)>(w: World<R, B, S>, s: System<R, B, S>)
    requires FileHolds(w, s) && WritesStored(w, s)
    ensures var all := Log(w.codec, Pending(w, s));
            && |Log(w.codec, s.records)| <= |s.file| <= |all| && s.file == all[..|s.file|]
            && (s.phase.Writing? ==> |s.file| < |all|)
  {
    if s.phase.Writing? {
      LogSnoc(w.codec, s.records, w.codec.canon(s.phase.r));
    }
  }

  lemma CanonicalFront<R(!new), B(!new), S(!new)>(w: World<R, B, S>, records: seq<R>, all: seq<R>, m: nat)
    requires Numbered(w, records) && records <= all && m <= |records|
    ensures Canonical(w.codec, all[..m]) == records[..m] && Numbered(w, records[..m])
  {
    forall i | 0 <= i < m
      ensures w.codec.canon(records[..m][i]) == records[..m][i] && w.follows(records[..m][..i], records[..m][i])
    {
      assert records[..m][..i] == records[..i];
    }
  }

  /** How many records survive the first `k` bytes. */
  function Surviving<R, B, S>(w: World<R, B, S>, s: System<R, B, S>, k: nat): nat {
    WholeIn(w.codec, Pending(w, s), k)
  }

  lemma SurvivingRecords<R(!new), B(!new), S(!new)>(w: World<R, B, S>, s: System<R, B, S>, k: nat)
    requires Sound(w.codec) && FileHolds(w, s) && WritesStored(w, s) && Numbered(w, s.records) && k <= |s.file|
    ensures var m := Surviving(w, s, k);
            && m <= |s.records|
            && Replayed(w.codec, s.file[..k]).records == s.records[..m]
            && Replayed(w.codec, s.file[..k]).validBytes == |Log(w.codec, s.records[..m])| <= k
            && s.file[..|Log(w.codec, s.records[..m])|] == Log(w.codec, s.records[..m])
            && Numbered(w, s.records[..m])
  {
    var all, m := Pending(w, s), Surviving(w, s, k);
    FileIsCut(w, s);
    assert s.file[..k] == Log(w.codec, all)[..k];
    WholeInIsLongest(w.codec, all, k);
    assert m == |all| ==> all[..m] == all;
    TornTail(w.codec, all, k);
    CanonicalFront(w, s.records, all, m);
    assert all[..m] == s.records[..m];
    KeptFront(w.codec, all, m, |s.file|);
  }

  /** What was forced survives; without forcing, all that was written does. */
  lemma EnoughSurvives<R(!new), B(!new), S(!new)>(w: World<R, B, S>, s: System<R, B, S>, k: nat)
    requires Inv(w, s) && Enabled(w, s, Crash(k))
    ensures s.acked <= Surviving(w, s, k)
    ensures !w.forced ==> |s.records| <= Surviving(w, s, k)
  {
    var all := Pending(w, s);
    FileIsCut(w, s);
    if w.forced {
      assert all[..s.acked] == s.records[..s.acked];
      WholeInGrows(w.codec, all, s.acked, k);
    } else {
      assert all[..|s.records|] == s.records;
      WholeInGrows(w.codec, all, |s.records|, k);
    }
  }

  /**
   Wherever the machine dies, the log it leaves replays to the state after some first `m` of the
   commands in the log: all that were published, and at most one that was not yet served.
   */
  lemma CrashSafe<R(!new), B(!new), S(!new)>(w: World<R, B, S>, s: System<R, B, S>, k: nat)
    requires Sound(w.codec) && Inv(w, s) && Enabled(w, s, Crash(k))
    ensures
      var m, after := Surviving(w, s, k), Next(w, s, Crash(k));
      && s.acked <= m <= s.served + 1 && m <= |s.records|
      && after.records == s.records[..m]
      && after.state == Fold(w.apply, w.initial, s.records[..m])
      && s.state == Fold(w.apply, w.initial, s.records[..InMemory(s)])
  {
    SurvivingRecords(w, s, k);
    EnoughSurvives(w, s, k);
  }

  // ----- Every step keeps the invariant -----

  lemma StartInv<R(!new), B(!new), S(!new)>(w: World<R, B, S>, s: System<R, B, S>)
    requires Start(w, s)
    ensures Inv(w, s)
  {
  }

  lemma WrittenSoFar<B>(log: seq<B>, whole: seq<B>, left: seq<B>, n: nat)
    requires |left| <= |whole| && left == whole[|whole| - |left|..] && n <= |left|
    ensures log + whole[..|whole| - |left|] + left[..n] == log + whole[..|whole| - |left[n..]|]
    ensures left[n..] == whole[|whole| - |left[n..]|..]
  {
  }

  lemma WritePartKeepsInv<R(!new), B(!new), S(!new)>(w: World<R, B, S>, s: System<R, B, S>, n: nat)
    requires Advances(w.codec) && Inv(w, s) && Enabled(w, s, Write(n)) && n < |s.phase.left|
    ensures Inv(w, Next(w, s, Write(n)))
  {
    PartWrite(w, s, n);
  }

  lemma PartWrite<R(!new), B(!new), S(!new)>(w: World<R, B, S>, s: System<R, B, S>, n: nat)
    requires Advances(w.codec) && FileHolds(w, s) && s.phase.Writing? && 0 < n < |s.phase.left|
    ensures var after := Next(w, s, Write(n));
            && FileHolds(w, after) && |s.file| <= |after.file| && after.phase.Writing? && after.phase.r == s.phase.r
            && after == s.(file := after.file, phase := after.phase)
  {
    WrittenSoFar(Log(w.codec, s.records), w.codec.encode(s.phase.r), s.phase.left, n);
  }

  lemma WrittenAll<B>(log: seq<B>, whole: seq<B>, left: seq<B>)
    requires |left| <= |whole| && left == whole[|whole| - |left|..]
    ensures log + whole[..|whole| - |left|] + left[..|left|] == log + whole
    ensures left[|left|..] == []
  {
  }

  lemma LastWrite<R(!new), B(!new), S(!new)>(w: World<R, B, S>, s: System<R, B, S>, n: nat)
    requires Advances(w.codec) && FileHolds(w, s) && WritesStored(w, s) && s.phase.Writing? && n == |s.phase.left|
    ensures var grown := s.records + [w.codec.canon(s.phase.r)];
            && Next(w, s, Write(n)) == s.(file := Log(w.codec, grown), phase := Written(s.phase.r), records := grown)
            && |s.file| <= |Log(w.codec, grown)|
  {
    WrittenAll(Log(w.codec, s.records), w.codec.encode(s.phase.r), s.phase.left);
    LogSnoc(w.codec, s.records, w.codec.canon(s.phase.r));
  }

  lemma WriteLastKeepsInv<R(!new), B(!new), S(!new)>(w: World<R, B, S>, s: System<R, B, S>, n: nat)
    requires Advances(w.codec) && Inv(w, s) && Enabled(w, s, Write(n)) && n == |s.phase.left|
    ensures Inv(w, Next(w, s, Write(n)))
  {
    LastWrite(w, s, n);
    var stored := w.codec.canon(s.phase.r);
    LogGrows(w.codec, s.records, stored, s.acked);
    NumberedGrows(w, s.records, stored);
    WholeRecordKeepsInv(w, s, s.records + [stored], s.phase.r);
  }

  lemma WholeRecordKeepsInv<R(!new), B(!new), S(!new)>(w: World<R, B, S>, s: System<R, B, S>, grown: seq<R>, r: R)
    requires Inv(w, s) && s.phase.Writing? && s.phase.r == r && grown == s.records + [w.codec.canon(r)]
    requires Numbered(w, grown) && |s.file| <= |Log(w.codec, grown)|
    requires |Log(w.codec, grown[..s.acked])| == |Log(w.codec, s.records[..s.acked])|
    ensures Inv(w, s.(file := Log(w.codec, grown), phase := Written(r), records := grown))
  {
    assert grown[..|s.records|] == s.records == s.records[..|s.records|];
  }

  lemma NumberedGrows<R(!new), B(!new), S(!new)>(w: World<R, B, S>, records: seq<R>, r: R)
    requires Numbered(w, records) && w.codec.canon(r) == r && w.follows(records, r)
    ensures Numbered(w, records + [r])
  {
    var grown := records + [r];
    forall i | 0 <= i < |grown| ensures w.codec.canon(grown[i]) == grown[i] && w.follows(grown[..i], grown[i]) {
      assert grown[..i] == records[..i];
    }
  }

  lemma ApplyKeepsInv<R(!new), B(!new), S(!new)>(w: World<R, B, S>, s: System<R, B, S>)
    requires Advances(w.codec) && Inv(w, s) && Enabled(w, s, Apply)
    ensures Inv(w, Next(w, s, Apply))
  {
    var n := |s.records| - 1;
    assert s.records[..|s.records|] == s.records;
  }

  lemma FrontIsShorter<R, B>(c: Codec<R, B>, records: seq<R>, front: nat)
    requires front <= |records|
    ensures |Log(c, records[..front])| <= |Log(c, records)|
  {
    LogAppend(c, records[..front], records[front..]);
    assert records[..front] + records[front..] == records;
  }

  /** A machine that starts on a file of whole records, in the state they lead to. */
  lemma FreshStart<R(!new), B(!new), S(!new)>(w: World<R, B, S>, records: seq<R>, durable: nat, acked: nat)
    requires Numbered(w, records) && acked <= |records|
    requires w.forced ==> |Log(w.codec, records[..acked])| <= durable
    ensures var file := Log(w.codec, records);
            Inv(w, System(file, Min(durable, |file|), Fold(w.apply, w.initial, records), Idle, records, |records|, acked))
  {
    FrontIsShorter(w.codec, records, acked);
    assert records[..|records|] == records;
  }

  lemma CrashKeepsInv<R(!new), B(!new), S(!new)>(w: World<R, B, S>, s: System<R, B, S>, k: nat)
    requires Sound(w.codec) && Inv(w, s) && Enabled(w, s, Crash(k))
    ensures Inv(w, Next(w, s, Crash(k)))
  {
    var m := Surviving(w, s, k);
    SurvivingRecords(w, s, k);
    EnoughSurvives(w, s, k);
    assert s.records[..m][..s.acked] == s.records[..s.acked];
    FreshStart(w, s.records[..m], s.durable, s.acked);
  }

  lemma StepKeepsInv<R(!new), B(!new), S(!new)>(w: World<R, B, S>, s: System<R, B, S>, a: Step<R>)
    requires SoundWorld(w) && Inv(w, s) && Enabled(w, s, a)
    ensures Inv(w, Next(w, s, a))
  {
    match a
    case Begin(r) =>
      var whole := w.codec.encode(r);
      assert whole[..0] == [] && whole[0..] == whole;
    case Write(n) =>
      if n < |s.phase.left| {
        WritePartKeepsInv(w, s, n);
      } else {
        WriteLastKeepsInv(w, s, n);
      }
    case Sync =>
    case Apply => ApplyKeepsInv(w, s);
    case Publish =>
      assert s.records[..|s.records|] == s.records;
    case Crash(k) => CrashKeepsInv(w, s, k);
  }

  // ----- Runs -----

  ghost predicate CanRun<R(!new), B(!new), S(!new)>(w: World<R, B, S>, s: System<R, B, S>, steps: seq<Step<R>>)
    requires Advances(w.codec)
    decreases |steps|
  {
    steps == [] || (Enabled(w, s, steps[0]) && CanRun(w, Next(w, s, steps[0]), steps[1..]))
  }

  ghost function After<R(!new), B(!new), S(!new)>(w: World<R, B, S>, s: System<R, B, S>, steps: seq<Step<R>>)
    : System<R, B, S>
    requires Advances(w.codec) && CanRun(w, s, steps)
    decreases |steps|
  {
    if steps == [] then s else After(w, Next(w, s, steps[0]), steps[1..])
  }

  /** The invariant holds after every run, however often it crashed and recovered on the way. */
  lemma {:induction false} RunKeepsInv<R(!new), B(!new), S(!new)>(
    w: World<R, B, S>, s: System<R, B, S>, steps: seq<Step<R>>)
    requires SoundWorld(w) && Inv(w, s) && CanRun(w, s, steps)
    ensures Inv(w, After(w, s, steps))
    decreases |steps|
  {
    if steps != [] {
      StepKeepsInv(w, s, steps[0]);
      RunKeepsInv(w, Next(w, s, steps[0]), steps[1..]);
    }
  }

  /** What was published before is still in the log, in the same place. */
  ghost predicate StillThere<R, B, S>(before: System<R, B, S>, after: System<R, B, S>) {
    && before.acked <= |before.records| && before.acked <= after.acked
    && before.acked <= |after.records| && after.records[..before.acked] == before.records[..before.acked]
  }

  lemma StepKeepsPublished<R(!new), B(!new), S(!new)>(w: World<R, B, S>, s: System<R, B, S>, a: Step<R>)
    requires Sound(w.codec) && Inv(w, s) && Enabled(w, s, a)
    ensures StillThere(s, Next(w, s, a))
  {
    match a
    case Crash(k) =>
      CrashSafe(w, s, k);
      FrontOfFront(s.records, Surviving(w, s, k), s.acked);
    case Write(n) =>
      GrownFront(s.records, w.codec.canon(s.phase.r), s.acked);
    case _ =>
  }

  lemma FrontOfFront<R>(records: seq<R>, m: nat, n: nat)
    requires n <= m <= |records|
    ensures records[..m][..n] == records[..n]
  {
  }

  lemma GrownFront<R>(records: seq<R>, r: R, n: nat)
    requires n <= |records|
    ensures (records + [r])[..n] == records[..n]
  {
  }

  lemma StillThereAfter<R, B, S>(s: System<R, B, S>, s': System<R, B, S>, s'': System<R, B, S>)
    requires StillThere(s, s') && StillThere(s', s'')
    ensures StillThere(s, s'')
  {
    var n := s.acked;
    assert s'.records[..n] == s'.records[..s'.acked][..n] && s''.records[..n] == s''.records[..s'.acked][..n];
  }

  /** No published command is ever lost or moved, whatever happens afterwards. */
  lemma {:induction false} PublishedForGood<R(!new), B(!new), S(!new)>(
    w: World<R, B, S>, s: System<R, B, S>, steps: seq<Step<R>>)
    requires SoundWorld(w) && Inv(w, s) && CanRun(w, s, steps)
    ensures StillThere(s, After(w, s, steps))
    decreases |steps|
  {
    if steps != [] {
      var next := Next(w, s, steps[0]);
      StepKeepsInv(w, s, steps[0]);
      StepKeepsPublished(w, s, steps[0]);
      PublishedForGood(w, next, steps[1..]);
      StillThereAfter(s, next, After(w, next, steps[1..]));
    }
  }
}
