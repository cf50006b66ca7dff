/**
 Byte streams that arrive in pieces, for any way of taking one frame off the front that meets two
 laws. However a stream is cut into arrivals, and whenever frames are taken off in between, the same
 frames come out, and the same error after them.
 */
module Streams {
  import opened Orders

  /** What the front of the bytes is: a frame, too little to tell, or something that can never be one. */
  datatype Parsed<+F, +E> = Parsed(frame: F, total: nat) | NeedMore | Bad(error: E)

  datatype Parser<!F, !E, !B> = Parser(parse: seq<B> -> Parsed<F, E>)

  ghost predicate Advances<F(!new), E(!new), B(!new)>(p: Parser<F, E, B>) {
    forall bytes :: p.parse(bytes).Parsed? ==> 0 < p.parse(bytes).total <= |bytes|
  }

  /** More bytes never change a verdict that was reached without them. */
  ghost predicate Settled<F(!new), E(!new), B(!new)>(p: Parser<F, E, B>) {
    forall bytes, more {:trigger p.parse(bytes + more)} ::
      !p.parse(bytes).NeedMore? ==> p.parse(bytes + more) == p.parse(bytes)
  }

  /** What a stream comes to: its frames, what is left over, and the error that ended it, if any. */
  datatype Outcome<+F, +E, +B> = Outcome(frames: seq<F>, rest: seq<B>, error: Option<E>) {
    function Behind(front: seq<F>): Outcome<F, E, B> {
      this.(frames := front + frames)
    }
  }

  ghost function ParseAll<F(!new), E(!new), B(!new)>(p: Parser<F, E, B>, bytes: seq<B>): Outcome<F, E, B>
    requires Advances(p)
    decreases |bytes|
  {
    match p.parse(bytes)
    case Parsed(frame, total) => ParseAll(p, bytes[total..]).Behind([frame])
    case NeedMore => Outcome([], bytes, None)
    case Bad(error) => Outcome([], bytes, Some(error))
  }

  lemma BehindTwice<F, E, B>(o: Outcome<F, E, B>, a: seq<F>, b: seq<F>)
    ensures o.Behind(b).Behind(a) == o.Behind(a + b)
  {
    assert a + (b + o.frames) == a + b + o.frames;
  }

  lemma BehindNothing<F, E, B>(o: Outcome<F, E, B>)
    ensures o.Behind([]) == o
  {
    assert [] + o.frames == o.frames;
  }

  /** Bytes that arrive later are parsed as if they had been behind what was left over. */
  lemma {:induction false} ParseOn<F(!new), E(!new), B(!new)>(p: Parser<F, E, B>, bytes: seq<B>, more: seq<B>)
    requires Advances(p) && Settled(p)
    ensures var first := ParseAll(p, bytes);
            ParseAll(p, bytes + more) == ParseAll(p, first.rest + more).Behind(first.frames)
    decreases |bytes|
  {
    var read := p.parse(bytes);
    if read.Parsed? {
      var tail := bytes[read.total..];
      ParseOn(p, tail, more);
      assert p.parse(bytes + more) == read && (bytes + more)[read.total..] == tail + more;
      BehindTwice(ParseAll(p, ParseAll(p, tail).rest + more), [read.frame], ParseAll(p, tail).frames);
    } else {
      BehindNothing(ParseAll(p, bytes + more));
    }
  }

  // ----- Sessions -----

  datatype Event<B> = Arrive(bytes: seq<B>) | Take

  /** A receiver: what it holds, what it has handed out, and whether it has failed. */
  datatype Receiver<F, E, B> = Receiver(pending: seq<B>, frames: seq<F>, error: Option<E>)

  function Step<F, E, B>(p: Parser<F, E, B>, r: Receiver<F, E, B>, e: Event<B>): Receiver<F, E, B> {
    match e
    case Arrive(bytes) => r.(pending := r.pending + bytes)
    case Take =>
      match p.parse(r.pending)
      case Parsed(frame, total) =>
        if total <= |r.pending| then Receiver(r.pending[total..], r.frames + [frame], r.error) else r
      case NeedMore => r
      case Bad(error) => r.(error := Some(error))
  }

  function Run<F, E, B>(p: Parser<F, E, B>, r: Receiver<F, E, B>, events: seq<Event<B>>): Receiver<F, E, B> {
    if events == [] then r else Step(p, Run(p, r, events[..|events| - 1]), events[|events| - 1])
  }

  function Arrived<B>(events: seq<Event<B>>): seq<B> {
    if events == [] then []
    else
      var last := events[|events| - 1];
      Arrived(events[..|events| - 1]) + (if last.Arrive? then last.bytes else [])
  }

  /** What was handed out and what is still held are one parse of all that arrived. */
  ghost predicate OnTrack<F(!new), E(!new), B(!new)>(p: Parser<F, E, B>, r: Receiver<F, E, B>, arrived: seq<B>)
    requires Advances(p)
  {
    && ParseAll(p, arrived) == ParseAll(p, r.pending).Behind(r.frames)
    && (r.error.Some? ==> p.parse(r.pending) == Bad(r.error.value))
  }

  lemma ArriveKeepsTrack<F(!new), E(!new), B(!new)>(
    p: Parser<F, E, B>, r: Receiver<F, E, B>, arrived: seq<B>, bytes: seq<B>)
    requires Advances(p) && Settled(p) && OnTrack(p, r, arrived)
    ensures OnTrack(p, Step(p, r, Arrive(bytes)), arrived + bytes)
  {
    ParseOn(p, arrived, bytes);
    ParseOn(p, r.pending, bytes);
    var first := ParseAll(p, r.pending);
    BehindTwice(ParseAll(p, first.rest + bytes), r.frames, first.frames);
  }

  lemma TakeKeepsTrack<F(!new), E(!new), B(!new)>(p: Parser<F, E, B>, r: Receiver<F, E, B>, arrived: seq<B>)
    requires Advances(p) && OnTrack(p, r, arrived)
    ensures OnTrack(p, Step(p, r, Take), arrived)
  {
    var read := p.parse(r.pending);
    if read.Parsed? {
      BehindTwice(ParseAll(p, r.pending[read.total..]), r.frames, [read.frame]);
    }
  }

  /** Chunking invariance: any run of arrivals and takes stays on track of the whole stream. */
  lemma {:induction false} AnyChunking<F(!new), E(!new), B(!new)>(p: Parser<F, E, B>, events: seq<Event<B>>)
    requires Advances(p) && Settled(p)
    ensures OnTrack(p, Run(p, Receiver([], [], None), events), Arrived(events))
  {
    if events == [] {
      BehindNothing(ParseAll(p, []));
    } else {
      var n := |events| - 1;
      AnyChunking(p, events[..n]);
      var r := Run(p, Receiver([], [], None), events[..n]);
      match events[n]
      case Arrive(bytes) => ArriveKeepsTrack(p, r, Arrived(events[..n]), bytes);
      case Take =>
        TakeKeepsTrack(p, r, Arrived(events[..n]));
        assert Arrived(events[..n]) + [] == Arrived(events[..n]);
    }
  }

  /** A receiver that has taken all it can holds exactly what parsing the whole stream gives. */
  lemma DrainedReceiver<F(!new), E(!new), B(!new)>(p: Parser<F, E, B>, events: seq<Event<B>>)
    requires Advances(p) && Settled(p)
    requires !p.parse(Run(p, Receiver([], [], None), events).pending).Parsed?
    ensures var r := Run(p, Receiver([], [], None), events);
            var whole := ParseAll(p, Arrived(events));
            && r.frames == whole.frames && r.pending == whole.rest
            && (r.error.Some? ==> r.error == whole.error)
            && (whole.error.Some? ==> p.parse(r.pending) == Bad(whole.error.value))
  {
    AnyChunking(p, events);
    var r := Run(p, Receiver([], [], None), events);
    assert r.frames + [] == r.frames;
  }
}
