/** The messages of the wire protocol: how each is laid out in a frame, and reading it back. */
module Protocol {
  import opened Bytes
  import opened Orders
  import opened Wire
  import opened Streams
  import opened Frames

  datatype OrderKind = LimitKind | MarketKind | IcebergKind
  datatype RejectReason = UnknownReason | InvalidOrder | UnknownOrder | SelfMatch | Overloaded

  datatype Message =
    // Client to server.
    | NewOrder(orderId: nat, account: nat, side: Side, kind: OrderKind, price: int, quantity: nat, display: nat)
    | CancelOrder(orderId: nat)
    | ModifyOrder(orderId: nat, quantity: nat, newPrice: Option<int>)
    // Server to client.
    | AcceptedOrder(orderId: nat, filled: nat, resting: nat)
    | RejectedOrder(orderId: nat, reason: RejectReason)
    | FilledOrder(orderId: nat, counterparty: nat, price: int, quantity: nat, side: Side)
  {
    predicate FromClient() {
      NewOrder? || CancelOrder? || ModifyOrder?
    }
  }

  /** Every field fits its width on the wire. */
  predicate Sendable(m: Message) {
    m.orderId < TWO_TO_THE_64 &&
    match m
    case NewOrder(_, account, _, _, price, quantity, display) =>
      account < TWO_TO_THE_32 && IsI64(price) && quantity < TWO_TO_THE_64 && display < TWO_TO_THE_64
    case CancelOrder(_) => true
    case ModifyOrder(_, quantity, price) => quantity < TWO_TO_THE_64 && (price.Some? ==> IsI64(price.value))
    case AcceptedOrder(_, filled, resting) => filled < TWO_TO_THE_64 && resting < TWO_TO_THE_64
    case RejectedOrder(_, _) => true
    case FilledOrder(_, counterparty, price, quantity, _) =>
      counterparty < TWO_TO_THE_64 && IsI64(price) && quantity < TWO_TO_THE_64
  }

  function KindByte(kind: OrderKind): nat {
    match kind
    case LimitKind => 0
    case MarketKind => 1
    case IcebergKind => 2
  }

  function ReasonByte(reason: RejectReason): nat {
    match reason
    case UnknownReason => 0
    case InvalidOrder => 1
    case UnknownOrder => 2
    case SelfMatch => 3
    case Overloaded => 4
  }

  function TypeByte(m: Message): nat {
    match m
    case NewOrder(_, _, _, _, _, _, _) => 1
    case CancelOrder(_) => 2
    case ModifyOrder(_, _, _) => 3
    case AcceptedOrder(_, _, _) => 16
    case RejectedOrder(_, _) => 17
    case FilledOrder(_, _, _, _, _) => 18
  }

  // ----- Encoding -----

  function Payload(m: Message): (bytes: seq<Byte>)
    requires Sendable(m)
    ensures 8 <= |bytes| <= 38
  {
    Emitted(m.orderId, 8) +
    match m
    case NewOrder(_, account, side, kind, price, quantity, display) =>
      Emitted(account, 4) + Emitted(SideByte(side), 1) + Emitted(KindByte(kind), 1)
      + Emitted(AsUnsigned(price), 8) + Emitted(quantity, 8) + Emitted(display, 8)
    case CancelOrder(_) => []
    case ModifyOrder(_, quantity, price) =>
      Emitted(quantity, 8) + Emitted(if price.Some? then 1 else 0, 1) + Emitted(PriceBits(price), 8)
    case AcceptedOrder(_, filled, resting) => Emitted(filled, 8) + Emitted(resting, 8)
    case RejectedOrder(_, reason) => Emitted(ReasonByte(reason), 1)
    case FilledOrder(_, counterparty, price, quantity, side) =>
      Emitted(counterparty, 8) + Emitted(AsUnsigned(price), 8) + Emitted(quantity, 8) + Emitted(SideByte(side), 1)
  }

  /** A whole frame: the length counts everything behind itself. */
  function FrameOf(kind: nat, payload: seq<Byte>): (bytes: seq<Byte>)
    ensures |bytes| == FRAME_HEADER + |payload|
  {
    Emitted(2 + |payload|, 4) + Emitted(PROTOCOL_VERSION, 1) + Emitted(kind, 1) + payload
  }

  function EncodedMessage(m: Message): (bytes: seq<Byte>)
    requires Sendable(m)
    ensures |bytes| == FRAME_HEADER + |Payload(m)|
  {
    FrameOf(TypeByte(m), Payload(m))
  }

  /** A header whose length is filled in later. */
  method BeginFrame(kind: nat) returns (w: Writer)
    ensures fresh(w) && w.out == Emitted(0, 4) + Emitted(PROTOCOL_VERSION, 1) + Emitted(kind, 1)
  {
    w := new Writer();
    w.U32(0);
    w.U8(PROTOCOL_VERSION);
    w.U8(kind);
    assert [] + Emitted(0, 4) == Emitted(0, 4);
  }

  /** Writes the length over its placeholder, byte by byte. */
  method FinishFrame(w: Writer)
    requires |w.out| >= 4
    modifies w
    ensures w.out == Emitted(|old(w.out)| - 4, 4) + old(w.out)[4..]
  {
    var rest: nat := |w.out| - 4;
    ghost var length, tail := rest, w.out[4..];
    for i := 0 to 4
      invariant |w.out| == length + 4 && w.out[4..] == tail
      invariant w.out[..i] + Emitted(rest, 4 - i) == Emitted(length, 4)
    {
      ghost var was := w.out[..i];
      w.out := w.out[i := (rest % 256) as bv8];
      assert w.out[..i + 1] == was + [(rest % 256) as bv8];
      assert w.out[..i + 1] + Emitted(rest / 256, 4 - i - 1) == was + Emitted(rest, 4 - i);
      rest := rest / 256;
    }
    assert w.out[..4] + [] == w.out[..4];
    assert w.out == w.out[..4] + w.out[4..];
  }

  method WritePayload(w: Writer, m: Message)
    requires Sendable(m)
    modifies w
    ensures w.out == old(w.out) + Payload(m)
  {
    ghost var start := old(w.out) + Emitted(m.orderId, 8);
    w.U64(m.orderId);
    match m {
      case NewOrder(_, account, side, kind, price, quantity, display) =>
        w.U32(account);
        w.U8(SideByte(side));
        w.U8(KindByte(kind));
        w.I64(price);
        w.U64(quantity);
        w.U64(display);
        SixRegrouped(start, Emitted(account, 4), Emitted(SideByte(side), 1), Emitted(KindByte(kind), 1),
                     Emitted(AsUnsigned(price), 8), Emitted(quantity, 8), Emitted(display, 8));
      case CancelOrder(_) =>
        assert start + [] == start;
      case ModifyOrder(_, quantity, price) =>
        w.U64(quantity);
        w.U8(if price.Some? then 1 else 0);
        w.I64(if price.Some? then price.value else 0);
        ThreeRegrouped(start, Emitted(quantity, 8), Emitted(if price.Some? then 1 else 0, 1), Emitted(PriceBits(price), 8));
      case AcceptedOrder(_, filled, resting) =>
        w.U64(filled);
        w.U64(resting);
        Regrouped(start, Emitted(filled, 8), Emitted(resting, 8));
      case RejectedOrder(_, reason) =>
        w.U8(ReasonByte(reason));
      case FilledOrder(_, counterparty, price, quantity, side) =>
        w.U64(counterparty);
        w.I64(price);
        w.U64(quantity);
        w.U8(SideByte(side));
        ThreeRegrouped(start, Emitted(counterparty, 8), Emitted(AsUnsigned(price), 8), Emitted(quantity, 8));
        Regrouped(start, Emitted(counterparty, 8) + Emitted(AsUnsigned(price), 8) + Emitted(quantity, 8),
                  Emitted(SideByte(side), 1));
    }
    PayloadRegrouped(old(w.out), m);
  }

  lemma ThreeRegrouped(p: seq<Byte>, a: seq<Byte>, b: seq<Byte>, c: seq<Byte>)
    ensures p + a + b + c == p + (a + b + c)
  {
    Regrouped(p, a, b);
    Regrouped(p, a + b, c);
  }

  lemma SixRegrouped(p: seq<Byte>, a: seq<Byte>, b: seq<Byte>, c: seq<Byte>, d: seq<Byte>, e: seq<Byte>, f: seq<Byte>)
    ensures p + a + b + c + d + e + f == p + (a + b + c + d + e + f)
  {
    ThreeRegrouped(p, a, b, c);
    Regrouped(p, a + b + c, d);
    Regrouped(p, a + b + c + d, e);
    Regrouped(p, a + b + c + d + e, f);
  }

  lemma PayloadRegrouped(p: seq<Byte>, m: Message)
    requires Sendable(m)
    ensures p + Emitted(m.orderId, 8) + Payload(m)[8..] == p + Payload(m)
  {
    assert Payload(m)[..8] == Emitted(m.orderId, 8);
    Regrouped(p, Payload(m)[..8], Payload(m)[8..]);
    assert Payload(m)[..8] + Payload(m)[8..] == Payload(m);
  }

  /** Header, payload, and then the length over its placeholder. */
  method Encode(m: Message) returns (bytes: seq<Byte>)
    requires Sendable(m)
    ensures bytes == EncodedMessage(m)
  {
    var w := BeginFrame(TypeByte(m));
    WritePayload(w, m);
    ghost var front := w.out;
    FinishFrame(w);
    bytes := w.out;
    Finished(TypeByte(m), Payload(m));
  }

  lemma Finished(kind: nat, payload: seq<Byte>)
    ensures var begun := Emitted(0, 4) + Emitted(PROTOCOL_VERSION, 1) + Emitted(kind, 1) + payload;
            Emitted(|begun| - 4, 4) + begun[4..] == FrameOf(kind, payload)
  {
  }

  // ----- Decoding -----

  function SideOf(raw: nat): Result<Side> {
    if raw == 0 then Success(Buy) else if raw == 1 then Success(Sell) else Failure
  }

  function KindOf(raw: nat): Result<OrderKind> {
    if raw == 0 then Success(LimitKind)
    else if raw == 1 then Success(MarketKind)
    else if raw == 2 then Success(IcebergKind)
    else Failure
  }

  function ReasonOf(raw: nat): Result<RejectReason> {
    if raw == 0 then Success(UnknownReason)
    else if raw == 1 then Success(InvalidOrder)
    else if raw == 2 then Success(UnknownOrder)
    else if raw == 3 then Success(SelfMatch)
    else if raw == 4 then Success(Overloaded)
    else Failure
  }

  /** The client message of a frame; the type must be a client's and the length exactly right. */
  function ClientMessage(kind: nat, payload: seq<Byte>): Result<Message> {
    if kind == 1 && |payload| == 38 then
      var side :- SideOf(NumberAt(payload, 12, 1));
      var orderKind :- KindOf(NumberAt(payload, 13, 1));
      Success(NewOrder(NumberAt(payload, 0, 8), NumberAt(payload, 8, 4), side, orderKind,
                       SignedAt(payload, 14), NumberAt(payload, 22, 8), NumberAt(payload, 30, 8)))
    else if kind == 2 && |payload| == 8 then Success(CancelOrder(NumberAt(payload, 0, 8)))
    else if kind == 3 && |payload| == 25 then
      Success(ModifyOrder(NumberAt(payload, 0, 8), NumberAt(payload, 8, 8),
                          if NumberAt(payload, 16, 1) != 0 then Some(SignedAt(payload, 17)) else None))
    else Failure
  }

  function ServerMessage(kind: nat, payload: seq<Byte>): Result<Message> {
    if kind == 16 && |payload| == 24 then
      Success(AcceptedOrder(NumberAt(payload, 0, 8), NumberAt(payload, 8, 8), NumberAt(payload, 16, 8)))
    else if kind == 17 && |payload| == 9 then
      var reason :- ReasonOf(NumberAt(payload, 8, 1));
      Success(RejectedOrder(NumberAt(payload, 0, 8), reason))
    else if kind == 18 && |payload| == 33 then
      var side :- SideOf(NumberAt(payload, 32, 1));
      Success(FilledOrder(NumberAt(payload, 0, 8), NumberAt(payload, 8, 8), SignedAt(payload, 16),
                          NumberAt(payload, 24, 8), side))
    else Failure
  }

  method DecodeClientMessage(kind: nat, payload: seq<Byte>) returns (m: Result<Message>)
    ensures m == ClientMessage(kind, payload)
  {
    var r := new Reader(payload);
    if kind == 1 {
      var id :- r.U64();
      var account :- r.U32();
      var rawSide :- r.U8();
      var side :- SideOf(rawSide);
      var rawKind :- r.U8();
      var orderKind :- KindOf(rawKind);
      var price :- r.I64();
      var quantity :- r.U64();
      var display :- r.U64();
      m := Success(NewOrder(id, account, side, orderKind, price, quantity, display));
    } else if kind == 2 {
      var id :- r.U64();
      m := Success(CancelOrder(id));
    } else if kind == 3 {
      var id :- r.U64();
      var quantity :- r.U64();
      var hasPrice :- r.U8();
      var price :- r.I64();
      m := Success(ModifyOrder(id, quantity, if hasPrice != 0 then Some(price) else None));
    } else {
      return Failure;
    }
    if r.pos != |payload| {
      m := Failure;
    }
  }

  method DecodeServerMessage(kind: nat, payload: seq<Byte>) returns (m: Result<Message>)
    ensures m == ServerMessage(kind, payload)
  {
    var r := new Reader(payload);
    if kind == 16 {
      var id :- r.U64();
      var filled :- r.U64();
      var resting :- r.U64();
      m := Success(AcceptedOrder(id, filled, resting));
    } else if kind == 17 {
      var id :- r.U64();
      var rawReason :- r.U8();
      var reason :- ReasonOf(rawReason);
      m := Success(RejectedOrder(id, reason));
    } else if kind == 18 {
      var id :- r.U64();
      var counterparty :- r.U64();
      var price :- r.I64();
      var quantity :- r.U64();
      var rawSide :- r.U8();
      var side :- SideOf(rawSide);
      m := Success(FilledOrder(id, counterparty, price, quantity, side));
    } else {
      return Failure;
    }
    if r.pos != |payload| {
      m := Failure;
    }
  }

  // ----- Round trips -----

  lemma NewOrderPieces(a: seq<Byte>, b: seq<Byte>, c: seq<Byte>, d: seq<Byte>, e: seq<Byte>, f: seq<Byte>, g: seq<Byte>)
    requires |a| == 8 && |b| == 4 && |c| == 1 && |d| == 1 && |e| == 8 && |f| == 8 && |g| == 8
    ensures var whole := a + (b + c + d + e + f + g);
            && whole[0..8] == a && whole[8..12] == b && whole[12..13] == c && whole[13..14] == d
            && whole[14..22] == e && whole[22..30] == f && whole[30..38] == g
  {
  }

  lemma NewOrderReadBack(m: Message)
    requires Sendable(m) && m.NewOrder?
    ensures ClientMessage(1, Payload(m)) == Success(m)
  {
    Capacities();
    NewOrderPieces(Emitted(m.orderId, 8), Emitted(m.account, 4), Emitted(SideByte(m.side), 1),
                   Emitted(KindByte(m.kind), 1), Emitted(AsUnsigned(m.price), 8), Emitted(m.quantity, 8),
                   Emitted(m.display, 8));
    AbsorbedEmitted(m.orderId, 8);
    AbsorbedEmitted(m.account, 4);
    AbsorbedEmitted(SideByte(m.side), 1);
    AbsorbedEmitted(KindByte(m.kind), 1);
    AbsorbedEmitted(AsUnsigned(m.price), 8);
    AbsorbedEmitted(m.quantity, 8);
    AbsorbedEmitted(m.display, 8);
  }

  lemma ModifyPieces(a: seq<Byte>, b: seq<Byte>, c: seq<Byte>, d: seq<Byte>)
    requires |a| == 8 && |b| == 8 && |c| == 1 && |d| == 8
    ensures var whole := a + (b + c + d);
            whole[0..8] == a && whole[8..16] == b && whole[16..17] == c && whole[17..25] == d
  {
  }

  lemma ModifyReadBack(m: Message)
    requires Sendable(m) && m.ModifyOrder?
    ensures ClientMessage(3, Payload(m)) == Success(m)
  {
    Capacities();
    var flag := if m.newPrice.Some? then 1 else 0;
    ModifyPieces(Emitted(m.orderId, 8), Emitted(m.quantity, 8), Emitted(flag, 1), Emitted(PriceBits(m.newPrice), 8));
    AbsorbedEmitted(m.orderId, 8);
    AbsorbedEmitted(m.quantity, 8);
    AbsorbedEmitted(flag, 1);
    AbsorbedEmitted(PriceBits(m.newPrice), 8);
  }

  lemma FillPieces(a: seq<Byte>, b: seq<Byte>, c: seq<Byte>, d: seq<Byte>, e: seq<Byte>)
    requires |a| == 8 && |b| == 8 && |c| == 8 && |d| == 8 && |e| == 1
    ensures var whole := a + (b + c + d + e);
            && whole[0..8] == a && whole[8..16] == b && whole[16..24] == c && whole[24..32] == d && whole[32..33] == e
  {
  }

  lemma FillReadBack(m: Message)
    requires Sendable(m) && m.FilledOrder?
    ensures ServerMessage(18, Payload(m)) == Success(m)
  {
    Capacities();
    FillPieces(Emitted(m.orderId, 8), Emitted(m.counterparty, 8), Emitted(AsUnsigned(m.price), 8),
               Emitted(m.quantity, 8), Emitted(SideByte(m.side), 1));
    AbsorbedEmitted(m.orderId, 8);
    AbsorbedEmitted(m.counterparty, 8);
    AbsorbedEmitted(AsUnsigned(m.price), 8);
    AbsorbedEmitted(m.quantity, 8);
    AbsorbedEmitted(SideByte(m.side), 1);
  }

  lemma SmallReadBack(m: Message)
    requires Sendable(m) && (m.CancelOrder? || m.AcceptedOrder? || m.RejectedOrder?)
    ensures (if m.FromClient() then ClientMessage(TypeByte(m), Payload(m)) else ServerMessage(TypeByte(m), Payload(m)))
            == Success(m)
  {
    Capacities();
    var payload, id := Payload(m), Emitted(m.orderId, 8);
    AbsorbedEmitted(m.orderId, 8);
    assert payload[0..8] == id;
    match m
    case AcceptedOrder(_, filled, resting) =>
      assert payload[8..16] == Emitted(filled, 8) && payload[16..24] == Emitted(resting, 8);
      AbsorbedEmitted(filled, 8);
      AbsorbedEmitted(resting, 8);
    case RejectedOrder(_, reason) =>
      assert payload[8..9] == Emitted(ReasonByte(reason), 1);
      AbsorbedEmitted(ReasonByte(reason), 1);
    case _ =>
  }

  /** Reads a message as whoever it is meant for does. */
  function Decoded(m: Message, kind: nat, payload: seq<Byte>): Result<Message> {
    if m.FromClient() then ClientMessage(kind, payload) else ServerMessage(kind, payload)
  }

  /** Every message comes back as it was sent, and only on its own side of the connection. */
  lemma MessageReadBack(m: Message)
    requires Sendable(m)
    ensures m.FromClient() ==> ClientMessage(TypeByte(m), Payload(m)) == Success(m)
    ensures m.FromClient() ==> ServerMessage(TypeByte(m), Payload(m)) == Failure
    ensures !m.FromClient() ==> ServerMessage(TypeByte(m), Payload(m)) == Success(m)
    ensures !m.FromClient() ==> ClientMessage(TypeByte(m), Payload(m)) == Failure
  {
    match m
    case NewOrder(_, _, _, _, _, _, _) => NewOrderReadBack(m);
    case ModifyOrder(_, _, _) => ModifyReadBack(m);
    case FilledOrder(_, _, _, _, _) => FillReadBack(m);
    case _ => SmallReadBack(m);
  }

  lemma FramePieces(a: seq<Byte>, b: seq<Byte>, c: seq<Byte>, payload: seq<Byte>, more: seq<Byte>)
    requires |a| == 4 && |b| == 1 && |c| == 1
    ensures var whole := a + b + c + payload + more;
            && whole[0..4] == a && whole[4..5] == b && whole[5..6] == c && whole[6..6 + |payload|] == payload
  {
  }

  /** A frame is taken off whatever follows it, exactly when its body is within the limit. */
  lemma FrameReadBack(maxBody: nat, kind: nat, payload: seq<Byte>, more: seq<Byte>)
    requires kind < 256 && 2 + |payload| < TWO_TO_THE_32
    ensures ParseFrame(maxBody, FrameOf(kind, payload) + more) ==
            if 2 + |payload| <= maxBody then Parsed(Frame(PROTOCOL_VERSION, kind, payload), FRAME_HEADER + |payload|)
            else Bad(BodyTooLong(2 + |payload|))
  {
    Capacities();
    FramePieces(Emitted(2 + |payload|, 4), Emitted(PROTOCOL_VERSION, 1), Emitted(kind, 1), payload, more);
    AbsorbedEmitted(2 + |payload|, 4);
    AbsorbedEmitted(PROTOCOL_VERSION, 1);
    AbsorbedEmitted(kind, 1);
  }

  predicate AllSendable(messages: seq<Message>) {
    forall i :: 0 <= i < |messages| ==> Sendable(messages[i])
  }

  function Sent(messages: seq<Message>): seq<Byte>
    requires AllSendable(messages)
  {
    if messages == [] then [] else EncodedMessage(messages[0]) + Sent(messages[1..])
  }

  function FramesOf(messages: seq<Message>): (frames: seq<Frame>)
    requires AllSendable(messages)
    ensures |frames| == |messages|
    ensures forall i :: 0 <= i < |messages| ==>
              frames[i] == Frame(PROTOCOL_VERSION, TypeByte(messages[i]), Payload(messages[i]))
  {
    if messages == [] then []
    else [Frame(PROTOCOL_VERSION, TypeByte(messages[0]), Payload(messages[0]))] + FramesOf(messages[1..])
  }

  /** Messages sent one after another are received as the same messages, with nothing left over. */
  lemma {:induction false} StreamReadBack(p: Parser<Frame, ProtocolError, Byte>, maxBody: nat, messages: seq<Message>)
    requires AllSendable(messages) && maxBody >= 40 && ParsesFrames(p, maxBody)
    ensures ParseAll(p, Sent(messages)) == Outcome(FramesOf(messages), [], None)
    ensures forall i :: 0 <= i < |messages| ==>
              Decoded(messages[i], FramesOf(messages)[i].kind, FramesOf(messages)[i].payload) == Success(messages[i])
  {
    forall i | 0 <= i < |messages|
      ensures Decoded(messages[i], TypeByte(messages[i]), Payload(messages[i])) == Success(messages[i])
    {
      MessageReadBack(messages[i]);
    }
    assert ParsesFrame(p, maxBody, Sent(messages));
    if messages != [] {
      var first, rest := EncodedMessage(messages[0]), Sent(messages[1..]);
      FrameReadBack(maxBody, TypeByte(messages[0]), Payload(messages[0]), rest);
      assert (first + rest)[|first|..] == rest;
      StreamReadBack(p, maxBody, messages[1..]);
    }
  }

  /**
   End to end: messages sent one after another, cut into any arrivals and taken off at any times, are
   received as the same messages, without error and with nothing left over.
   */
  lemma ReceivedAsSent(p: Parser<Frame, ProtocolError, Byte>, maxBody: nat, messages: seq<Message>, events: seq<Event<Byte>>)
    requires AllSendable(messages) && maxBody >= 40 && ParsesFrames(p, maxBody)
    requires Arrived(events) == Sent(messages)
    requires !p.parse(Run(p, Receiver([], [], None), events).pending).Parsed?
    ensures Run(p, Receiver([], [], None), events) == Receiver([], FramesOf(messages), None)
    ensures forall i :: 0 <= i < |messages| ==>
              Decoded(messages[i], FramesOf(messages)[i].kind, FramesOf(messages)[i].payload) == Success(messages[i])
  {
    StreamReadBack(p, maxBody, messages);
    DrainedReceiver(p, events);
  }
}
