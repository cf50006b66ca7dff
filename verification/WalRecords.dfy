/**
 One record of the write-ahead log: length, checksum, then a payload holding the sequence number and
 the command. What the decoder makes of any bytes, what it makes of an encoded record, and which
 commands come back as they went in.
 */
module WalRecords {
  import opened Bytes
  import opened Crc32
  import opened Orders
  import opened BookModel
  import opened Wire

  const HEADER_SIZE := 8
  const MAX_PAYLOAD := 4096

  datatype WalRecord = WalRecord(sequence: Sequence, command: Command)

  datatype ReadResult =
    | Ok(record: WalRecord, consumed: nat)
    | Incomplete
    | Corrupt

  // ----- Encoding -----

  /** The fields of an order fit the widths they are stored in. */
  predicate StorableOrder(o: OrderState) {
    && o.id < TWO_TO_THE_64 && o.account < TWO_TO_THE_32
    && (o.RestingPrice().Some? ==> IsI64(o.RestingPrice().value))
    && o.remaining < TWO_TO_THE_64 && o.Display() < TWO_TO_THE_64
  }

  predicate Storable(c: Command) {
    match c
    case SubmitCommand(o) => StorableOrder(o)
    case CancelCommand(id) => id < TWO_TO_THE_64
    case ModifyCommand(id, quantity, price) =>
      id < TWO_TO_THE_64 && quantity < TWO_TO_THE_64 && (price.Some? ==> IsI64(price.value))
  }

  /** An iceberg is told from a limit order by showing less than it holds. */
  function StoredKind(o: OrderState): nat {
    if o.RestingPrice().None? then 1 else if o.Display() < o.remaining then 2 else 0
  }

  function OrderBytes(o: OrderState): (bytes: seq<Byte>)
    requires StorableOrder(o)
    ensures |bytes| == 38
  {
    Emitted(StoredKind(o), 1) + Emitted(o.id, 8) + Emitted(o.account, 4) + Emitted(SideByte(o.side), 1)
    + Emitted(PriceBits(o.RestingPrice()), 8) + Emitted(o.remaining, 8) + Emitted(o.Display(), 8)
  }

  function CommandType(c: Command): nat {
    match c
    case SubmitCommand(_) => 1
    case CancelCommand(_) => 2
    case ModifyCommand(_, _, _) => 3
  }

  function CommandBytes(c: Command): (bytes: seq<Byte>)
    requires Storable(c)
    ensures |bytes| == if c.SubmitCommand? then 38 else if c.CancelCommand? then 8 else 25
  {
    match c
    case SubmitCommand(o) => OrderBytes(o)
    case CancelCommand(id) => Emitted(id, 8)
    case ModifyCommand(id, quantity, price) =>
      Emitted(id, 8) + Emitted(quantity, 8) + Emitted(if price.Some? then 1 else 0, 1) + Emitted(PriceBits(price), 8)
  }

  function Payload(r: WalRecord): (bytes: seq<Byte>)
    requires Storable(r.command)
    ensures 17 <= |bytes| <= 47
  {
    Emitted(r.sequence, 8) + Emitted(CommandType(r.command), 1) + CommandBytes(r.command)
  }

  /** A payload behind its length and checksum. */
  function Framed(payload: seq<Byte>): (bytes: seq<Byte>)
    ensures |bytes| == HEADER_SIZE + |payload|
  {
    Emitted(|payload|, 4) + CrcBytes(Checksum(payload)) + payload
  }

  function Encoded(r: WalRecord): (bytes: seq<Byte>)
    requires Storable(r.command)
    ensures |bytes| == HEADER_SIZE + |Payload(r)|
  {
    Framed(Payload(r))
  }

  lemma SevenRegrouped(p: seq<Byte>, a: seq<Byte>, b: seq<Byte>, c: seq<Byte>, d: seq<Byte>, e: seq<Byte>,
                       f: seq<Byte>, g: seq<Byte>)
    ensures p + a + b + c + d + e + f + g == p + (a + b + c + d + e + f + g)
  {
    Regrouped(p, a, b);
    Regrouped(p, a + b, c);
    Regrouped(p, a + b + c, d);
    Regrouped(p, a + b + c + d, e);
    Regrouped(p, a + b + c + d + e, f);
    Regrouped(p, a + b + c + d + e + f, g);
  }

  method WriteOrder(w: Writer, o: OrderState)
    requires StorableOrder(o)
    modifies w
    ensures w.out == old(w.out) + OrderBytes(o)
  {
    var kind := 1;
    if o.RestingPrice().Some? {
      kind := if o.Display() < o.remaining then 2 else 0;
    }
    w.U8(kind);
    w.U64(o.id);
    w.U32(o.account);
    w.U8(SideByte(o.side));
    w.I64(if o.RestingPrice().Some? then o.RestingPrice().value else 0);
    w.U64(o.remaining);
    w.U64(o.Display());
    SevenRegrouped(old(w.out), Emitted(StoredKind(o), 1), Emitted(o.id, 8), Emitted(o.account, 4),
                   Emitted(SideByte(o.side), 1), Emitted(PriceBits(o.RestingPrice()), 8),
                   Emitted(o.remaining, 8), Emitted(o.Display(), 8));
  }

  method WriteCommand(w: Writer, c: Command)
    requires Storable(c)
    modifies w
    ensures w.out == old(w.out) + (Emitted(CommandType(c), 1) + CommandBytes(c))
  {
    w.U8(CommandType(c));
    match c {
      case SubmitCommand(o) =>
        WriteOrder(w, o);
      case CancelCommand(id) =>
        w.U64(id);
      case ModifyCommand(id, quantity, price) =>
        w.U64(id);
        w.U64(quantity);
        w.U8(if price.Some? then 1 else 0);
        w.I64(if price.Some? then price.value else 0);
        ModifyRegrouped(old(w.out) + Emitted(3, 1), Emitted(id, 8), Emitted(quantity, 8),
                        Emitted(if price.Some? then 1 else 0, 1), Emitted(PriceBits(price), 8));
    }
    Regrouped(old(w.out), Emitted(CommandType(c), 1), CommandBytes(c));
  }

  lemma ModifyRegrouped(p: seq<Byte>, a: seq<Byte>, b: seq<Byte>, c: seq<Byte>, d: seq<Byte>)
    ensures p + a + b + c + d == p + (a + b + c + d)
  {
    Regrouped(p, a, b);
    Regrouped(p, a + b, c);
    Regrouped(p, a + b + c, d);
  }

  method EncodePayload(sequence: Sequence, c: Command) returns (payload: seq<Byte>)
    requires Storable(c)
    ensures payload == Payload(WalRecord(sequence, c))
  {
    var body := new Writer();
    body.U64(sequence);
    assert body.out == Emitted(sequence, 8);
    WriteCommand(body, c);
    payload := body.out;
    Regrouped(Emitted(sequence, 8), Emitted(CommandType(c), 1), CommandBytes(c));
  }

  /** Builds the payload, then the header that describes it, then puts the payload behind. */
  method EncodeRecord(table: seq<bv32>, sequence: Sequence, c: Command) returns (bytes: seq<Byte>)
    requires IsTable(table) && Storable(c)
    ensures bytes == Encoded(WalRecord(sequence, c))
  {
    var payload := EncodePayload(sequence, c);
    var crc := ComputeCrc32(table, payload);
    var header := new Writer();
    header.U32(|payload|);
    assert header.out == Emitted(|payload|, 4);
    bytes := header.out + CrcBytes(crc) + payload;
  }

  // ----- Decoding -----

  /** Any side byte but zero is taken for a sell. */
  function SideOf(raw: nat): Side {
    if raw == 0 then Buy else Sell
  }

  function OrderOf(kind: nat, id: nat, account: nat, side: Side, price: int, quantity: nat, display: nat)
    : Result<OrderState>
  {
    if kind == 0 then Success(NewLimit(id, side, account, quantity, price))
    else if kind == 1 then Success(NewMarket(id, side, account, quantity))
    else if kind == 2 then Success(NewIceberg(id, side, account, quantity, price, display))
    else Failure
  }

  /** The order stored from `pos` on, if its kind is known. */
  function OrderAt(bytes: seq<Byte>, pos: nat): Result<OrderState>
    requires pos + 38 <= |bytes|
  {
    OrderOf(NumberAt(bytes, pos, 1), NumberAt(bytes, pos + 1, 8), NumberAt(bytes, pos + 9, 4),
            SideOf(NumberAt(bytes, pos + 13, 1)), SignedAt(bytes, pos + 14), NumberAt(bytes, pos + 22, 8),
            NumberAt(bytes, pos + 30, 8))
  }

  function ModifyAt(bytes: seq<Byte>, pos: nat): Command
    requires pos + 25 <= |bytes|
  {
    ModifyCommand(NumberAt(bytes, pos, 8), NumberAt(bytes, pos + 8, 8),
                  if NumberAt(bytes, pos + 16, 1) != 0 then Some(SignedAt(bytes, pos + 17)) else None)
  }

  /** The command of a payload: its type must be known and its length exactly right. */
  function CommandOf(payload: seq<Byte>): Result<Command> {
    if |payload| < 9 then Failure
    else
      var kind := NumberAt(payload, 8, 1);
      if kind == 1 && |payload| == 47 then
        var o :- OrderAt(payload, 9);
        Success(SubmitCommand(o))
      else if kind == 2 && |payload| == 17 then Success(CancelCommand(NumberAt(payload, 9, 8)))
      else if kind == 3 && |payload| == 34 then Success(ModifyAt(payload, 9))
      else Failure
  }

  /** What the front of `bytes` holds: lengths first, then the checksum, then the payload itself. */
  function Decoded(bytes: seq<Byte>): (r: ReadResult)
    ensures r.Ok? ==> HEADER_SIZE < r.consumed <= |bytes|
  {
    if |bytes| < HEADER_SIZE then Incomplete
    else
      var length := NumberAt(bytes, 0, 4);
      if length == 0 || length > MAX_PAYLOAD then Corrupt
      else if |bytes| < HEADER_SIZE + length then Incomplete
      else
        var payload := bytes[HEADER_SIZE..HEADER_SIZE + length];
        if bytes[4..8] != CrcBytes(Checksum(payload)) then Corrupt
        else
          var command := CommandOf(payload);
          if command.Failure? then Corrupt
          else Ok(WalRecord(NumberAt(payload, 0, 8), command.value), HEADER_SIZE + length)
  }

  method ReadOrder(r: Reader) returns (o: Result<OrderState>)
    requires r.Valid()
    modifies r
    ensures r.Valid()
    ensures old(r.pos) + 38 <= |r.input| ==> o == OrderAt(r.input, old(r.pos)) && r.pos == old(r.pos) + 38
    ensures old(r.pos) + 38 > |r.input| ==> o.Failure?
  {
    var kind :- r.U8();
    var id :- r.U64();
    var account :- r.U32();
    var side :- r.U8();
    var price :- r.I64();
    var quantity :- r.U64();
    var display :- r.U64();
    o := OrderOf(kind, id, account, SideOf(side), price, quantity, display);
  }

  method ReadCommand(r: Reader) returns (c: Result<Command>)
    requires r.Valid() && r.pos == 8
    modifies r
    ensures c == CommandOf(r.input)
  {
    var kind :- r.U8();
    if kind == 1 {
      var o :- ReadOrder(r);
      c := Success(SubmitCommand(o));
    } else if kind == 2 {
      var id :- r.U64();
      c := Success(CancelCommand(id));
    } else if kind == 3 {
      var id :- r.U64();
      var quantity :- r.U64();
      var hasPrice :- r.U8();
      var price :- r.I64();
      c := Success(ModifyCommand(id, quantity, if hasPrice != 0 then Some(price) else None));
    } else {
      return Failure;
    }
    if r.pos != |r.input| {
      c := Failure;
    }
  }

  method DecodeRecord(table: seq<bv32>, bytes: seq<Byte>) returns (r: ReadResult)
    requires IsTable(table)
    ensures r == Decoded(bytes)
  {
    if |bytes| < HEADER_SIZE {
      return Incomplete;
    }
    var header := new Reader(bytes);
    var length := header.U32();
    if length.value == 0 || length.value > MAX_PAYLOAD {
      return Corrupt;
    }
    if |bytes| < HEADER_SIZE + length.value {
      return Incomplete;
    }
    var payload := bytes[HEADER_SIZE..HEADER_SIZE + length.value];
    var crc := ComputeCrc32(table, payload);
    if CrcOfBytes(bytes[4..8]) != crc {
      CrcBytesBack(crc);
      return Corrupt;
    }
    SameCrcBytes(bytes[4..8], crc);
    var reader := new Reader(payload);
    var sequence := reader.U64();
    if sequence.Failure? {
      return Corrupt;
    }
    var command := ReadCommand(reader);
    r := if command.Failure? then Corrupt else Ok(WalRecord(sequence.value, command.value), HEADER_SIZE + length.value);
  }

  lemma SameCrcBytes(bytes: seq<Byte>, crc: bv32)
    requires |bytes| == 4 && CrcOfBytes(bytes) == crc
    ensures bytes == CrcBytes(crc)
  {
    CrcBytesThere(bytes[0], bytes[1], bytes[2], bytes[3]);
    assert bytes == [bytes[0], bytes[1], bytes[2], bytes[3]];
  }

  // ----- Round trips -----

  lemma OrderPieces(a: seq<Byte>, b: seq<Byte>, c: seq<Byte>, d: seq<Byte>, e: seq<Byte>, f: seq<Byte>, g: seq<Byte>)
    requires |a| == 1 && |b| == 8 && |c| == 4 && |d| == 1 && |e| == 8 && |f| == 8 && |g| == 8
    ensures var whole := a + b + c + d + e + f + g;
            && whole[0..1] == a && whole[1..9] == b && whole[9..13] == c && whole[13..14] == d
            && whole[14..22] == e && whole[22..30] == f && whole[30..38] == g
  {
  }

  /** What a stored order is read back as: an iceberg that shows all it holds is a limit order. */
  function AsStored(o: OrderState): OrderState {
    match o.terms
    case Market => NewMarket(o.id, o.side, o.account, o.remaining)
    case Limit(limit) => NewLimit(o.id, o.side, o.account, o.remaining, limit)
    case Iceberg(limit, display, _) =>
      if display < o.remaining then NewIceberg(o.id, o.side, o.account, o.remaining, limit, display)
      else NewLimit(o.id, o.side, o.account, o.remaining, limit)
  }

  function CommandAsStored(c: Command): Command {
    if c.SubmitCommand? then SubmitCommand(AsStored(c.order)) else c
  }

  lemma OrderReadBack(o: OrderState)
    requires StorableOrder(o)
    ensures OrderAt(OrderBytes(o), 0) == Success(AsStored(o))
  {
    OrderFields(o);
  }

  lemma OrderFields(o: OrderState)
    requires StorableOrder(o)
    ensures var bytes := OrderBytes(o);
      && NumberAt(bytes, 0, 1) == StoredKind(o) && NumberAt(bytes, 1, 8) == o.id && NumberAt(bytes, 9, 4) == o.account
      && NumberAt(bytes, 13, 1) == SideByte(o.side) && NumberAt(bytes, 14, 8) == PriceBits(o.RestingPrice())
      && NumberAt(bytes, 22, 8) == o.remaining && NumberAt(bytes, 30, 8) == o.Display()
  {
    Capacities();
    OrderPieces(Emitted(StoredKind(o), 1), Emitted(o.id, 8), Emitted(o.account, 4), Emitted(SideByte(o.side), 1),
                Emitted(PriceBits(o.RestingPrice()), 8), Emitted(o.remaining, 8), Emitted(o.Display(), 8));
    AbsorbedEmitted(StoredKind(o), 1);
    AbsorbedEmitted(o.id, 8);
    AbsorbedEmitted(o.account, 4);
    AbsorbedEmitted(SideByte(o.side), 1);
    AbsorbedEmitted(PriceBits(o.RestingPrice()), 8);
    AbsorbedEmitted(o.remaining, 8);
    AbsorbedEmitted(o.Display(), 8);
  }

  lemma PayloadPieces(a: seq<Byte>, b: seq<Byte>, c: seq<Byte>)
    requires |a| == 8 && |b| == 1
    ensures var whole := a + b + c; whole[0..8] == a && whole[8..9] == b && whole[9..] == c
  {
  }

  lemma NumberInTail(bytes: seq<Byte>, from: nat, pos: nat, n: nat)
    requires from + pos + n <= |bytes|
    ensures NumberAt(bytes, from + pos, n) == NumberAt(bytes[from..], pos, n)
  {
    assert bytes[from + pos..from + pos + n] == bytes[from..][pos..pos + n];
  }

  lemma OrderInTail(bytes: seq<Byte>, from: nat)
    requires from + 38 <= |bytes|
    ensures OrderAt(bytes, from) == OrderAt(bytes[from..], 0)
  {
    NumberInTail(bytes, from, 0, 1);
    NumberInTail(bytes, from, 1, 8);
    NumberInTail(bytes, from, 9, 4);
    NumberInTail(bytes, from, 13, 1);
    NumberInTail(bytes, from, 14, 8);
    NumberInTail(bytes, from, 22, 8);
    NumberInTail(bytes, from, 30, 8);
  }

  lemma ModifyPieces(a: seq<Byte>, b: seq<Byte>, c: seq<Byte>, d: seq<Byte>)
    requires |a| == 8 && |b| == 8 && |c| == 1 && |d| == 8
    ensures var whole := a + b + c + d;
            whole[0..8] == a && whole[8..16] == b && whole[16..17] == c && whole[17..25] == d
  {
  }

  lemma ModifyReadBack(c: Command)
    requires c.ModifyCommand? && Storable(c)
    ensures ModifyAt(CommandBytes(c), 0) == c
  {
    Capacities();
    var flag := if c.price.Some? then 1 else 0;
    ModifyPieces(Emitted(c.id, 8), Emitted(c.quantity, 8), Emitted(flag, 1), Emitted(PriceBits(c.price), 8));
    AbsorbedEmitted(c.id, 8);
    AbsorbedEmitted(c.quantity, 8);
    AbsorbedEmitted(flag, 1);
    AbsorbedEmitted(PriceBits(c.price), 8);
  }

  lemma ModifyInTail(bytes: seq<Byte>, from: nat)
    requires from + 25 <= |bytes|
    ensures ModifyAt(bytes, from) == ModifyAt(bytes[from..], 0)
  {
    NumberInTail(bytes, from, 0, 8);
    NumberInTail(bytes, from, 8, 8);
    NumberInTail(bytes, from, 16, 1);
    NumberInTail(bytes, from, 17, 8);
  }

  lemma CommandReadBack(r: WalRecord)
    requires Storable(r.command) && r.sequence < TWO_TO_THE_64
    ensures CommandOf(Payload(r)) == Success(CommandAsStored(r.command))
    ensures NumberAt(Payload(r), 0, 8) == r.sequence
  {
    var payload, c := Payload(r), r.command;
    PayloadStart(r);
    match c {
      case SubmitCommand(o) =>
        OrderInTail(payload, 9);
        OrderReadBack(o);
      case CancelCommand(id) =>
        CancelInTail(payload, id);
      case ModifyCommand(_, _, _) =>
        ModifyInTail(payload, 9);
        ModifyReadBack(c);
    }
  }

  lemma PayloadStart(r: WalRecord)
    requires Storable(r.command) && r.sequence < TWO_TO_THE_64
    ensures var payload, c := Payload(r), r.command;
      NumberAt(payload, 0, 8) == r.sequence && NumberAt(payload, 8, 1) == CommandType(c) && payload[9..] == CommandBytes(c)
  {
    Capacities();
    PayloadPieces(Emitted(r.sequence, 8), Emitted(CommandType(r.command), 1), CommandBytes(r.command));
    AbsorbedEmitted(r.sequence, 8);
    AbsorbedEmitted(CommandType(r.command), 1);
  }

  lemma CancelInTail(payload: seq<Byte>, id: OrderId)
    requires |payload| == 17 && payload[9..] == Emitted(id, 8) && id < TWO_TO_THE_64
    ensures NumberAt(payload, 9, 8) == id
  {
    Capacities();
    assert payload[9..17] == payload[9..];
    AbsorbedEmitted(id, 8);
  }

  lemma FramedPieces(a: seq<Byte>, b: seq<Byte>, payload: seq<Byte>, more: seq<Byte>)
    requires |a| == 4 && |b| == 4
    ensures var whole := a + b + payload + more;
            whole[0..4] == a && whole[4..8] == b && whole[8..8 + |payload|] == payload
  {
  }

  /** Whatever follows it, an encoded record decodes to its command as stored, and takes its own length. */
  lemma RecordReadBack(r: WalRecord, more: seq<Byte>)
    requires Storable(r.command) && r.sequence < TWO_TO_THE_64
    ensures Decoded(Encoded(r) + more) == Ok(WalRecord(r.sequence, CommandAsStored(r.command)), |Encoded(r)|)
  {
    var payload := Payload(r);
    Capacities();
    AbsorbedEmitted(|payload|, 4);
    FramedPieces(Emitted(|payload|, 4), CrcBytes(Checksum(payload)), payload, more);
    CommandReadBack(r);
  }

  /** A freshly made order comes back as it was exactly when it is no iceberg that shows all it holds. */
  lemma StoredExactly(o: OrderState)
    requires o.Fresh()
    ensures AsStored(o) == o <==> !(o.terms.Iceberg? && o.terms.display == o.remaining)
  {
  }

  /** A record cut short anywhere is incomplete, never corrupt and never a record. */
  lemma CutRecord(r: WalRecord, k: nat)
    requires Storable(r.command) && k < |Encoded(r)|
    ensures Decoded(Encoded(r)[..k]) == Incomplete
  {
    if k >= HEADER_SIZE {
      var payload := Payload(r);
      Capacities();
      AbsorbedEmitted(|payload|, 4);
      assert Encoded(r)[..k][0..4] == Emitted(|payload|, 4);
    }
  }

  /** Whatever the decoder returns fits the widths it was read from, so it can be written again. */
  lemma DecodedStorable(bytes: seq<Byte>)
    ensures Decoded(bytes).Ok? ==>
              Storable(Decoded(bytes).record.command) && Decoded(bytes).record.sequence < TWO_TO_THE_64
  {
    Capacities();
  }

  // ----- Damage -----

  lemma CrcBytesApart(a: bv32, b: bv32)
    requires CrcBytes(a) == CrcBytes(b)
    ensures a == b
  {
    CrcBytesBack(a);
    CrcBytesBack(b);
  }

  /** A record whose payload was damaged by one burst of up to 32 bits is called corrupt. */
  lemma BurstIsCorrupt(payload: seq<Byte>, damaged: seq<Byte>, from: nat, to: nat, more: seq<Byte>)
    requires 0 < |payload| <= MAX_PAYLOAD && |damaged| == |payload|
    requires BurstApart(payload, damaged, from, to)
    ensures Decoded(Framed(payload)[..HEADER_SIZE] + damaged + more) == Corrupt
  {
    Capacities();
    AbsorbedEmitted(|payload|, 4);
    var a, b := Emitted(|payload|, 4), CrcBytes(Checksum(payload));
    assert Framed(payload)[..HEADER_SIZE] == a + b;
    FramedPieces(a, b, damaged, more);
    BurstDetected(payload, damaged, from, to);
    if CrcBytes(Checksum(payload)) == CrcBytes(Checksum(damaged)) {
      CrcBytesApart(Checksum(payload), Checksum(damaged));
    }
  }

  /** So is one in which any of four consecutive bytes were changed. */
  lemma FourBytesCorrupt(payload: seq<Byte>, damaged: seq<Byte>, i: nat, n: nat, more: seq<Byte>)
    requires 0 < |payload| <= MAX_PAYLOAD && |damaged| == |payload| && damaged != payload
    requires n <= 4 && i + n <= |payload|
    requires payload[..i] == damaged[..i] && payload[i + n..] == damaged[i + n..]
    ensures Decoded(Framed(payload)[..HEADER_SIZE] + damaged + more) == Corrupt
  {
    FourBytesDetected(payload, damaged, i, n);
    BurstIsCorrupt(payload, damaged, 8 * i, 8 * (i + n), more);
  }

  // ----- Scraps -----

  /** A number under 256 is its own lowest byte, with nothing behind it. */
  lemma SmallNumber(v: nat)
    requires v < 256
    ensures Emitted(v, 4) == [v as bv8, 0, 0, 0] && (v as bv8) as nat == v
  {
    ByteOfNumber(v);
    assert Emitted(0, 3) == [0, 0, 0] by {
      assert Emitted(0, 2) == [0, 0];
    }
  }

  lemma LengthByte(payload: seq<Byte>)
    requires 17 <= |payload| < 256
    ensures Framed(payload)[0] as nat == |payload|
  {
    SmallNumber(|payload|);
    assert Framed(payload)[0] == Emitted(|payload|, 4)[0];
  }

  lemma HighBytes(bytes: seq<Byte>)
    requires |bytes| == 4
    ensures Absorbed(bytes) >= 256 * (bytes[1] as nat + bytes[2] as nat + bytes[3] as nat)
  {
    assert bytes[1..][1..] == bytes[2..] && bytes[2..][1..] == bytes[3..] && bytes[3..][1..] == [];
    assert Absorbed(bytes[3..]) == bytes[3] as nat;
    assert Absorbed(bytes[2..]) == bytes[2] as nat + 256 * Absorbed(bytes[3..]);
    assert Absorbed(bytes[1..]) == bytes[1] as nat + 256 * Absorbed(bytes[2..]);
  }

  lemma HighLength(bytes: seq<Byte>, n: nat)
    requires |bytes| >= HEADER_SIZE && 1 <= n <= 3 && bytes[n] as nat >= 17
    ensures Decoded(bytes) == Corrupt
  {
    HighBytes(bytes[0..4]);
    assert bytes[0..4][n] == bytes[n];
  }

  /**
   When a write failed after one to three bytes, the next record written behind them lends its length
   to the top of theirs: together they spell a length no record may have.
   */
  lemma ScrapIsCorrupt(scrap: seq<Byte>, payload: seq<Byte>, more: seq<Byte>)
    requires 1 <= |scrap| <= 3 && 17 <= |payload| < 256
    ensures Decoded(scrap + (Framed(payload) + more)) == Corrupt
  {
    LengthByte(payload);
    HighLength(scrap + (Framed(payload) + more), |scrap|);
  }

  /**
   When a write failed with at most four bytes to go, what is written next fills them in: unless it spells
   just the missing bytes the record is corrupt, and if it does the failed record is read as if whole.
   */
  lemma LateScrap(payload: seq<Byte>, missing: nat, next: seq<Byte>)
    requires 0 < |payload| <= MAX_PAYLOAD && 1 <= missing <= 4 && missing <= |payload| && missing <= |next|
    ensures var cut := |payload| - missing;
      var scrap := Framed(payload)[..HEADER_SIZE + cut];
      && (next[..missing] != payload[cut..] ==> Decoded(scrap + next) == Corrupt)
      && (next[..missing] == payload[cut..] ==> scrap + next == Framed(payload) + next[missing..])
  {
    var cut := |payload| - missing;
    var head, filled := Framed(payload)[..HEADER_SIZE], payload[..cut] + next[..missing];
    FramedCut(payload, cut, next, missing);
    if next[..missing] == payload[cut..] {
      assert filled == payload;
    } else {
      assert filled[cut..] == next[..missing];
      FourBytesCorrupt(payload, filled, cut, missing, next[missing..]);
    }
  }

  lemma FramedCut(payload: seq<Byte>, cut: nat, next: seq<Byte>, missing: nat)
    requires cut <= |payload| && missing <= |next|
    ensures var head := Framed(payload)[..HEADER_SIZE];
      && Framed(payload)[..HEADER_SIZE + cut] + next == head + (payload[..cut] + next[..missing]) + next[missing..]
      && Framed(payload) == head + payload
  {
    assert Framed(payload)[..HEADER_SIZE + cut] == Framed(payload)[..HEADER_SIZE] + payload[..cut];
  }
}
