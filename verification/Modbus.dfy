/** Requests, replies and error classes of the Modbus client
    (infrastructure/modbus/client.go, infrastructure/modbus/decode.go). */
module Modbus {
  import opened Words
  import opened Snapshots

  const MAX_REGISTERS_PER_READ := 125

  /** What a caller asks of the client. A Modify carries the caller's function; None is a panic in it. */
  datatype Request =
    | Read(bank: BankName, start: Addr, count: Addr)
    | Write(addr: Addr, value: Word)
    | Modify(addr: Addr, update: Word -> Option<Word>)

  /** The wire operation a request is performing. A Modify has two: its read, then its write. */
  datatype Leg = First | Second(value: Word)

  /** One wire operation: function codes 0x03/0x04 (read) and 0x06 (write single register). */
  datatype Access = ReadRegisters(bank: BankName, start: Addr, count: Addr) | WriteRegister(addr: Addr, value: Word)

  function AccessOf(req: Request, leg: Leg): Access {
    match (req, leg)
    case (Read(bank, start, count), _) => ReadRegisters(bank, start, count)
    case (Write(addr, value), _) => WriteRegister(addr, value)
    case (Modify(addr, _), First) => ReadRegisters(HoldingRegisters, addr, 1)
    case (Modify(addr, _), Second(value)) => WriteRegister(addr, value)
  }

  /** The client refuses a read of no register, or of more than one request may carry, without any I/O. */
  predicate ValidCount(req: Request) {
    req.Read? ==> 0 < req.count <= MAX_REGISTERS_PER_READ
  }

  // ----- Errors

  /** What errors.As and errors.Is can find in the chain of a transport library error. */
  datatype RawError = RawError(timeout: bool, eof: bool, netOp: bool, exception: Option<Byte>)

  datatype ErrorClass =
    | Timeout | ConnectionLost
    | IllegalFunction | IllegalAddress | IllegalDataValue | ServerFailure
    | Unclassified

  /** WrapError's case order: timeout, then torn connection, then exception code. */
  function Classify(e: RawError): ErrorClass {
    if e.timeout then Timeout
    else if e.eof || e.netOp then ConnectionLost
    else match e.exception
      case Some(1) => IllegalFunction
      case Some(2) => IllegalAddress
      case Some(3) => IllegalDataValue
      case Some(4) => ServerFailure
      case _ => Unclassified
  }

  /** The classes on which handleOpError drops the connection. */
  predicate IsTransportError(e: RawError) {
    Classify(e) == Timeout || Classify(e) == ConnectionLost
  }

  /** The fault is one of the network's: a deadline, an end of file, or any other failure of the socket. */
  predicate IsNetworkFault(e: RawError) {
    e.timeout || e.eof || e.netOp
  }

  /** The class of each kind of fault. A network fault hides an exception code, and a timeout any other network fault;
      codes 1 to 4 (section 7 of the MODBUS Application Protocol Specification V1.1b3) have classes of their own. The
      connection is dropped exactly on network faults. */
  lemma FaultClasses(e: RawError)
    ensures Classify(e) == Timeout <==> e.timeout
    ensures Classify(e) == ConnectionLost <==> !e.timeout && IsNetworkFault(e)
    ensures Classify(e) == IllegalFunction <==> !IsNetworkFault(e) && e.exception == Some(1)
    ensures Classify(e) == IllegalAddress <==> !IsNetworkFault(e) && e.exception == Some(2)
    ensures Classify(e) == IllegalDataValue <==> !IsNetworkFault(e) && e.exception == Some(3)
    ensures Classify(e) == ServerFailure <==> !IsNetworkFault(e) && e.exception == Some(4)
    ensures IsTransportError(e) <==> IsNetworkFault(e)
  {
  }

  datatype Error =
    | NotConnected
    | BadCount
    | GuardCancelled
    | OddByteCount
    | WrongRegisterCount
    | ModifyPanicked
    | Failed(kind: ErrorClass)

  datatype Result = Ok(words: seq<Word>) | Err(error: Error)

  // ----- Replies

  /** What the transport library hands back for one wire operation. A failed write may or may not have
      reached the controller. */
  datatype Reply = Data(bytes: seq<Byte>) | Ack | Fault(raw: RawError, applied: bool)

  /** The controller and library stay within the protocol: a read is answered by the addressed registers in
      wire order, by a reply of another length, or by a fault; a write by an acknowledgement or a fault. */
  predicate MayReply(m: Memory, access: Access, reply: Reply) {
    match access
    case ReadRegisters(bank, start, count) =>
      (match reply
       case Data(bytes) =>
         |bytes| == 2 * count ==> start + count <= BANK_SIZE && bytes == Encode(Slice(m, bank, start, count))
       case Ack => false
       case Fault(_, applied) => !applied)
    case WriteRegister(_, _) => !reply.Data?
  }

  predicate Applied(reply: Reply) {
    reply.Ack? || (reply.Fault? && reply.applied)
  }

  function AfterAccess(m: Memory, access: Access, reply: Reply): Memory {
    if access.WriteRegister? && Applied(reply) then m.(holding := m.holding[access.addr := access.value]) else m
  }

  predicate DropsConnection(reply: Reply) {
    reply.Fault? && IsTransportError(reply.raw)
  }

  /** A write reaches the register when it is acknowledged, and may when it fails; nothing else changes the memory. */
  lemma WritesReach(m: Memory, addr: Addr, value: Word, raw: RawError)
    ensures forall reply :: MayReply(m, WriteRegister(addr, value), reply) <==> reply.Ack? || reply.Fault?
    ensures AfterAccess(m, WriteRegister(addr, value), Ack).holding == m.holding[addr := value]
    ensures AfterAccess(m, WriteRegister(addr, value), Fault(raw, true)).holding == m.holding[addr := value]
    ensures AfterAccess(m, WriteRegister(addr, value), Fault(raw, false)) == m
  {
  }

  // ----- What a reply means to the request

  /** A request after one reply: finished with a result, or on to its second wire operation. */
  datatype Outcome = Finished(result: Result) | Continue(value: Word)

  function ReadResult(bytes: seq<Byte>): Result {
    if |bytes| % 2 != 0 then Err(OddByteCount) else Ok(Decode(bytes))
  }

  function Judge(req: Request, leg: Leg, reply: Reply): Outcome {
    match reply
    case Fault(raw, _) => Finished(Err(Failed(Classify(raw))))
    case Ack => Finished(Ok([]))
    case Data(bytes) =>
      match ReadResult(bytes)
      case Err(e) => Finished(Err(e))
      case Ok(words) =>
        if !req.Modify? || leg.Second? then Finished(Ok(words))
        else if |words| != 1 then Finished(Err(WrongRegisterCount))
        else match req.update(words[0])
          case None => Finished(Err(ModifyPanicked))
          case Some(v) => Continue(v)
  }

  /** What the caller learns: a fault's class; for an odd number of bytes, that; from a write's acknowledgement,
      success. */
  lemma RepliesMean(req: Request, leg: Leg, reply: Reply)
    ensures reply.Fault? ==> Judge(req, leg, reply) == Finished(Err(Failed(Classify(reply.raw))))
    ensures reply.Data? && |reply.bytes| % 2 == 1 ==> Judge(req, leg, reply) == Finished(Err(OddByteCount))
    ensures reply.Ack? ==> Judge(req, leg, reply).Finished? && Judge(req, leg, reply).result.Ok?
    ensures req.Modify? && leg.First? && reply.Data? && |reply.bytes| % 2 == 0 && |reply.bytes| != 2 ==>
              Judge(req, leg, reply) == Finished(Err(WrongRegisterCount))
    ensures req.Modify? && leg.First? && reply.Data? && |reply.bytes| == 2 ==>
              match req.update(Decode(reply.bytes)[0])
              case None => Judge(req, leg, reply) == Finished(Err(ModifyPanicked))
              case Some(v) => Judge(req, leg, reply) == Continue(v)
  {
  }

  /** The port promises as many registers as were asked for; the client passes on any even number of bytes. A read
      returns another number exactly when the reply has one. */
  lemma CountIsUnchecked(bank: BankName, start: Addr, count: Addr, bytes: seq<Byte>)
    ensures var out := Judge(Read(bank, start, count), First, Data(bytes));
            (out.Finished? && out.result.Ok? && |out.result.words| != count)
            <==> |bytes| % 2 == 0 && |bytes| != 2 * count
  {
  }

  /** For example one register where two were asked for. */
  lemma ShortReply(m: Memory)
    ensures MayReply(m, ReadRegisters(HoldingRegisters, 31, 2), Data([0, 215]))
    ensures Judge(Read(HoldingRegisters, 31, 2), First, Data([0, 215])) == Finished(Ok([215]))
  {
    assert Decode([0, 215]) == [215];
  }
}
