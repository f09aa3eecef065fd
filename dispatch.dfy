/**
  The dispatch table and the coordinator logic of `handle_request`, as functions:
  look the request PDU's class up in the table, fail with IllegalFunction when no
  entry matches, run the entry's handler, and turn any domain error into an
  exception PDU carrying the request's function code. The answer reuses the
  request's transaction identifier, as the MBAP header requires (section 3.1.3 of
  the MODBUS Messaging on TCP/IP Implementation Guide V1.0b).
 */
module Dispatch {
  import opened ModbusTypes
  import Storage
  import opened Handlers

  /** The handler an entry names (a method name symbol in the table). */
  datatype Handler =
    | ReadCoilsHandler
    | ReadInputStatusHandler
    | ReadInputRegistersHandler
    | ReadHoldingRegistersHandler
    | WriteSingleCoilHandler
    | WriteMultipleRegistersHandler

  /** One dispatch entry: the request class it serves, its handler and the response
      class it declares. */
  datatype Entry = Entry(request: RequestKind, handler: Handler, response: ResponseKind)

  /** The dispatch table, holding the six handlers of the server. */
  const Transactions: seq<Entry> := [
    Entry(ReadCoilsRequest, ReadCoilsHandler, ReadCoilsResponseKind),
    Entry(ReadInputStatusRequest, ReadInputStatusHandler, ReadInputStatusResponseKind),
    Entry(ReadHoldingRegistersRequest, ReadHoldingRegistersHandler, ReadHoldingRegistersResponseKind),
    Entry(ReadInputRegistersRequest, ReadInputRegistersHandler, ReadInputRegistersResponseKind),
    Entry(WriteSingleCoilRequest, WriteSingleCoilHandler, WriteSingleCoilResponseKind),
    Entry(WriteMultipleRegistersRequest, WriteMultipleRegistersHandler, WriteMultipleRegistersResponseKind)
  ]

  /** The request class whose fields a handler reads. */
  function Serves(h: Handler): RequestKind
  {
    match h
    case ReadCoilsHandler => ReadCoilsRequest
    case ReadInputStatusHandler => ReadInputStatusRequest
    case ReadInputRegistersHandler => ReadInputRegistersRequest
    case ReadHoldingRegistersHandler => ReadHoldingRegistersRequest
    case WriteSingleCoilHandler => WriteSingleCoilRequest
    case WriteMultipleRegistersHandler => WriteMultipleRegistersRequest
  }

  /** Every entry's handler reads the request class the entry is keyed by. */
  predicate HandlersMatch(table: seq<Entry>)
  {
    forall i :: 0 <= i < |table| ==> Serves(table[i].handler) == table[i].request
  }

  /** `TRANSACTIONS.find { |t| pdu.is_a? t[:request] }`: the index of the first entry
      whose request class is `kind`, or None when there is none. */
  function Find(table: seq<Entry>, kind: RequestKind): (r: Option<nat>)
    ensures r.Some? ==> r.value < |table| && table[r.value].request == kind
    ensures r.Some? ==> forall j :: 0 <= j < r.value ==> table[j].request != kind
    ensures r.None? ==> forall j :: 0 <= j < |table| ==> table[j].request != kind
  {
    if |table| == 0 then None
    else if table[0].request == kind then Some(0)
    else
      match Find(table[1..], kind)
      case None => None
      case Some(i) => Some(i + 1)
  }

  /** `send transaction[:handler]`: runs a handler on a request of its class. Read
      handlers leave the storage as it was. */
  function Run(h: Handler, addressToNumber: Translator, m: Storage.Memory, pdu: RequestPdu): (s: Step)
    requires pdu.Kind() == Serves(h)
    ensures (h != WriteSingleCoilHandler && h != WriteMultipleRegistersHandler) ==> s.memory == m
    ensures s.result.Ok? ==> s.result.value.Kind() != ExceptionResponseKind
  {
    match h
    case ReadCoilsHandler => Step(m, HandleReadCoils(addressToNumber, m, pdu))
    case ReadInputStatusHandler => Step(m, HandleReadInputStatus(addressToNumber, m, pdu))
    case ReadInputRegistersHandler => Step(m, HandleReadInputRegisters(addressToNumber, m, pdu))
    case ReadHoldingRegistersHandler => Step(m, HandleReadHoldingRegisters(addressToNumber, m, pdu))
    case WriteSingleCoilHandler => HandleWriteSingleCoil(addressToNumber, m, pdu)
    case WriteMultipleRegistersHandler => HandleWriteMultipleRegisters(addressToNumber, m, pdu)
  }

  lemma TransactionsHandlersMatch()
    ensures HandlersMatch(Transactions)
  {
    forall i | 0 <= i < |Transactions| ensures Serves(Transactions[i].handler) == Transactions[i].request {
      assert i in {0, 1, 2, 3, 4, 5};
    }
  }

  /** The guarded part of `handle_request`: look up, check, run the handler. The
      storage is untouched unless a handler ran. */
  function Attempt(addressToNumber: Translator, m: Storage.Memory, pdu: RequestPdu): (s: Step)
    ensures Find(Transactions, pdu.Kind()).None? ==> s == Step(m, Err(IllegalFunction))
    ensures Find(Transactions, pdu.Kind()).Some? ==>
              var h := Transactions[Find(Transactions, pdu.Kind()).value].handler;
              Serves(h) == pdu.Kind() && s == Run(h, addressToNumber, m, pdu)
  {
    match Find(Transactions, pdu.Kind())
    case None => Step(m, Err(IllegalFunction))
    case Some(i) =>
      if Transactions[i].request != pdu.Kind() then
        Step(m, Err(ServerDeviceFailure))
      else
        TransactionsHandlersMatch();
        Run(Transactions[i].handler, addressToNumber, m, pdu)
  }

  /** The guarded part of `handle_request` without the class check of the found
      entry: the reference against which that check is shown to be dead. */
  function AttemptUnguarded(addressToNumber: Translator, m: Storage.Memory, pdu: RequestPdu): Step
  {
    match Find(Transactions, pdu.Kind())
    case None => Step(m, Err(IllegalFunction))
    case Some(i) =>
      TransactionsHandlersMatch();
      Run(Transactions[i].handler, addressToNumber, m, pdu)
  }

  /** The storage after a request and the response ADU sent for it. */
  datatype Outcome = Outcome(memory: Storage.Memory, reply: ResponseAdu)

  /** `handle_request` followed by `send_pdu`: the reply carries the request's
      transaction identifier, and a domain error becomes an exception PDU that
      carries the request's function code and that error. */
  function Serve(addressToNumber: Translator, m: Storage.Memory, adu: RequestAdu): (o: Outcome)
    ensures o.reply.transactionIdent == adu.transactionIdent
    ensures o.memory == Attempt(addressToNumber, m, adu.pdu).memory
    ensures o.reply.pdu.ExceptionResponse? <==> Attempt(addressToNumber, m, adu.pdu).result.Err?
    ensures o.reply.pdu.ExceptionResponse? ==>
              o.reply.pdu.funcCode == adu.pdu.FuncCode()
              && o.reply.pdu.exceptionCode == Attempt(addressToNumber, m, adu.pdu).result.error
    ensures Attempt(addressToNumber, m, adu.pdu).result.Ok? ==>
              o.reply.pdu == Attempt(addressToNumber, m, adu.pdu).result.value
  {
    var s := Attempt(addressToNumber, m, adu.pdu);
    var pdu := match s.result
               case Ok(p) => p
               case Err(e) => ExceptionResponse(adu.pdu.FuncCode(), e);
    Outcome(s.memory, Adu(adu.transactionIdent, pdu))
  }

  /** The table has an entry for exactly the six supported request classes. */
  lemma FindSupported(pdu: RequestPdu)
    ensures Find(Transactions, pdu.Kind()).Some? <==> !pdu.Unsupported?
  {
    var r := Find(Transactions, pdu.Kind());
    if pdu.Unsupported? {
      assert r.None?;
    } else {
      var i := match pdu.Kind()
               case ReadCoilsRequest => 0
               case ReadInputStatusRequest => 1
               case ReadHoldingRegistersRequest => 2
               case ReadInputRegistersRequest => 3
               case WriteSingleCoilRequest => 4
               case _ => 5;
      assert Transactions[i].request == pdu.Kind();
    }
  }

  /** The ServerDeviceFailure check of `handle_request` is dead whatever the storage
      does: an entry found by the lookup always matches the request class, so the
      guarded step is the same with and without the check. */
  lemma DeviceFailureCheckDead(addressToNumber: Translator, m: Storage.Memory, pdu: RequestPdu)
    ensures Attempt(addressToNumber, m, pdu) == AttemptUnguarded(addressToNumber, m, pdu)
  {
  }

  /** The handler that serves each supported request class. */
  function HandlerFor(kind: RequestKind): (h: Handler)
    requires !kind.OtherRequest?
    ensures Serves(h) == kind
  {
    match kind
    case ReadCoilsRequest => ReadCoilsHandler
    case ReadInputStatusRequest => ReadInputStatusHandler
    case ReadHoldingRegistersRequest => ReadHoldingRegistersHandler
    case ReadInputRegistersRequest => ReadInputRegistersHandler
    case WriteSingleCoilRequest => WriteSingleCoilHandler
    case WriteMultipleRegistersRequest => WriteMultipleRegistersHandler
  }

  /** A supported request is handled by the handler of its class: the storage is the
      one that handler leaves, a success is sent as the handler's own response, and
      a handler error is sent as an exception with the request's function code. */
  lemma SupportedRunsHandler(addressToNumber: Translator, m: Storage.Memory, adu: RequestAdu)
    requires !adu.pdu.Unsupported?
    ensures var s := Run(HandlerFor(adu.pdu.Kind()), addressToNumber, m, adu.pdu);
            var o := Serve(addressToNumber, m, adu);
            && o.memory == s.memory
            && (s.result.Ok? ==> o.reply == Adu(adu.transactionIdent, s.result.value))
            && (s.result.Err? ==> o.reply == Adu(adu.transactionIdent, ExceptionResponse(adu.pdu.FuncCode(), s.result.error)))
  {
    FindSupported(adu.pdu);
    TransactionsHandlersMatch();
  }

  /** The write responses echo the request's wire start address end to end, not
      only inside the handler. */
  lemma WritesEchoWireAddress(addressToNumber: Translator, m: Storage.Memory, adu: RequestAdu)
    requires adu.pdu.WriteSingleCoil? || adu.pdu.WriteMultipleRegisters?
    ensures var reply := Serve(addressToNumber, m, adu).reply.pdu;
            !reply.ExceptionResponse? ==> reply.startAddr == adu.pdu.startAddr
  {
    SupportedRunsHandler(addressToNumber, m, adu);
  }

  /** A request is answered with IllegalFunction, storage untouched, exactly when
      its class has no dispatch entry; the exception carries the request's own
      function code. The direction "only then" also relies on the storage of
      `storage.dfy` never raising IllegalFunction; `FindSupported` states the part
      that holds for any storage (a supported class is always found). */
  lemma UnsupportedIsIllegalFunction(addressToNumber: Translator, m: Storage.Memory, adu: RequestAdu)
    ensures var o := Serve(addressToNumber, m, adu);
            o == Outcome(m, Adu(adu.transactionIdent, ExceptionResponse(adu.pdu.FuncCode(), IllegalFunction)))
            <==> adu.pdu.Unsupported?
  {
    FindSupported(adu.pdu);
  }

  /** Requests other than the two writes leave the storage as it was. */
  lemma OnlyWritesChangeStorage(addressToNumber: Translator, m: Storage.Memory, adu: RequestAdu)
    requires !adu.pdu.WriteSingleCoil? && !adu.pdu.WriteMultipleRegisters?
    ensures Serve(addressToNumber, m, adu).memory == m
  {
    TransactionsHandlersMatch();
  }

  /** A successful handler answers with the response class its dispatch entry declares. */
  lemma ResponseMatchesEntry(i: nat, addressToNumber: Translator, m: Storage.Memory, pdu: RequestPdu)
    requires i < |Transactions| && Transactions[i].request == pdu.Kind()
    ensures Serves(Transactions[i].handler) == pdu.Kind()
    ensures var s := Run(Transactions[i].handler, addressToNumber, m, pdu);
            s.result.Ok? ==> s.result.value.Kind() == Transactions[i].response
  {
    assert i in {0, 1, 2, 3, 4, 5};
  }

  /** Read Holding Registers at address 0, count 2, over a backend holding 10 and
      20 there: the reply carries [10, 20] under the request's identifier. */
  lemma ReadHoldingRegistersExample(addressToNumber: Translator, m: Storage.Memory, ident: Word)
    requires Storage.ReadRegisters(m, addressToNumber(HoldingRegisters, 0), 2) == Ok([10, 20])
    ensures Serve(addressToNumber, m, Adu(ident, ReadHoldingRegisters(0, 2)))
            == Outcome(m, Adu(ident, ReadHoldingRegistersResponse([10, 20])))
  {
    FindSupported(ReadHoldingRegisters(0, 2));
  }

  /** Write Single Coil at address 5 with value true, accepted by the backend: the
      reply echoes address 5 and the value true. */
  lemma WriteSingleCoilExample(addressToNumber: Translator, m: Storage.Memory, ident: Word)
    requires addressToNumber(Coils, 5) in m.bits
    ensures Serve(addressToNumber, m, Adu(ident, WriteSingleCoil(5, true))).reply
            == Adu(ident, WriteSingleCoilResponse(5, true))
  {
    FindSupported(WriteSingleCoil(5, true));
  }

  /** Write Multiple Registers at address 100 with three values, out of the
      backend's range: the reply is an IllegalDataAddress exception for function
      code 0x10 and nothing is written. */
  lemma WriteMultipleRegistersOutOfRangeExample(addressToNumber: Translator, m: Storage.Memory, ident: Word)
    requires !Storage.RegistersPresent(m, addressToNumber(HoldingRegisters, 100), 3)
    ensures Serve(addressToNumber, m, Adu(ident, WriteMultipleRegisters(100, [1, 2, 3])))
            == Outcome(m, Adu(ident, ExceptionResponse(0x10, IllegalDataAddress)))
  {
    FindSupported(WriteMultipleRegisters(100, [1, 2, 3]));
  }
}
