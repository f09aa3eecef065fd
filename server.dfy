/**
  The stateful side of the server transaction: the connection a transaction borrows
  (its storage and the ADUs it has sent), the transaction object with its request
  and response ADU fields, and the receive step that decodes a buffer and, on
  success, runs one transaction to completion.
 */
module Server {
  import opened ModbusTypes
  import Storage
  import Handlers
  import opened Dispatch

  /** The connection as the transaction layer sees it: the storage it reaches through
      `read_bits`/`write_bit`/... and the ADUs handed to `send_data`, in order. An ADU
      stands for its own encoding. */
  class Connection {
    var memory: Storage.Memory
    var sent: seq<ResponseAdu>

    constructor(memory: Storage.Memory)
      ensures this.memory == memory && sent == []
    {
      this.memory := memory;
      sent := [];
    }

    /** `write_bit(number, value)`: answers with the value applied. */
    method WriteBit(number: nat, value: bool) returns (applied: Result<bool>)
      modifies this`memory
      ensures (memory, applied) == Storage.WriteBit(old(memory), number, value)
    {
      var (m', r) := Storage.WriteBit(memory, number, value);
      memory, applied := m', r;
    }

    /** `write_registers(number, values)`: answers with the count written. */
    method WriteRegisters(number: nat, values: seq<Word>) returns (written: Result<nat>)
      modifies this`memory
      ensures (memory, written) == Storage.WriteRegisters(old(memory), number, values)
    {
      var (m', r) := Storage.WriteRegisters(memory, number, values);
      memory, written := m', r;
    }

    /** `send_data`: one more ADU goes out. */
    method SendData(adu: ResponseAdu)
      modifies this`sent
      ensures sent == old(sent) + [adu]
    {
      sent := sent + [adu];
    }
  }

  /** One server transaction, bound to the connection it answers on. */
  class Transaction {
    const conn: Connection
    const addressToNumber: Translator
    var requestAdu: Option<RequestAdu>
    var responseAdu: Option<ResponseAdu>

    constructor(conn: Connection, addressToNumber: Translator)
      ensures this.conn == conn && this.addressToNumber == addressToNumber
      ensures requestAdu == None && responseAdu == None
    {
      this.conn := conn;
      this.addressToNumber := addressToNumber;
      requestAdu := None;
      responseAdu := None;
    }

    /** `send_pdu`: wraps the PDU in a response ADU that reuses the request's
        transaction identifier, records it and sends exactly that ADU. */
    method SendPdu(pdu: ResponsePdu)
      requires requestAdu.Some?
      modifies this`responseAdu, conn`sent
      ensures responseAdu == Some(Adu(requestAdu.value.transactionIdent, pdu))
      ensures conn.sent == old(conn.sent) + [responseAdu.value]
    {
      responseAdu := Some(Adu(requestAdu.value.transactionIdent, pdu));
      conn.SendData(responseAdu.value);
    }

    /** `handle_write_single_coil`: writes through the connection and echoes the wire
        start address with the value applied. */
    method HandleWriteSingleCoil() returns (r: Result<ResponsePdu>)
      requires requestAdu.Some? && requestAdu.value.pdu.WriteSingleCoil?
      modifies conn`memory
      ensures Handlers.Step(conn.memory, r)
              == Handlers.HandleWriteSingleCoil(addressToNumber, old(conn.memory), requestAdu.value.pdu)
    {
      var pdu := requestAdu.value.pdu;
      var number := addressToNumber(Coils, pdu.startAddr);
      var value := conn.WriteBit(number, pdu.value);
      match value
      case Err(e) => r := Err(e);
      case Ok(v) => r := Ok(WriteSingleCoilResponse(pdu.startAddr, v));
    }

    /** `handle_write_multiple_registers`: writes through the connection and echoes
        the wire start address with the count written. */
    method HandleWriteMultipleRegisters() returns (r: Result<ResponsePdu>)
      requires requestAdu.Some? && requestAdu.value.pdu.WriteMultipleRegisters?
      modifies conn`memory
      ensures Handlers.Step(conn.memory, r)
              == Handlers.HandleWriteMultipleRegisters(addressToNumber, old(conn.memory), requestAdu.value.pdu)
    {
      var pdu := requestAdu.value.pdu;
      var number := addressToNumber(HoldingRegisters, pdu.startAddr);
      var regCount := conn.WriteRegisters(number, pdu.regValues);
      match regCount
      case Err(e) => r := Err(e);
      case Ok(n) => r := Ok(WriteMultipleRegistersResponse(pdu.startAddr, n));
    }

    /** `send transaction[:handler]`: the read handlers compute their response from
        the connection's storage; the write handlers change it. */
    method Invoke(h: Handler) returns (r: Result<ResponsePdu>)
      requires requestAdu.Some? && requestAdu.value.pdu.Kind() == Serves(h)
      modifies conn`memory
      ensures Handlers.Step(conn.memory, r) == Run(h, addressToNumber, old(conn.memory), requestAdu.value.pdu)
    {
      var pdu := requestAdu.value.pdu;
      match h
      case ReadCoilsHandler => r := Handlers.HandleReadCoils(addressToNumber, conn.memory, pdu);
      case ReadInputStatusHandler => r := Handlers.HandleReadInputStatus(addressToNumber, conn.memory, pdu);
      case ReadInputRegistersHandler => r := Handlers.HandleReadInputRegisters(addressToNumber, conn.memory, pdu);
      case ReadHoldingRegistersHandler => r := Handlers.HandleReadHoldingRegisters(addressToNumber, conn.memory, pdu);
      case WriteSingleCoilHandler => r := HandleWriteSingleCoil();
      case WriteMultipleRegistersHandler => r := HandleWriteMultipleRegisters();
    }

    /** `handle_request`: records the request, dispatches it and sends exactly one
        response ADU, a success PDU or an exception PDU built from the domain error
        and the request's function code. */
    method HandleRequest(adu: RequestAdu)
      modifies this`requestAdu, this`responseAdu, conn`memory, conn`sent
      ensures requestAdu == Some(adu)
      ensures var o := Serve(addressToNumber, old(conn.memory), adu);
              && conn.memory == o.memory
              && responseAdu == Some(o.reply)
              && conn.sent == old(conn.sent) + [o.reply]
    {
      requestAdu := Some(adu);
      var result: Result<ResponsePdu>;
      var transaction := Find(Transactions, adu.pdu.Kind());
      if transaction.None? {
        result := Err(IllegalFunction);
      } else if Transactions[transaction.value].request != requestAdu.value.pdu.Kind() {
        result := Err(ServerDeviceFailure);
      } else {
        TransactionsHandlersMatch();
        result := Invoke(Transactions[transaction.value].handler);
      }
      match result
      case Ok(pdu) => SendPdu(pdu);
      case Err(error) => SendPdu(ExceptionResponse(adu.pdu.FuncCode(), error));
    }
  }

  /** `recv_adu`: when `decode` yields no request ADU, nothing happens and the answer
      is false; otherwise a fresh transaction handles the request, exactly one
      response ADU is sent, and the answer is true. */
  method RecvAdu(buffer: seq<Byte>, conn: Connection, decode: seq<Byte> -> Option<RequestAdu>,
                 addressToNumber: Translator) returns (decoded: bool)
    modifies conn`memory, conn`sent
    ensures decoded <==> decode(buffer).Some?
    ensures !decoded ==> conn.memory == old(conn.memory) && conn.sent == old(conn.sent)
    ensures decoded ==>
              var o := Serve(addressToNumber, old(conn.memory), decode(buffer).value);
              && conn.memory == o.memory
              && conn.sent == old(conn.sent) + [o.reply]
              && conn.sent[|conn.sent| - 1].transactionIdent == decode(buffer).value.transactionIdent
  {
    var adu := decode(buffer);
    if adu.Some? {
      var transaction := new Transaction(conn, addressToNumber);
      transaction.HandleRequest(adu.value);
      return true;
    } else {
      return false;
    }
  }
}
