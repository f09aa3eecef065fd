/**
  The six request handlers of the Modbus/TCP server, as functions of the request
  PDU, the address translator and the storage state. Each handler translates the
  wire start address for one fixed table kind, performs one storage operation and
  fills a fresh response PDU; an error raised by the storage operation is passed
  on unchanged.
 */
module Handlers {
  import opened ModbusTypes
  import Storage

  /** What running a handler leaves behind: the storage afterwards, and either the
      response PDU or the domain error that was raised. */
  datatype Step = Step(memory: Storage.Memory, result: Result<ResponsePdu>)

  /** `read_bits(table, response_class)`: reads `bit_count` bits at the translated
      start address and puts them in a response of class `responseClass`. */
  function ReadBits(addressToNumber: Translator, m: Storage.Memory, table: TableKind,
                    responseClass: ResponseKind, pdu: RequestPdu): (r: Result<ResponsePdu>)
    requires pdu.ReadCoils? || pdu.ReadInputStatus?
    requires responseClass == ReadCoilsResponseKind || responseClass == ReadInputStatusResponseKind
    ensures var backend := Storage.ReadBits(m, addressToNumber(table, pdu.startAddr), pdu.bitCount);
            && r.Ok? == backend.Ok?
            && (r.Ok? ==> r.value.Kind() == responseClass && r.value.bitValues == backend.value)
            && (r.Err? ==> r.error == backend.error)
  {
    var number := addressToNumber(table, pdu.startAddr);
    match Storage.ReadBits(m, number, pdu.bitCount)
    case Err(e) => Err(e)
    case Ok(bitValues) =>
      Ok(if responseClass == ReadCoilsResponseKind then ReadCoilsResponse(bitValues)
         else ReadInputStatusResponse(bitValues))
  }

  /** `read_registers(table, response_class)`: reads `reg_count` registers at the
      translated start address and puts them in a response of class `responseClass`. */
  function ReadRegisters(addressToNumber: Translator, m: Storage.Memory, table: TableKind,
                         responseClass: ResponseKind, pdu: RequestPdu): (r: Result<ResponsePdu>)
    requires pdu.ReadHoldingRegisters? || pdu.ReadInputRegisters?
    requires responseClass == ReadHoldingRegistersResponseKind || responseClass == ReadInputRegistersResponseKind
    ensures var backend := Storage.ReadRegisters(m, addressToNumber(table, pdu.startAddr), pdu.regCount);
            && r.Ok? == backend.Ok?
            && (r.Ok? ==> r.value.Kind() == responseClass && r.value.regValues == backend.value)
            && (r.Err? ==> r.error == backend.error)
  {
    var number := addressToNumber(table, pdu.startAddr);
    match Storage.ReadRegisters(m, number, pdu.regCount)
    case Err(e) => Err(e)
    case Ok(regValues) =>
      Ok(if responseClass == ReadHoldingRegistersResponseKind then ReadHoldingRegistersResponse(regValues)
         else ReadInputRegistersResponse(regValues))
  }

  /** `handle_read_coils`: the coils table, answered with a Read Coils response. */
  function HandleReadCoils(addressToNumber: Translator, m: Storage.Memory, pdu: RequestPdu): (r: Result<ResponsePdu>)
    requires pdu.ReadCoils?
    ensures var backend := Storage.ReadBits(m, addressToNumber(Coils, pdu.startAddr), pdu.bitCount);
            r == if backend.Ok? then Ok(ReadCoilsResponse(backend.value)) else Err(backend.error)
  {
    ReadBits(addressToNumber, m, Coils, ReadCoilsResponseKind, pdu)
  }

  /** `handle_read_input_status`: the discrete-input table, answered with a Read
      Input Status response. */
  function HandleReadInputStatus(addressToNumber: Translator, m: Storage.Memory, pdu: RequestPdu): (r: Result<ResponsePdu>)
    requires pdu.ReadInputStatus?
    ensures var backend := Storage.ReadBits(m, addressToNumber(InputStatus, pdu.startAddr), pdu.bitCount);
            r == if backend.Ok? then Ok(ReadInputStatusResponse(backend.value)) else Err(backend.error)
  {
    ReadBits(addressToNumber, m, InputStatus, ReadInputStatusResponseKind, pdu)
  }

  /** `handle_read_input_registers`: the input-register table, answered with a Read
      Input Registers response. */
  function HandleReadInputRegisters(addressToNumber: Translator, m: Storage.Memory, pdu: RequestPdu): (r: Result<ResponsePdu>)
    requires pdu.ReadInputRegisters?
    ensures var backend := Storage.ReadRegisters(m, addressToNumber(InputRegisters, pdu.startAddr), pdu.regCount);
            r == if backend.Ok? then Ok(ReadInputRegistersResponse(backend.value)) else Err(backend.error)
  {
    ReadRegisters(addressToNumber, m, InputRegisters, ReadInputRegistersResponseKind, pdu)
  }

  /** `handle_read_holding_registers`: the holding-register table, answered with a
      Read Holding Registers response. */
  function HandleReadHoldingRegisters(addressToNumber: Translator, m: Storage.Memory, pdu: RequestPdu): (r: Result<ResponsePdu>)
    requires pdu.ReadHoldingRegisters?
    ensures var backend := Storage.ReadRegisters(m, addressToNumber(HoldingRegisters, pdu.startAddr), pdu.regCount);
            r == if backend.Ok? then Ok(ReadHoldingRegistersResponse(backend.value)) else Err(backend.error)
  {
    ReadRegisters(addressToNumber, m, HoldingRegisters, ReadHoldingRegistersResponseKind, pdu)
  }

  /** `handle_write_single_coil`: writes one coil and echoes the wire start address
      (not the translated number) with the value the backend applied. */
  function HandleWriteSingleCoil(addressToNumber: Translator, m: Storage.Memory, pdu: RequestPdu): (s: Step)
    requires pdu.WriteSingleCoil?
    ensures var (m', applied) := Storage.WriteBit(m, addressToNumber(Coils, pdu.startAddr), pdu.value);
            && s.memory == m'
            && s.result == if applied.Ok? then Ok(WriteSingleCoilResponse(pdu.startAddr, applied.value)) else Err(applied.error)
  {
    var number := addressToNumber(Coils, pdu.startAddr);
    var (m', value) := Storage.WriteBit(m, number, pdu.value);
    match value
    case Err(e) => Step(m', Err(e))
    case Ok(v) => Step(m', Ok(WriteSingleCoilResponse(pdu.startAddr, v)))
  }

  /** `handle_write_multiple_registers`: writes the holding registers and echoes the
      wire start address (not the translated number) with the count the backend
      reports as written. */
  function HandleWriteMultipleRegisters(addressToNumber: Translator, m: Storage.Memory, pdu: RequestPdu): (s: Step)
    requires pdu.WriteMultipleRegisters?
    ensures var (m', written) := Storage.WriteRegisters(m, addressToNumber(HoldingRegisters, pdu.startAddr), pdu.regValues);
            && s.memory == m'
            && s.result == if written.Ok? then Ok(WriteMultipleRegistersResponse(pdu.startAddr, written.value)) else Err(written.error)
  {
    var number := addressToNumber(HoldingRegisters, pdu.startAddr);
    var (m', regCount) := Storage.WriteRegisters(m, number, pdu.regValues);
    match regCount
    case Err(e) => Step(m', Err(e))
    case Ok(n) => Step(m', Ok(WriteMultipleRegistersResponse(pdu.startAddr, n)))
  }

  /** Write Single Coil and Read Coils agree on the table: a coil written through one
      is read back, at the same wire address, through the other. */
  lemma WriteSingleCoilThenReadCoils(addressToNumber: Translator, m: Storage.Memory, addr: Word, value: bool)
    requires HandleWriteSingleCoil(addressToNumber, m, WriteSingleCoil(addr, value)).result.Ok?
    ensures var m' := HandleWriteSingleCoil(addressToNumber, m, WriteSingleCoil(addr, value)).memory;
            HandleReadCoils(addressToNumber, m', ReadCoils(addr, 1)) == Ok(ReadCoilsResponse([value]))
  {
    Storage.WriteBitThenRead(m, addressToNumber(Coils, addr), value);
  }

  /** Write Multiple Registers and Read Holding Registers agree on the table:
      registers written through one are read back, at the same wire address and
      count, through the other. */
  lemma WriteMultipleRegistersThenReadHoldingRegisters(addressToNumber: Translator, m: Storage.Memory,
                                                       addr: Word, values: seq<Word>)
    requires |values| < 0x1_0000
    requires HandleWriteMultipleRegisters(addressToNumber, m, WriteMultipleRegisters(addr, values)).result.Ok?
    ensures var m' := HandleWriteMultipleRegisters(addressToNumber, m, WriteMultipleRegisters(addr, values)).memory;
            HandleReadHoldingRegisters(addressToNumber, m', ReadHoldingRegisters(addr, |values|))
              == Ok(ReadHoldingRegistersResponse(values))
  {
    Storage.WriteRegistersThenRead(m, addressToNumber(HoldingRegisters, addr), values);
  }
}
