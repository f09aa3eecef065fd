/**
  Values exchanged by the server-side transaction layer of a Modbus/TCP stack:
  request and response PDUs, the ADU envelope that carries them, the table kinds
  used for address translation and the Modbus exceptions that domain errors stand
  for (section 7 of the MODBUS Application Protocol Specification V1.1b3).
 */
module ModbusTypes {

  /** An unsigned 8-bit quantity: function codes on the wire. */
  type Byte = x: nat | x < 0x100

  /** An unsigned 16-bit quantity: addresses, quantities, register values and the
      MBAP transaction identifier. */
  type Word = x: nat | x < 0x1_0000

  datatype Option<+T> = None | Some(value: T)

  /** The logical memory region a request addresses. */
  datatype TableKind = Coils | InputStatus | InputRegisters | HoldingRegisters

  /** `address_to_number`: maps (table kind, wire address) to a storage number.
      Its definition lives outside the modelled layer, so it is a parameter. */
  type Translator = (TableKind, Word) -> nat

  /** The domain errors (`ModbusError` subclasses) this layer produces or passes on. */
  datatype ExceptionCode = IllegalFunction | IllegalDataAddress | IllegalDataValue | ServerDeviceFailure

  /** Either a value or the domain error that was raised instead. */
  datatype Result<+T> = Ok(value: T) | Err(error: ExceptionCode)

  const ReadCoilsCode: Byte := 0x01
  const ReadInputStatusCode: Byte := 0x02
  const ReadHoldingRegistersCode: Byte := 0x03
  const ReadInputRegistersCode: Byte := 0x04
  const WriteSingleCoilCode: Byte := 0x05
  const WriteMultipleRegistersCode: Byte := 0x10

  /** The runtime class of a request PDU, which is what the dispatch table matches on. */
  datatype RequestKind =
    | ReadCoilsRequest
    | ReadInputStatusRequest
    | ReadHoldingRegistersRequest
    | ReadInputRegistersRequest
    | WriteSingleCoilRequest
    | WriteMultipleRegistersRequest
    | OtherRequest(funcCode: Byte)

  /** A decoded request PDU. `OtherRequest` stands for every PDU class the codec
      knows but the server has no handler for; it keeps its function code. */
  datatype RequestPdu =
    | ReadCoils(startAddr: Word, bitCount: Word)
    | ReadInputStatus(startAddr: Word, bitCount: Word)
    | ReadHoldingRegisters(startAddr: Word, regCount: Word)
    | ReadInputRegisters(startAddr: Word, regCount: Word)
    | WriteSingleCoil(startAddr: Word, value: bool)
    | WriteMultipleRegisters(startAddr: Word, regValues: seq<Word>)
    | Unsupported(funcCode: Byte)
  {
    function Kind(): RequestKind
    {
      match this
      case ReadCoils(_, _) => ReadCoilsRequest
      case ReadInputStatus(_, _) => ReadInputStatusRequest
      case ReadHoldingRegisters(_, _) => ReadHoldingRegistersRequest
      case ReadInputRegisters(_, _) => ReadInputRegistersRequest
      case WriteSingleCoil(_, _) => WriteSingleCoilRequest
      case WriteMultipleRegisters(_, _) => WriteMultipleRegistersRequest
      case Unsupported(fc) => OtherRequest(fc)
    }

    /** `func_code`: the function code the PDU was received with. */
    function FuncCode(): Byte
    {
      match this
      case ReadCoils(_, _) => ReadCoilsCode
      case ReadInputStatus(_, _) => ReadInputStatusCode
      case ReadHoldingRegisters(_, _) => ReadHoldingRegistersCode
      case ReadInputRegisters(_, _) => ReadInputRegistersCode
      case WriteSingleCoil(_, _) => WriteSingleCoilCode
      case WriteMultipleRegisters(_, _) => WriteMultipleRegistersCode
      case Unsupported(fc) => fc
    }
  }

  /** The class of a response PDU. */
  datatype ResponseKind =
    | ReadCoilsResponseKind
    | ReadInputStatusResponseKind
    | ReadHoldingRegistersResponseKind
    | ReadInputRegistersResponseKind
    | WriteSingleCoilResponseKind
    | WriteMultipleRegistersResponseKind
    | ExceptionResponseKind

  /** A response PDU as the server fills it in. `ExceptionResponse` is the PDU built
      by `PDU::Exception.create` from the request's function code and the error. */
  datatype ResponsePdu =
    | ReadCoilsResponse(bitValues: seq<bool>)
    | ReadInputStatusResponse(bitValues: seq<bool>)
    | ReadHoldingRegistersResponse(regValues: seq<Word>)
    | ReadInputRegistersResponse(regValues: seq<Word>)
    | WriteSingleCoilResponse(startAddr: Word, value: bool)
    | WriteMultipleRegistersResponse(startAddr: Word, regCount: nat)
    | ExceptionResponse(funcCode: Byte, exceptionCode: ExceptionCode)
  {
    function Kind(): ResponseKind
    {
      match this
      case ReadCoilsResponse(_) => ReadCoilsResponseKind
      case ReadInputStatusResponse(_) => ReadInputStatusResponseKind
      case ReadHoldingRegistersResponse(_) => ReadHoldingRegistersResponseKind
      case ReadInputRegistersResponse(_) => ReadInputRegistersResponseKind
      case WriteSingleCoilResponse(_, _) => WriteSingleCoilResponseKind
      case WriteMultipleRegistersResponse(_, _) => WriteMultipleRegistersResponseKind
      case ExceptionResponse(_, _) => ExceptionResponseKind
    }
  }

  /** A TCP ADU: the MBAP transaction identifier and the PDU it carries. */
  datatype Adu<+P> = Adu(transactionIdent: Word, pdu: P)

  type RequestAdu = Adu<RequestPdu>
  type ResponseAdu = Adu<ResponsePdu>
}
