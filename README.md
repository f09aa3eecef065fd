# Modbus/TCP server transaction layer, modelled in Dafny

This project models the server-side transaction layer of a Modbus/TCP stack
(`Modbus::Transaction::Server`). The layer has three parts:

- **Receive step.** `recv_adu` tries to decode a request ADU from a received buffer.
  When decoding works, it creates a transaction, handles the request and answers true.
  Otherwise it does nothing and answers false.
- **Coordinator.** `handle_request` records the request ADU and looks up the PDU's
  class in the dispatch table. An unknown class raises IllegalFunction. A found entry
  that does not match the request raises ServerDeviceFailure. Otherwise the entry's
  handler runs. `send_pdu` wraps the handler's response PDU, or an exception PDU built
  from the request's function code and the caught `ModbusError`, in a response ADU.
  That ADU reuses the request's transaction identifier and is handed to the connection.
- **Six handlers.** They serve Read Coils (0x01), Read Input Status / Discrete Inputs
  (0x02), Read Holding Registers (0x03), Read Input Registers (0x04), Write Single
  Coil (0x05) and Write Multiple Registers (0x10). Each one translates the wire start
  address with `address_to_number` for a fixed table kind, calls one storage
  operation and fills a fresh response PDU.

Files:

- `modbus_types.dfy`: request and response PDUs, the ADU envelope, table kinds,
  function codes and the exception codes of section 7 of the MODBUS Application
  Protocol Specification V1.1b3.
- `storage.dfy`: an in-memory stand-in for the storage the connection exposes.
  Coils and discrete inputs share one bit space, and both register tables share one
  register space. The translated number keeps the tables apart, just as the
  connection's single `read_bits` serves both bit tables. A number with no cell fails
  with IllegalDataAddress and changes nothing.
- `handlers.dfy`: the six handlers and `read_bits`/`read_registers` as functions of the
  translator, the storage and the request PDU. It also proves that each write is read
  back through the read handler of the same table.
- `dispatch.dfy`: the dispatch table, its lookup, and the coordinator's meaning as a
  function (`Serve`). Its lemmas cover the transaction identifier, IllegalFunction,
  the dead ServerDeviceFailure branch and the exception path.
- `server.dfy`: the imperative layer. `Connection` holds the storage and the sequence
  of sent ADUs. `Transaction` holds the `requestAdu`/`responseAdu` fields and the
  methods that assign them. `RecvAdu` is the receive step. Each method is proved
  against the functions of `dispatch.dfy` and `handlers.dfy`.

Parameters of the model:

- `address_to_number` is a parameter of type `(TableKind, Word) -> nat`. It is defined
  outside this layer.
- The codec's `decode` is a parameter of type `seq<Byte> -> Option<RequestAdu>`.
- Encoding is the identity: the connection's `sent` sequence holds ADUs, not bytes.
- A request PDU class with no handler is `RequestPdu.Unsupported(funcCode)`. `is_a?`
  becomes equality of `RequestKind`, and Ruby's dynamic `send` becomes a `match` on the
  handler name.

The ServerDeviceFailure check is kept as written, and `Dispatch.DeviceFailureCheckDead`
proves that it can never fire, whatever the storage does.

Where the source's doc comments and its code differ, the model follows the code. The
doc comments at `lib/modbus/transaction/server.rb` lines 11 and 30-31 speak of
decoding a response ADU and of matching it to a later response. The code decodes a
request and matches nothing, so the model does the same.

## Model

| member | source | states |
|---|---|---|
| Handlers.ReadBits | lib/modbus/transaction/server.rb:73-79 | It reads `bit_count` bits at `address_to_number(table, start_addr)`. It succeeds exactly when the backend does. A success is a response of the requested class holding exactly the backend's bits. A failure is the backend's error. |
| Handlers.ReadRegisters | lib/modbus/transaction/server.rb:92-98 | The same as `ReadBits`, for `reg_count` registers and the backend's register values. |
| Handlers.HandleReadCoils | lib/modbus/transaction/server.rb:63-65 | It uses the coils table and `bit_count`. It answers a Read Coils response with exactly the backend's bits, or the backend's error. |
| Handlers.HandleReadInputStatus | lib/modbus/transaction/server.rb:68-70 | It uses the input-status table and `bit_count`. It answers a Read Input Status response with exactly the backend's bits, or the backend's error. |
| Handlers.HandleReadInputRegisters | lib/modbus/transaction/server.rb:82-84 | It uses the input-registers table and `reg_count`. It answers a Read Input Registers response with exactly the backend's values, or the backend's error. |
| Handlers.HandleReadHoldingRegisters | lib/modbus/transaction/server.rb:87-89 | It uses the holding-registers table and `reg_count`. It answers a Read Holding Registers response with exactly the backend's values, or the backend's error. |
| Handlers.HandleWriteSingleCoil | lib/modbus/transaction/server.rb:101-108 | It writes the request's value at `address_to_number(:coils, start_addr)`. The storage becomes what `write_bit` leaves. The response echoes the wire `start_addr`, not the translated number, with the value the backend applied. A backend error passes through. |
| Handlers.HandleWriteMultipleRegisters | lib/modbus/transaction/server.rb:111-118 | It writes `reg_values` at `address_to_number(:holding_registers, start_addr)`. The storage becomes what `write_registers` leaves. The response echoes the wire `start_addr` with the count the backend wrote. A backend error passes through. |
| Handlers.WriteSingleCoilThenReadCoils | lib/modbus/transaction/server.rb:101-108 | Write Single Coil and Read Coils use the same table. After a successful write, a one-bit Read Coils at the same wire address returns the written value. |
| Handlers.WriteMultipleRegistersThenReadHoldingRegisters | lib/modbus/transaction/server.rb:111-118 | Write Multiple Registers and Read Holding Registers use the same table. After a successful write, a read at the same wire address and count returns the written values. |
| Dispatch.Find | lib/modbus/transaction/server.rb:51 | The lookup answers the first entry whose request class is the PDU's class. It answers None exactly when no entry has that class. |
| Dispatch.Run | lib/modbus/transaction/server.rb:55 | Running a read handler leaves the storage unchanged. A handler's success is never an exception PDU. |
| Dispatch.TransactionsHandlersMatch | lib/modbus/transaction/server.rb:51-55 | In the table, every entry's handler reads the request class that the entry is keyed by. |
| Dispatch.Attempt | lib/modbus/transaction/server.rb:50-55 | When no entry matches the PDU's class, the result is IllegalFunction and the storage is unchanged. When an entry matches, its handler serves the request's class, and the storage and result are exactly those of running that handler on the request. |
| Dispatch.Serve | lib/modbus/transaction/server.rb:48-60 | The response ADU carries the request's transaction identifier. The response is an exception PDU exactly when dispatch or the handler raised an error. That exception PDU carries the request's function code and that error. A successful reply's PDU is exactly the handler's response. The storage is whatever the handler left. |
| Dispatch.FindSupported | lib/modbus/transaction/server.rb:51-52 | The lookup finds an entry exactly for the six supported request classes. |
| Dispatch.DeviceFailureCheckDead | lib/modbus/transaction/server.rb:53 | For any storage, the guarded step equals the same step with the line-53 class check removed, so the check never fires. |
| Dispatch.HandlerFor | lib/modbus/transaction/server.rb:51-55 | Each supported request class has a handler that serves exactly that class. |
| Dispatch.SupportedRunsHandler | lib/modbus/transaction/server.rb:51-59 | A supported request is handled by the handler of its class. The storage is what that handler leaves. A success is sent as the handler's own response under the request's identifier. A handler error is sent as an exception with the request's function code and that error. |
| Dispatch.WritesEchoWireAddress | lib/modbus/transaction/server.rb:101-118 | For both writes, a non-exception reply sent by the coordinator carries the request's wire start address. |
| Dispatch.UnsupportedIsIllegalFunction | lib/modbus/transaction/server.rb:51-52 | The answer is an IllegalFunction exception with the request's own function code and unchanged storage, and this happens exactly when the PDU's class is unsupported. The "only then" direction relies on the in-memory storage never raising IllegalFunction. |
| Dispatch.OnlyWritesChangeStorage | lib/modbus/transaction/server.rb:63-98 | Any request other than the two writes leaves the storage unchanged. |
| Dispatch.ResponseMatchesEntry | lib/modbus/transaction/server.rb:51-55 | The handler of a matching entry can run on the request. On success its response has the response class that the entry declares. |
| Dispatch.ReadHoldingRegistersExample | lib/modbus/transaction/server.rb:87-98 | Read Holding Registers at 0 with count 2, where the backend holds [10, 20]: the reply is [10, 20] under the same identifier and the storage is unchanged. |
| Dispatch.WriteSingleCoilExample | lib/modbus/transaction/server.rb:101-108 | Write Single Coil at 5 with value true, accepted by the backend: the reply echoes address 5 and value true. |
| Dispatch.WriteMultipleRegistersOutOfRangeExample | lib/modbus/transaction/server.rb:58-59 | Write Multiple Registers at 100 with [1, 2, 3], out of range: the reply is an IllegalDataAddress exception for function code 0x10, and nothing is written. |
| Server.Connection.WriteBit | lib/modbus/transaction/server.rb:103 | The connection's storage and answer are those of the backend's `write_bit`. |
| Server.Connection.WriteRegisters | lib/modbus/transaction/server.rb:113 | The connection's storage and answer are those of the backend's `write_registers`. |
| Server.Connection.SendData | lib/modbus/transaction/server.rb:38 | The sent sequence grows by exactly the given ADU. |
| Server.Transaction.constructor | lib/modbus/transaction/server.rb:21 | A new transaction is bound to the connection and translator, with no request or response ADU yet. |
| Server.Transaction.SendPdu | lib/modbus/transaction/server.rb:36-40 | `responseAdu` becomes the PDU under the request's transaction identifier. Exactly that ADU is appended to the connection's sent sequence. |
| Server.Transaction.HandleWriteSingleCoil | lib/modbus/transaction/server.rb:101-108 | The new storage and the result are those of `Handlers.HandleWriteSingleCoil` applied to the old storage. |
| Server.Transaction.HandleWriteMultipleRegisters | lib/modbus/transaction/server.rb:111-118 | The new storage and the result are those of `Handlers.HandleWriteMultipleRegisters` applied to the old storage. |
| Server.Transaction.Invoke | lib/modbus/transaction/server.rb:55 | Running the named handler gives the storage and result of `Dispatch.Run`. |
| Server.Transaction.HandleRequest | lib/modbus/transaction/server.rb:48-60 | `requestAdu` becomes the request. Exactly one response ADU is sent, on the success path and on the error path, and `responseAdu` is that ADU. The ADU and the new storage are those of `Dispatch.Serve`. |
| Server.RecvAdu | lib/modbus/transaction/server.rb:17-27 | It answers true exactly when decoding yields a request ADU. On failure, nothing is sent and the storage is unchanged. On success, exactly one ADU is sent, whose transaction identifier is the request's, and the storage is the one `Dispatch.Serve` gives. |

## Left out

- Byte-level encoding and decoding of ADUs and PDUs (`TCPADU#decode`, `#encode`, `PDU::Exception.create`). Decoding is a parameter function, and encoding is the identity on ADU values. An exception PDU is therefore kept as (function code, exception code), not as the wire byte `0x80 + function code`.
- Ruby's `decode` also receives the connection. The model's decode depends on the buffer alone.
- EventMachine transport and the connection lifecycle. `send_data` is modelled only as an append to the sequence of sent ADUs.
- The storage backend behind the connection. It is not part of this model. The in-memory stand-in in `storage.dfy` fails only with IllegalDataAddress, so backend checks of quantities or values (IllegalDataValue) and backend ServerDeviceFailure errors do not arise. The "only then" direction of `Dispatch.UnsupportedIsIllegalFunction` relies on this. `Dispatch.DeviceFailureCheckDead` and `Dispatch.FindSupported` do not.
- `address_to_number` and `TRANSACTIONS` come from `Base`, which is not part of this model. The translator is a parameter. The table is fixed to the six handlers of this file, ordered by function code. Their request classes are distinct, so the order does not change the lookup.
- Non-`ModbusError` exceptions propagate out of `handle_request` uncaught. They are not modelled, and they are never turned into responses.
- A `ModbusError` raised by `send_pdu` itself on the success path (for example while encoding) would also be rescued. Encoding is not modelled, so this path does not exist in the model.
- Server.RecvAdu: the source creates no transaction when decoding fails. Object allocation is not stated in the contract. The contract states instead that nothing is sent and the storage is unchanged.
