/**
  An in-memory stand-in for the storage backend that the connection object exposes
  to the transaction layer (`read_bits`, `read_registers`, `write_bit`,
  `write_registers`). Coils and discrete inputs share one bit space and input and
  holding registers one register space: the number produced by address
  translation is what keeps the tables apart. A number with no cell is out of
  range and the operation fails with IllegalDataAddress, changing nothing.
 */
module Storage {
  import opened ModbusTypes

  datatype Memory = Memory(bits: map<nat, bool>, registers: map<nat, Word>)

  /** Every bit cell in [number, number + count) exists. */
  predicate BitsPresent(m: Memory, number: nat, count: nat)
  {
    forall i :: number <= i < number + count ==> i in m.bits
  }

  /** Every register cell in [number, number + count) exists. */
  predicate RegistersPresent(m: Memory, number: nat, count: nat)
  {
    forall i :: number <= i < number + count ==> i in m.registers
  }

  /** `read_bits(number, count)`: the `count` bits from `number` on. */
  function ReadBits(m: Memory, number: nat, count: nat): (r: Result<seq<bool>>)
    ensures r.Ok? <==> BitsPresent(m, number, count)
    ensures r.Ok? ==> |r.value| == count && forall k :: 0 <= k < count ==> r.value[k] == m.bits[number + k]
    ensures r.Err? ==> r.error == IllegalDataAddress
  {
    if BitsPresent(m, number, count) then
      Ok(seq(count, k requires 0 <= k < count => m.bits[number + k]))
    else
      Err(IllegalDataAddress)
  }

  /** `read_registers(number, count)`: the `count` registers from `number` on. */
  function ReadRegisters(m: Memory, number: nat, count: nat): (r: Result<seq<Word>>)
    ensures r.Ok? <==> RegistersPresent(m, number, count)
    ensures r.Ok? ==> |r.value| == count && forall k :: 0 <= k < count ==> r.value[k] == m.registers[number + k]
    ensures r.Err? ==> r.error == IllegalDataAddress
  {
    if RegistersPresent(m, number, count) then
      Ok(seq(count, k requires 0 <= k < count => m.registers[number + k]))
    else
      Err(IllegalDataAddress)
  }

  /** `write_bit(number, value)`: stores one bit and answers with the value applied. */
  function WriteBit(m: Memory, number: nat, value: bool): (r: (Memory, Result<bool>))
    ensures r.1.Ok? <==> number in m.bits
    ensures r.1.Ok? ==> r.1.value == value && r.0.bits.Keys == m.bits.Keys && r.0.registers == m.registers
    ensures r.1.Ok? ==> r.0.bits[number] == value
    ensures r.1.Ok? ==> forall i :: i in m.bits && i != number ==> r.0.bits[i] == m.bits[i]
    ensures r.1.Err? ==> r.0 == m && r.1.error == IllegalDataAddress
  {
    if number in m.bits then
      (m.(bits := m.bits[number := value]), Ok(value))
    else
      (m, Err(IllegalDataAddress))
  }

  /** `write_registers(number, values)`: stores the registers from `number` on and
      answers with how many were written. */
  function WriteRegisters(m: Memory, number: nat, values: seq<Word>): (r: (Memory, Result<nat>))
    ensures r.1.Ok? <==> RegistersPresent(m, number, |values|)
    ensures r.1.Ok? ==> r.1.value == |values| && r.0.registers.Keys == m.registers.Keys && r.0.bits == m.bits
    ensures r.1.Ok? ==> forall k :: 0 <= k < |values| ==> r.0.registers[number + k] == values[k]
    ensures r.1.Ok? ==> forall i :: i in m.registers && !(number <= i < number + |values|) ==> r.0.registers[i] == m.registers[i]
    ensures r.1.Err? ==> r.0 == m && r.1.error == IllegalDataAddress
  {
    if RegistersPresent(m, number, |values|) then
      var written := map i | i in m.registers :: if number <= i < number + |values| then values[i - number] else m.registers[i];
      (m.(registers := written), Ok(|values|))
    else
      (m, Err(IllegalDataAddress))
  }

  /** Reading back a bit that was just written yields the written value. */
  lemma WriteBitThenRead(m: Memory, number: nat, value: bool)
    requires WriteBit(m, number, value).1.Ok?
    ensures ReadBits(WriteBit(m, number, value).0, number, 1) == Ok([value])
  {
    var m' := WriteBit(m, number, value).0;
    assert BitsPresent(m', number, 1) by {
      forall i | number <= i < number + 1 ensures i in m'.bits { assert i == number; }
    }
    var r := ReadBits(m', number, 1);
    assert r.value == [value] by {
      assert |r.value| == 1 && r.value[0] == m'.bits[number + 0];
    }
  }

  /** Reading back registers that were just written yields the written values. */
  lemma WriteRegistersThenRead(m: Memory, number: nat, values: seq<Word>)
    requires WriteRegisters(m, number, values).1.Ok?
    ensures ReadRegisters(WriteRegisters(m, number, values).0, number, |values|) == Ok(values)
  {
    var m' := WriteRegisters(m, number, values).0;
    assert RegistersPresent(m', number, |values|);
    var r := ReadRegisters(m', number, |values|);
    assert r.value == values by {
      forall k | 0 <= k < |values| ensures r.value[k] == values[k] {
        assert r.value[k] == m'.registers[number + k];
      }
    }
  }
}
