/** The Modbus client wrappers of database/WeatherScript2.py
    (write_to_holding_register, read_from_holding_register, read_from_coils),
    over a device that holds a map of holding registers and a sequence of coils. */
module Device {
  import opened Wrappers

  /** sensor_registers: the holding-register address of each sensor. */
  const SensorRegisters: map<string, int> := map[
    "Humidity" := 1028,
    "Motion_Sensor_Garage" := 1029,
    "Temperature" := 1025,
    "SunRadiation" := 1026,
    "Pressure" := 1033,
    "Motion_Sensor_Bathroom" := 1031,
    "Motion_Sensor_Bedroom" := 1030,
    "Motion_Sensor_LR" := 1032,
    "LightBrightness" := 1
  ]

  /** No two sensors share a holding register, so every write lands in a
      register of its own sensor. */
  lemma SensorRegistersDistinct(a: string, b: string)
    requires a in SensorRegisters && b in SensorRegisters && a != b
    ensures SensorRegisters[a] != SensorRegisters[b]
  {
  }

  /** The number of bits a coil read returns for count coils: the bits travel
      packed in bytes, so the list is padded with false up to a multiple of 8. */
  function PaddedLength(count: nat): (n: nat)
    ensures count <= n < count + 8 && n % 8 == 0
  {
    (count + 7) / 8 * 8
  }

  /** Every one of the count registers from address exists. */
  predicate Covers(registers: map<int, int>, address: int, count: nat)
  {
    forall a :: address <= a < address + count ==> a in registers
  }

  /** The device as the client sees it. Only the client's own writes change it. */
  class Modbus {
    var registers: map<int, int>
    var coils: seq<bool>

    constructor (registers0: map<int, int>, coils0: seq<bool>)
      ensures registers == registers0 && coils == coils0
    {
      registers := registers0;
      coils := coils0;
    }

    /** write_to_holding_register: the register at address takes the value,
        no other register and no coil changes. */
    method WriteToHoldingRegister(address: int, value: int)
      modifies this
      ensures registers == old(registers)[address := value]
      ensures coils == old(coils)
    {
      registers := registers[address := value];
    }

    /** read_from_holding_register: count registers from address, or None when
        the request fails (a transport fault, or an address the device lacks). */
    method ReadFromHoldingRegister(address: int, count: nat, fault: bool) returns (r: Option<seq<int>>)
      ensures r.Some? <==> !fault && Covers(registers, address, count)
      ensures r.Some? ==> |r.value| == count &&
                          forall k :: 0 <= k < count ==> r.value[k] == registers[address + k]
    {
      if fault || !Covers(registers, address, count) {
        return None;
      }
      var regs := registers;
      r := Some(seq(count, k requires 0 <= k < count && Covers(regs, address, count) => regs[address + k]));
    }

    /** read_from_coils: count coils from address, padded with false to whole
        bytes, or None when the request fails. */
    method ReadFromCoils(address: nat, count: nat, fault: bool) returns (r: Option<seq<bool>>)
      ensures r.Some? <==> !fault && address + count <= |coils|
      ensures r.Some? ==> |r.value| == PaddedLength(count) &&
                          r.value[..count] == coils[address..address + count] &&
                          forall k :: count <= k < |r.value| ==> !r.value[k]
    {
      if fault || address + count > |coils| {
        return None;
      }
      var padding := seq(PaddedLength(count) - count, _ => false);
      r := Some(coils[address..address + count] + padding);
    }
  }
}
