/** Advertisement reports, as received from the nRF52, and the hash of their MAC address. */
module AdvReport {
  import opened Numbers

  const INT32_LIMIT: int := 0x8000_0000
  const BLE_MAX_REGULAR_ADV_DATA_LEN: nat := 31

  datatype Mac = Mac(b0: bv8, b1: bv8, b2: bv8, b3: bv8, b4: bv8, b5: bv8)

  datatype Radio = Radio(rssi: int, primaryPhy: nat, secondaryPhy: nat, chIndex: nat, isCodedPhy: bool, txPower: int)

  /** `data` is the used part of the data buffer: its length is `data_len`, and an empty one marks a free cell. */
  datatype Report = Report(timestamp: int, samplesCounter: nat, mac: Mac, radio: Radio, data: seq<bv8>)

  const BLANK_REPORT := Report(0, 0, Mac(0, 0, 0, 0, 0, 0), Radio(0, 0, 0, 0, false, 0), [])

  function CalcHash(mac: Mac): bv32 {
    ((mac.b0 ^ mac.b3) as bv32)
    | (((mac.b1 ^ mac.b4) as bv32) << 8)
    | (((mac.b2 ^ mac.b5) as bv32) << 16)
  }

  function AsInt32(x: int): (r: int)
    ensures -INT32_LIMIT <= r < INT32_LIMIT
  {
    var u := AsUint32(x);
    if u < INT32_LIMIT then u else u - UINT32_MOD
  }

  /** A new report for a known MAC is dropped when its data repeats the stored data, or when it is a regular
      advertisement and the stored one is extended. */
  predicate MustBeDiscarded(adv: Report, prev: Report) {
    || prev.data == adv.data
    || (|prev.data| > BLE_MAX_REGULAR_ADV_DATA_LEN && !(|adv.data| > BLE_MAX_REGULAR_ADV_DATA_LEN))
  }

  /** Everything a report carries apart from the sample counter, which the table maintains itself. */
  predicate SameAdvertisement(a: Report, b: Report) {
    a.(samplesCounter := 0) == b.(samplesCounter := 0)
  }
}
