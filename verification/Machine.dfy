/** What several modules share: optional values, the size of a book side, minimum, and 64-bit unsigned subtraction. */
module Machine {

  datatype Option<+T> = None | Some(value: T)

  /** `kMaxOrderbookLevels` of src/orderbook/orderbook_event.h. */
  const MAX_LEVELS: nat := 100

  const TWO_64: nat := 0x1_0000_0000_0000_0000

  /** `now - last` of two 64-bit clock readings. */
  function Since(now: nat, last: nat): (d: nat)
    requires now < TWO_64 && last < TWO_64
    ensures d < TWO_64 && (last + d == now || last + d == now + TWO_64)
  {
    if now >= last then now - last else now + TWO_64 - last
  }

  function Min(a: nat, b: nat): nat {
    if a < b then a else b
  }
}
