/** Wire entities shared by the gateway, the matching engine, the account service and the dashboard.
    Amounts are 32-bit unsigned in the source; prices and balances are 64-bit signed and are
    modelled as unbounded integers (products are taken to stay below 2^63). */
module Domain {

  const U32: int := 0x1_0000_0000

  type uint32 = x: int | 0 <= x < 0x1_0000_0000

  /** Asset 0 is the settlement currency. */
  const CASH: nat := 0

  datatype Side = Buy | Sell {
    function Opposite(): Side { if Buy? then Sell else Buy }
  }

  datatype OrderType = Limit | Market

  datatype Action = Execute | Cancel

  /** `id` is the low 32 bits of the 64-bit order id: the only bits a table or a report keeps. */
  datatype Order = Order(price: int, id: uint32, client: nat, amount: uint32, asset: nat,
                         kind: OrderType, side: Side, action: Action)

  datatype OrderState = Filled | PartiallyFilled | Cancelled | Rejected | Added

  datatype Report = Report(bought: int, sold: int, attempt: int, client: nat, orderId: uint32,
                           boughtAsset: nat, soldAsset: nat, state: OrderState)

  /** A report with the sequence id it is multicast under. */
  datatype Stamped = Stamped(id: nat, report: Report)

  /** A depth message: the absolute quantity left at one price of one side. */
  datatype Update = Update(side: Side, price: int, depth: uint32)

  function Min(a: uint32, b: uint32): uint32 { if a < b then a else b }

  /** What an order of `amount` at `price` ties up: cash for a buy, the asset itself for a sell. */
  function Value(side: Side, amount: int, price: int): int {
    if side.Buy? then amount * price else amount
  }

  /** The asset an order of this side pays with. */
  function PaysWith(side: Side, asset: nat): nat { if side.Buy? then CASH else asset }
}
