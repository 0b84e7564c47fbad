/** Message and field types shared by every component of the exchange. Unsigned fields are `nat`;
    the places where a width matters (`Qty` narrowing of an order id) say so explicitly. */
module Types {

  const ME_MAX_NUM_CLIENTS: nat := 256
  const ME_MAX_ORDER_IDS: nat := 1024 * 1024
  const ME_MAX_PRICE_LEVELS: nat := 256

  const ORDER_ID_INVALID: nat := 0xFFFF_FFFF_FFFF_FFFF
  const PRIORITY_INVALID: nat := 0xFFFF_FFFF_FFFF_FFFF
  const PRICE_INVALID: int := 0x7FFF_FFFF_FFFF_FFFF
  const QTY_INVALID: nat := 0xFFFF_FFFF
  const QTY_MODULUS: nat := 0x1_0000_0000

  /** Which text of the program a model runs: the repository's, or the one its comments describe. */
  datatype Code = AsWritten | Repaired

  datatype Option<+T> = None | Some(value: T)

  /** Always true. A predicate stated under `Sealed(u)` stays folded until a proof mentions `Sealed`. */
  ghost predicate Sealed(u: int) { true }

  datatype Side = BUY | SELL | INVALID_SIDE

  function Opposite(side: Side): Side {
    match side
    case BUY => SELL
    case SELL => BUY
    case INVALID_SIDE => INVALID_SIDE
  }

  predicate IsSide(side: Side) { side == BUY || side == SELL }

  datatype ResponseType = ACCEPTED | CANCELED | FILLED | CANCEL_REJECTED

  datatype ClientResponse = ClientResponse(
    kind: ResponseType, clientId: nat, tickerId: nat, clientOrderId: nat, marketOrderId: nat,
    side: Side, price: int, execQty: nat, leavesQty: nat)

  datatype UpdateType = INVALID_UPDATE | CLEAR | ADD | MODIFY | CANCEL | TRADE | SNAPSHOT_START | SNAPSHOT_END

  datatype MarketUpdate = MarketUpdate(
    kind: UpdateType, orderId: nat, tickerId: nat, side: Side, price: int, qty: nat, priority: nat)

  /** A market update with the sequence number that the publisher or the synthesizer gave it. */
  datatype MDPMarketUpdate = MDPMarketUpdate(seqNum: nat, update: MarketUpdate)

  datatype RequestType = NEW_ORDER | CANCEL_ORDER | INVALID_REQUEST

  datatype ClientRequest = ClientRequest(
    kind: RequestType, clientId: nat, tickerId: nat, orderId: nat, side: Side, price: int, qty: nat)

  /** A resting order, without its ring links. */
  datatype MEOrder = MEOrder(
    tickerId: nat, clientId: nat, clientOrderId: nat, marketOrderId: nat,
    side: Side, price: int, qty: nat, priority: nat)
  {
    function Key(): (nat, nat) { (clientId, clientOrderId) }
  }
}
