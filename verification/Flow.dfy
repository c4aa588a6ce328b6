/** Curve logs, the events decoded from them, and one curve's reducer state (crates/bodkin/src/pons/stream.rs). */
module Flow {
  import opened Common

  datatype EventKey = EventKey(blockNumber: nat, transactionIndex: nat, logIndex: nat, transactionHash: Hash)

  datatype FlowEvent =
    | Buy(recipient: Address, quoteIn: nat, tokensOut: nat, fee: nat, tax: nat, timestamp: nat, transactionHash: Hash)
    | Sell(seller: Address, recipient: Address, tokensIn: nat, quoteOut: nat, fee: nat, tax: nat, timestamp: nat)
    | Tax(transactionHash: Hash, recipient: Address, amount: nat, timestamp: nat)
    | Completed(timestamp: nat)

  datatype StoredEvent = StoredEvent(blockHash: Hash, event: FlowEvent)

  datatype FlowRecord = FlowRecord(key: EventKey, blockHash: Hash, event: FlowEvent)

  /** What a log's topic and data decode to: one of the four curve events, some other topic, or garbage. */
  datatype Body =
    | BuyBody(recipient: Address, quoteIn: nat, tokensOut: nat, fee: nat, tax: nat)
    | SellBody(seller: Address, recipient: Address, tokensIn: nat, quoteOut: nat, fee: nat, tax: nat)
    | TaxBody(recipient: Address, amount: nat)
    | CompletedBody
    | OtherTopic
    | Undecodable

  datatype Log = Log(
    address: Address,
    transactionHash: Option<Hash>,
    logIndex: Option<nat>,
    blockNumber: Option<nat>,
    transactionIndex: Option<nat>,
    blockHash: Option<Hash>,
    removed: bool,
    body: Body)

  /** A log as delivered, with the timestamp resolved for its block. */
  datatype Delivery = Delivery(log: Log, timestamp: nat)

  datatype Identity = Identity(transactionHash: Hash, logIndex: nat)

  datatype Anchor = Anchor(block: nat, hash: Hash)

  datatype CurveFlow = CurveFlow(
    launchedAt: nat,
    originBlock: nat,
    nextBlock: nat,
    anchor: Option<Anchor>,
    insiders: set<Address>,
    events: map<EventKey, StoredEvent>,
    identities: map<Identity, EventKey>)

  function Timestamp(event: FlowEvent): nat {
    event.timestamp
  }

  function IdentityOf(key: EventKey): Identity {
    Identity(key.transactionHash, key.logIndex)
  }

  /** What one delivered log asks of the reducer. */
  datatype Effect =
    | Malformed
    | Ignore
    | Remove(id: Identity)
    | Put(key: EventKey, stored: StoredEvent)

  function Decode(body: Body, timestamp: nat, transactionHash: Hash): Option<FlowEvent> {
    match body
    case BuyBody(r, q, t, f, x) => Some(Buy(r, q, t, f, x, timestamp, transactionHash))
    case SellBody(s, r, t, q, f, x) => Some(Sell(s, r, t, q, f, x, timestamp))
    case TaxBody(r, a) => Some(Tax(transactionHash, r, a, timestamp))
    case CompletedBody => Some(Completed(timestamp))
    case OtherTopic => None
    case Undecodable => None
  }

  /** A removal needs only the identity; an insertion needs every coordinate before its topic is looked at. */
  function EffectOf(d: Delivery): Effect {
    var l := d.log;
    if l.transactionHash.None? || l.logIndex.None? then Malformed
    else if l.removed then Remove(Identity(l.transactionHash.value, l.logIndex.value))
    else if l.blockNumber.None? || l.transactionIndex.None? || l.blockHash.None? then Malformed
    else match l.body
      case Undecodable => Malformed
      case OtherTopic => Ignore
      case _ =>
        Put(EventKey(l.blockNumber.value, l.transactionIndex.value, l.logIndex.value, l.transactionHash.value),
            StoredEvent(l.blockHash.value, Decode(l.body, d.timestamp, l.transactionHash.value).value))
  }

  /** The identity an effect is about, if any. */
  predicate Concerns(e: Effect, id: Identity) {
    match e
    case Remove(i) => i == id
    case Put(k, _) => IdentityOf(k) == id
    case _ => false
  }
}
