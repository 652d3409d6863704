/**
 * What the monitor asks of the message broker, recorded as values: the connection
 * arguments, the topology declarations and the status-request publishes. Exchange and
 * queue names are constants of the worker SDK whose string values are not part of this
 * model, so they are named symbolically.
 */
module Broker {
  import opened Wrappers
  import opened Snapshot

  /** The broker connection arguments read from the command line. */
  datatype ConnectionArgs = ConnectionArgs(
    host: string, port: string, virtualHost: string, user: string, password: string, tls: bool)

  datatype Exchange = DirectMessaging | WorkerResponse | WorkerResponseNotFound

  datatype Queue =
    | WorkerCreated | WorkerInitialized | WorkerStarted
    | WorkerStatus | WorkerTerminated | WorkerUpdated

  /** A routing key: the name of a queue, or a literal string. */
  datatype RoutingKey = QueueName(queue: Queue) | Literal(key: string)

  datatype ExchangeKind = Direct | Fanout | Headers | Topic

  datatype Declaration =
    | DeclareExchange(exchange: Exchange, kind: ExchangeKind, alternate: Option<Exchange>)
    | DeclareQueue(queue: Queue, durable: bool)
    | Bind(source: Exchange, target: Queue, routingKey: RoutingKey)

  datatype Scheme = Amqp | Amqps

  /** The fields of a parsed AMQP URI that the monitor fills in (the query is always the default). */
  datatype AmqpUri = AmqpUri(scheme: Scheme, username: string, password: string, host: string, port: nat, vhost: string)

  /** The body of a status reply: a decodable `ProcessStatus`, or bytes that are not (bad UTF-8 or JSON). */
  datatype Body = Encoded(status: ProcessStatus) | Malformed

  /** One item of the consumer stream: a delivery with its tag, or a stream error. */
  datatype Delivery = Delivered(tag: nat, body: Body) | DeliveryError

  predicate IsMalformed(d: Delivery) {
    d.Delivered? && d.body.Malformed?
  }

  /** The decodable statuses among `ds`, in arrival order. */
  function StatusesOf(ds: seq<Delivery>): seq<ProcessStatus>
    decreases |ds|
  {
    if ds == [] then []
    else
      var d := ds[|ds| - 1];
      StatusesOf(ds[..|ds| - 1]) + (if d.Delivered? && d.body.Encoded? then [d.body.status] else [])
  }

  lemma StatusesOfSnoc(ds: seq<Delivery>, d: Delivery)
    ensures d.Delivered? && d.body.Encoded? ==> StatusesOf(ds + [d]) == StatusesOf(ds) + [d.body.status]
    ensures !(d.Delivered? && d.body.Encoded?) ==> StatusesOf(ds + [d]) == StatusesOf(ds)
  {
    assert (ds + [d])[..|ds|] == ds;
    assert StatusesOf(ds) + [] == StatusesOf(ds);
  }

  /** Message header values (`AMQPValue`) the monitor uses. */
  datatype HeaderValue = LongString(text: string) | Boolean(flag: bool)

  type HeaderTable = map<string, HeaderValue>

  /** The serialized `OrderMessage::Status`; its bytes are opaque here. */
  datatype Payload = StatusOrder

  datatype Publish = Publish(exchange: Exchange, routingKey: RoutingKey, payload: Payload, headers: HeaderTable)

  /** The routing key every status request is published with. */
  const StatusRoutingKey: string := "mcai_workers_status"

  /** A status request carrying `headers`: always the same destination and payload. */
  function StatusRequest(headers: HeaderTable): (p: Publish)
    ensures p.exchange == DirectMessaging && p.routingKey == Literal(StatusRoutingKey)
    ensures p.payload == StatusOrder && p.headers == headers
  {
    Publish(DirectMessaging, Literal(StatusRoutingKey), StatusOrder, headers)
  }

  /** The six queues the monitor declares, in declaration order. */
  const ConsumedQueues: seq<Queue> :=
    [WorkerCreated, WorkerInitialized, WorkerStarted, WorkerStatus, WorkerTerminated, WorkerUpdated]

  /** The declarations `declare_queue` issues for one queue. */
  function QueueDeclarations(queue: Queue): seq<Declaration> {
    [DeclareQueue(queue, true), Bind(WorkerResponse, queue, QueueName(queue))]
  }

  /** The whole topology, in the order it is declared. */
  function Topology(): seq<Declaration> {
    [DeclareExchange(WorkerResponse, Topic, Some(WorkerResponseNotFound))]
    + QueueDeclarations(WorkerCreated) + QueueDeclarations(WorkerInitialized)
    + QueueDeclarations(WorkerStarted) + QueueDeclarations(WorkerStatus)
    + QueueDeclarations(WorkerTerminated) + QueueDeclarations(WorkerUpdated)
  }

  /** `declare_queue`: a durable queue, then its binding to the response exchange under its own name. */
  method DeclareQueueAndBind(trace: seq<Declaration>, queue: Queue) returns (trace': seq<Declaration>)
    ensures trace' == trace + QueueDeclarations(queue)
  {
    trace' := trace + [DeclareQueue(queue, true)];
    trace' := trace' + [Bind(WorkerResponse, queue, QueueName(queue))];
  }

  /** `declare_consumed_queues`: the response exchange, then the six queues in order. */
  method DeclareConsumedQueues(trace: seq<Declaration>) returns (trace': seq<Declaration>)
    ensures trace' == trace + Topology()
  {
    trace' := trace + [DeclareExchange(WorkerResponse, Topic, Some(WorkerResponseNotFound))];
    trace' := DeclareQueueAndBind(trace', WorkerCreated);
    trace' := DeclareQueueAndBind(trace', WorkerInitialized);
    trace' := DeclareQueueAndBind(trace', WorkerStarted);
    trace' := DeclareQueueAndBind(trace', WorkerStatus);
    trace' := DeclareQueueAndBind(trace', WorkerTerminated);
    trace' := DeclareQueueAndBind(trace', WorkerUpdated);
  }

  /**
   * The shape of the topology: first the topic exchange whose alternate is the
   * "not found" exchange, then for each consumed queue, in order, a durable queue
   * declaration followed by its binding to the response exchange with the queue's own
   * name as routing key. Every queue is declared before it is bound.
   */
  lemma TopologyShape()
    ensures |Topology()| == 1 + 2 * |ConsumedQueues|
    ensures Topology()[0] == DeclareExchange(WorkerResponse, Topic, Some(WorkerResponseNotFound))
    ensures forall i :: 0 <= i < |ConsumedQueues| ==>
      Topology()[1 + 2 * i] == DeclareQueue(ConsumedQueues[i], true) &&
      Topology()[2 + 2 * i] == Bind(WorkerResponse, ConsumedQueues[i], QueueName(ConsumedQueues[i]))
  {
  }
}
