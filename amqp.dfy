/** The broker as the scripts see it: AMQP 0-9-1 basic-class messages and a
    channel that records, in order, every operation issued on it.

    One `Channel` object stands for a channel together with the connection
    that carries it (each script opens exactly one channel per connection),
    so closing the connection is recorded in the same log, after or before
    closing the channel. */
module Amqp {
  import opened Wrappers

  /** The message properties the scripts set or read. */
  datatype Properties = Properties(
    contentType: Option<string>,
    replyTo: Option<string>,
    correlationId: Option<string>)

  datatype Message = Message(body: string, properties: Properties)

  /** A message as handed to a consumer: the delivery tag identifies it for
      basic.ack, the consumer tag names the consumer it was delivered to. */
  datatype Delivery = Delivery(message: Message, deliveryTag: nat, consumerTag: string)

  /** The nameless exchange: it routes a message to the queue whose name is
      the routing key. */
  const DefaultExchange: string := ""

  const TextPlain: string := "text/plain"

  /** The operations a channel (and its connection) carries. */
  datatype Op =
    | Declare(queue: string, durable: bool, exclusive: bool, autoDelete: bool)
    | Qos(prefetchSize: nat, prefetchCount: nat, connectionGlobal: bool)
    | Consume(queue: string, consumerTag: string, noAck: bool)
    | Publish(message: Message, exchange: string, routingKey: string)
    | Ack(deliveryTag: nat)
    | Cancel(consumerTag: string)
    | ChannelClose
    | ConnectionClose

  class Channel {
    /** Every operation issued on this channel, oldest first. */
    var log: seq<Op>
    /** The tags of the consumers registered and not yet cancelled. */
    var consumers: set<string>

    constructor ()
      ensures log == [] && consumers == {}
    {
      log := [];
      consumers := {};
    }

    /** queue.declare; an empty name asks the broker to choose one, which is
        `generated` here. */
    method QueueDeclare(queue: string, durable: bool, exclusive: bool, autoDelete: bool, generated: string)
      returns (name: string)
      modifies this
      ensures name == if queue == "" then generated else queue
      ensures log == old(log) + [Declare(queue, durable, exclusive, autoDelete)]
      ensures consumers == old(consumers)
    {
      name := if queue == "" then generated else queue;
      log := log + [Declare(queue, durable, exclusive, autoDelete)];
    }

    method BasicQos(prefetchSize: nat, prefetchCount: nat, connectionGlobal: bool)
      modifies this
      ensures log == old(log) + [Qos(prefetchSize, prefetchCount, connectionGlobal)]
      ensures consumers == old(consumers)
    {
      log := log + [Qos(prefetchSize, prefetchCount, connectionGlobal)];
    }

    /** basic.consume; `tag` is the consumer tag the broker assigns. */
    method BasicConsume(queue: string, tag: string, noAck: bool)
      modifies this
      ensures log == old(log) + [Consume(queue, tag, noAck)]
      ensures consumers == old(consumers) + {tag}
    {
      log := log + [Consume(queue, tag, noAck)];
      consumers := consumers + {tag};
    }

    method BasicPublish(message: Message, exchange: string, routingKey: string)
      modifies this
      ensures log == old(log) + [Publish(message, exchange, routingKey)]
      ensures consumers == old(consumers)
    {
      log := log + [Publish(message, exchange, routingKey)];
    }

    method BasicAck(deliveryTag: nat)
      modifies this
      ensures log == old(log) + [Ack(deliveryTag)]
      ensures consumers == old(consumers)
    {
      log := log + [Ack(deliveryTag)];
    }

    method BasicCancel(tag: string)
      modifies this
      ensures log == old(log) + [Cancel(tag)]
      ensures consumers == old(consumers) - {tag}
    {
      log := log + [Cancel(tag)];
      consumers := consumers - {tag};
    }

    /** channel.close; the broker drops the channel's consumers with it. */
    method Close()
      modifies this
      ensures log == old(log) + [ChannelClose]
      ensures consumers == {}
    {
      log := log + [ChannelClose];
      consumers := {};
    }

    method CloseConnection()
      modifies this
      ensures log == old(log) + [ConnectionClose]
      ensures consumers == {}
    {
      log := log + [ConnectionClose];
      consumers := {};
    }
  }
}
