/** The py-amqp RPC client script: it declares an exclusive reply queue of
    its own, publishes one correlated request, waits while it still has a
    consumer, and closes down. Its callback acknowledges the reply (unless
    --noack) and cancels the consumer, which ends the wait. */
module RpcClient {
  import opened Wrappers
  import opened Amqp

  /** The command-line inputs the core uses: the request body, the request
      queue and the acknowledgement mode. */
  datatype Config = Config(arg: string, queue: string, noack: bool)

  /** What `channel.wait()` can bring: a message on the reply queue, with
      the delivery tag the broker gave it, or a ^C. */
  datatype Event = Reply(message: Message, deliveryTag: nat) | Interrupt

  /** How the script ends: a reply ended the wait, a ^C did, or it is still
      waiting. */
  datatype Exit = Answered(reply: Message) | Interrupted | Waiting

  datatype Run = Run(ops: seq<Op>, exit: Exit)

  const ReplyPrefix: string := "rpc.client."

  /** The reply queue's name, made unique by the token `uuid1()` returns. */
  function ReplyQueueName(token: string): (name: string)
    ensures |name| == |ReplyPrefix| + |token| && name[..|ReplyPrefix|] == ReplyPrefix
    ensures name[|ReplyPrefix|..] == token
  {
    ReplyPrefix + token
  }

  /** Different tokens give different reply queues. */
  lemma ReplyQueueNameInjective(t1: string, t2: string)
    requires ReplyQueueName(t1) == ReplyQueueName(t2)
    ensures t1 == t2
  {
    assert t1 == ReplyQueueName(t1)[|ReplyPrefix|..];
  }

  /** The request: the argument as body, text/plain, the reply queue as reply
      address and the minted correlation id. */
  function RequestMessage(arg: string, replyQueue: string, correlationId: string): Message {
    Message(arg, Properties(Some(TextPlain), Some(replyQueue), Some(correlationId)))
  }

  /** What the callback issues for a reply: the ack unless --noack, then the
      cancellation of the consumer the reply was delivered to. */
  function ResponseOps(d: Delivery, noack: bool): (s: seq<Op>)
    ensures |s| == (if noack then 1 else 2)
    ensures (Ack(d.deliveryTag) in s <==> !noack) && s[|s| - 1] == Cancel(d.consumerTag)
    ensures forall i :: 0 <= i < |s| ==> s[i] == Cancel(d.consumerTag) || s[i] == Ack(d.deliveryTag)
  {
    (if noack then [] else [Ack(d.deliveryTag)]) + [Cancel(d.consumerTag)]
  }

  /** The callback; it reads the delivery and consumer tags and nothing else
      of the reply. */
  method Callback(ch: Channel, d: Delivery, noack: bool)
    modifies ch
    ensures ch.log == old(ch.log) + ResponseOps(d, noack)
    ensures ch.consumers == old(ch.consumers) - {d.consumerTag}
  {
    if !noack {
      ch.BasicAck(d.deliveryTag);
    }
    ch.BasicCancel(d.consumerTag);
  }

  /** The wait for the reply, with the consumer registered under `tag`: the
      first reply runs the callback, which leaves no consumer, so the loop
      ends; a ^C ends it too. */
  function Await(events: seq<Event>, tag: string, noack: bool): Run {
    if events == [] then Run([], Waiting)
    else match events[0]
      case Interrupt => Run([], Interrupted)
      case Reply(m, t) => Run(ResponseOps(Delivery(m, t, tag), noack), Answered(m))
  }

  /** `while channel.callbacks: channel.wait()`: the loop leaves no
      consumer exactly when a reply ended it. */
  method WaitLoop(ch: Channel, tag: string, events: seq<Event>, noack: bool) returns (exit: Exit)
    requires ch.consumers == {tag}
    modifies ch
    ensures ch.log == old(ch.log) + Await(events, tag, noack).ops
    ensures exit == Await(events, tag, noack).exit
    ensures ch.consumers == if exit.Answered? then {} else {tag}
  {
    var i := 0;
    while ch.consumers != {}
      invariant i <= 1 && i <= |events|
      invariant i == 0 ==> ch.consumers == {tag} && ch.log == old(ch.log)
      invariant i == 1 ==> events[0].Reply? && ch.consumers == {}
      invariant i == 1 ==> ch.log == old(ch.log) + ResponseOps(Delivery(events[0].message, events[0].deliveryTag, tag), noack)
      decreases 1 - i
    {
      if i == |events| {
        return Waiting;
      }
      if events[i].Interrupt? {
        return Interrupted;
      }
      Callback(ch, Delivery(events[i].message, events[i].deliveryTag, tag), noack);
      i := i + 1;
    }
    exit := Answered(events[0].message);
  }

  /** Closing down after the wait: the channel, then the connection; a
      script still waiting closes nothing. */
  function Closing(exit: Exit): seq<Op> {
    if exit == Waiting then [] else [ChannelClose, ConnectionClose]
  }

  /** The operations before the wait: the exclusive reply queue (the
      library's default auto-delete), its consumer, and the request routed
      through the nameless exchange to the request queue. */
  function SetupOps(config: Config, queueToken: string, correlationId: string, tag: string): seq<Op> {
    var name := ReplyQueueName(queueToken);
    [ Declare(name, false, true, true),
      Consume(name, tag, config.noack),
      Publish(RequestMessage(config.arg, name, correlationId), DefaultExchange, config.queue) ]
  }

  /** The script after argument parsing, with the tokens `uuid1()` returns,
      the consumer tag the broker assigns and the events of the wait. */
  method Script(config: Config, queueToken: string, correlationId: string, tag: string, events: seq<Event>)
    returns (ch: Channel, exit: Exit)
    ensures ch.log == SetupOps(config, queueToken, correlationId, tag) + Await(events, tag, config.noack).ops + Closing(exit)
    ensures exit == Await(events, tag, config.noack).exit
    ensures ch.consumers == if exit == Waiting then {tag} else {}
  {
    ch := new Channel();
    var queueName := ReplyQueueName(queueToken);
    var _ := ch.QueueDeclare(queueName, false, true, true, "");
    ch.BasicConsume(queueName, tag, config.noack);
    var msg := RequestMessage(config.arg, queueName, correlationId);
    ch.BasicPublish(msg, DefaultExchange, config.queue);
    exit := WaitLoop(ch, tag, events, config.noack);
    if exit != Waiting {
      ch.Close();
      ch.CloseConnection();
    }
  }

  /** The request goes to the request queue, carries the argument, and names
      as reply address a queue the script itself declared exclusive and
      consumes from, whose name starts with "rpc.client."; it carries the
      minted correlation id. */
  lemma RequestAddressesOwnQueue(config: Config, queueToken: string, correlationId: string, tag: string)
    ensures var s := SetupOps(config, queueToken, correlationId, tag);
      var m := s[2].message;
      && s[2].Publish? && s[2].exchange == DefaultExchange && s[2].routingKey == config.queue
      && m.body == config.arg && m.properties.contentType == Some(TextPlain)
      && m.properties.correlationId == Some(correlationId)
      && m.properties.replyTo == Some(s[0].queue) && s[0].Declare? && s[0].exclusive
      && s[1] == Consume(s[0].queue, tag, config.noack)
      && s[0].queue[..|ReplyPrefix|] == ReplyPrefix
  {
  }

  /** The first reply ends the call whatever it carries: two runs whose first
      replies differ in body and correlation id, and whose later events
      differ in any way, issue the same operations. */
  lemma {:induction false} FirstReplyEndsWait(m1: Message, m2: Message, t: nat, rest1: seq<Event>, rest2: seq<Event>, tag: string, noack: bool)
    ensures Await([Reply(m1, t)] + rest1, tag, noack).ops == Await([Reply(m2, t)] + rest2, tag, noack).ops
    ensures Await([Reply(m1, t)] + rest1, tag, noack).exit == Answered(m1)
  {
    assert ([Reply(m1, t)] + rest1)[0] == Reply(m1, t);
    assert ([Reply(m2, t)] + rest2)[0] == Reply(m2, t);
  }

  /** The script acknowledges only in manual-ack mode, and then exactly the
      reply it received; the consumer it registered is cancelled before the
      channel is closed. */
  lemma AckMatchesConsumerMode(config: Config, queueToken: string, correlationId: string, tag: string, events: seq<Event>)
    requires events != [] && events[0].Reply?
    ensures var run := Await(events, tag, config.noack);
      var log := SetupOps(config, queueToken, correlationId, tag) + run.ops + Closing(run.exit);
      && (Ack(events[0].deliveryTag) in log <==> !config.noack)
      && log[|log| - 3] == Cancel(tag) && log[|log| - 2] == ChannelClose && log[|log| - 1] == ConnectionClose
      && log[1] == Consume(ReplyQueueName(queueToken), tag, config.noack)
  {
    var d := Delivery(events[0].message, events[0].deliveryTag, tag);
    var r := ResponseOps(d, config.noack);
    var setup := SetupOps(config, queueToken, correlationId, tag);
    var log := setup + (r + [ChannelClose, ConnectionClose]);
    assert Ack(d.deliveryTag) in log <==> Ack(d.deliveryTag) in r;
  }
}
