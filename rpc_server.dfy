/** The py-amqp RPC server script: it declares the request queue, asks for
    one unacknowledged message at a time, consumes, and answers each request
    with ten thousand times its number, then acknowledges it unless started
    with --noack. */
module RpcServer {
  import opened Wrappers
  import opened Builtins
  import opened Amqp

  /** The command-line options the core uses. */
  datatype Config = Config(queue: string, noack: bool, durable: bool, autoDelete: bool)

  /** What `channel.wait()` can bring: a delivery for the callback, a ^C, or
      the broker cancelling the consumer (when the queue is deleted). */
  datatype Event = Deliver(delivery: Delivery) | Interrupt | ConsumerCancelled

  /** How the script ends: it closed down after an interrupt or cancellation,
      an exception from the callback ended it, or it is still waiting. */
  datatype Exit = Closed | Crashed(fault: Fault) | Waiting

  /** The request transform: the decimal of ten thousand times the request's number. */
  function Respond(body: string): (r: Result<string, Fault>)
    ensures r.Success? <==> ParseInt(body).Some?
    ensures r.Success? ==> ParseInt(r.value) == Some(ParseInt(body).value * 10000)
    ensures r.Failure? ==> r.error == NotAnInteger
  {
    match Int(body)
    case Failure(f) => Failure(f)
    case Success(request) =>
      ParseIntOfIntToStr(request * 10000);
      Success(IntToStr(request * 10000))
  }

  /** The shape every successful callback run has: one publish of the reply
      through the nameless exchange to the request's reply address, carrying
      the request's correlation id, followed by the ack of that delivery
      unless --noack. */
  predicate IsReplyThenAck(ops: seq<Op>, d: Delivery, noack: bool) {
    && |ops| == (if noack then 1 else 2)
    && ops[0].Publish?
    && ops[0].exchange == DefaultExchange
    && d.message.properties.replyTo == Some(ops[0].routingKey)
    && ops[0].message.properties.correlationId == d.message.properties.correlationId
    && (!noack ==> ops[1] == Ack(d.deliveryTag))
  }

  /** The operations the callback issues for one delivery, or the exception
      it raises before issuing any: the body is read first, then the
      correlation id, then the reply address. */
  function CallbackOps(d: Delivery, noack: bool): Result<seq<Op>, Fault> {
    var props := d.message.properties;
    match Respond(d.message.body)
    case Failure(f) => Failure(f)
    case Success(response) =>
      if props.correlationId.None? then Failure(MissingProperty("correlation_id"))
      else if props.replyTo.None? then Failure(MissingProperty("reply_to"))
      else
        var reply := Message(response, Properties(Some(TextPlain), None, props.correlationId));
        var publish := Publish(reply, DefaultExchange, props.replyTo.value);
        Success(if noack then [publish] else [publish, Ack(d.deliveryTag)])
  }

  /** The callback succeeds exactly when the body is an integer and both the
      correlation id and the reply address are present; it then publishes a
      text/plain reply whose body reads back as ten thousand times the
      request, and acknowledges after publishing unless --noack. */
  lemma CallbackReplies(d: Delivery, noack: bool)
    ensures var r := CallbackOps(d, noack);
      && (r.Success? <==> ParseInt(d.message.body).Some? && d.message.properties.correlationId.Some?
                          && d.message.properties.replyTo.Some?)
      && (r.Success? ==>
            && IsReplyThenAck(r.value, d, noack)
            && r.value[0].message.properties.contentType == Some(TextPlain)
            && ParseInt(r.value[0].message.body) == Some(ParseInt(d.message.body).value * 10000))
      && (r.Failure? && ParseInt(d.message.body).None? ==> r.error == NotAnInteger)
  {
  }

  /** The callback: publish the reply, then acknowledge unless --noack. */
  method Callback(ch: Channel, d: Delivery, noack: bool) returns (r: Outcome<Fault>)
    modifies ch
    ensures CallbackOps(d, noack).Failure? ==> r == Fail(CallbackOps(d, noack).error) && ch.log == old(ch.log)
    ensures CallbackOps(d, noack).Success? ==> r == Pass && ch.log == old(ch.log) + CallbackOps(d, noack).value
    ensures ch.consumers == old(ch.consumers)
  {
    var props := d.message.properties;
    var response := Respond(d.message.body);
    if response.Failure? {
      return Fail(response.error);
    }
    if props.correlationId.None? {
      return Fail(MissingProperty("correlation_id"));
    }
    var reply := Message(response.value, Properties(Some(TextPlain), None, props.correlationId));
    if props.replyTo.None? {
      return Fail(MissingProperty("reply_to"));
    }
    ch.BasicPublish(reply, DefaultExchange, props.replyTo.value);
    if !noack {
      ch.BasicAck(d.deliveryTag);
    }
    r := Pass;
  }

  /** Declare the request queue, set prefetch to one for this channel, consume. */
  function SetupOps(config: Config, tag: string): (s: seq<Op>)
    ensures |s| == 3 && s[0].Declare? && s[1].Qos? && s[2].Consume?
    ensures !s[0].exclusive && s[0].durable == config.durable && s[0].autoDelete == config.autoDelete
    ensures s[1].prefetchCount == 1 && s[1].prefetchSize == 0 && !s[1].connectionGlobal
    ensures s[0].queue == s[2].queue == config.queue && s[2].noAck == config.noack
  {
    [ Declare(config.queue, config.durable, false, config.autoDelete),
      Qos(0, 1, false),
      Consume(config.queue, tag, config.noack) ]
  }

  /** A consumer callback, as `basic_consume` registers it: the operations it
      issues for a delivery, or the exception it raises. */
  type Handler = Delivery -> Result<seq<Op>, Fault>

  /** What the wait loop issues for a run of events, and how it ends. */
  datatype Run = Run(ops: seq<Op>, exit: Exit)

  /** What one `channel.wait()` does: a ^C or a cancellation closes down,
      a delivery runs the callback; `Waiting` means the loop goes on. */
  function Step(event: Event, callback: Handler): Run {
    if !event.Deliver? then Run([ChannelClose, ConnectionClose], Closed)
    else
      var r := callback(event.delivery);
      if r.Failure? then Run([], Crashed(r.error)) else Run(r.value, Waiting)
  }

  /** The whole wait loop over a run of events. */
  function Handle(events: seq<Event>, callback: Handler): Run {
    if events == [] then Run([], Waiting)
    else
      var step := Step(events[0], callback);
      if step.exit != Waiting then step
      else
        var rest := Handle(events[1..], callback);
        Run(step.ops + rest.ops, rest.exit)
  }

  lemma HandleFrom(events: seq<Event>, i: nat, callback: Handler)
    requires i < |events|
    ensures var step := Step(events[i], callback);
      Handle(events[i..], callback) ==
        if step.exit != Waiting then step
        else Run(step.ops + Handle(events[i + 1..], callback).ops, Handle(events[i + 1..], callback).exit)
  {
    assert events[i..][0] == events[i];
    assert events[i..][1..] == events[i + 1..];
  }

  /** The callback `basic_consume` registers in this script. */
  function ServerCallback(noack: bool): Handler {
    d => CallbackOps(d, noack)
  }

  /** One `channel.wait()`. */
  method Wait(ch: Channel, event: Event, noack: bool, ghost callback: Handler) returns (exit: Exit)
    requires forall d {:trigger CallbackOps(d, noack)} :: callback(d) == CallbackOps(d, noack)
    modifies ch
    ensures ch.log == old(ch.log) + Step(event, callback).ops
    ensures exit == Step(event, callback).exit
    ensures ch.consumers == if exit == Closed then {} else old(ch.consumers)
  {
    if !event.Deliver? {
      ch.Close();
      ch.CloseConnection();
      return Closed;
    }
    var r := Callback(ch, event.delivery, noack);
    exit := if r.Fail? then Crashed(r.error) else Waiting;
  }

  /** `while True: channel.wait()`: each delivery goes to the callback until a
      ^C or a consumer cancellation closes the channel and then the
      connection, or the callback raises and the exception ends the script.
      `callback` names what the registered callback does, for the
      specification only. */
  method WaitLoop(ch: Channel, events: seq<Event>, noack: bool, ghost callback: Handler) returns (exit: Exit)
    requires forall d {:trigger CallbackOps(d, noack)} :: callback(d) == CallbackOps(d, noack)
    modifies ch
    ensures ch.log == old(ch.log) + Handle(events, callback).ops
    ensures exit == Handle(events, callback).exit
    ensures ch.consumers == if exit == Closed then {} else old(ch.consumers)
  {
    var i := 0;
    while i < |events|
      invariant i <= |events|
      invariant ch.consumers == old(ch.consumers)
      invariant old(ch.log) + Handle(events, callback).ops == ch.log + Handle(events[i..], callback).ops
      invariant Handle(events, callback).exit == Handle(events[i..], callback).exit
    {
      HandleFrom(events, i, callback);
      exit := Wait(ch, events[i], noack, callback);
      if exit != Waiting {
        return;
      }
      i := i + 1;
    }
    exit := Waiting;
  }

  /** The whole script after argument parsing, with the broker's consumer
      tag and the events `channel.wait()` returns as inputs. */
  method Serve(config: Config, tag: string, events: seq<Event>) returns (ch: Channel, exit: Exit)
    ensures ch.log == SetupOps(config, tag) + Handle(events, ServerCallback(config.noack)).ops
    ensures exit == Handle(events, ServerCallback(config.noack)).exit
    ensures ch.consumers == if exit == Closed then {} else {tag}
  {
    ch := new Channel();
    var _ := ch.QueueDeclare(config.queue, config.durable, false, config.autoDelete, "");
    ch.BasicQos(0, 1, false);
    ch.BasicConsume(config.queue, tag, config.noack);
    assert ch.log == SetupOps(config, tag);
    ghost var callback := ServerCallback(config.noack);
    assert forall d {:trigger CallbackOps(d, config.noack)} :: callback(d) == CallbackOps(d, config.noack);
    exit := WaitLoop(ch, events, config.noack, callback);
  }

  /** Every run of the callback that succeeds has the reply-then-ack shape. */
  ghost predicate RepliesThenAcks(callback: Handler, noack: bool) {
    forall d :: callback(d).Success? ==> IsReplyThenAck(callback(d).value, d, noack)
  }

  lemma CallbackOpsRepliesThenAcks(noack: bool)
    ensures RepliesThenAcks(ServerCallback(noack), noack)
  {
    forall d | CallbackOps(d, noack).Success?
      ensures IsReplyThenAck(CallbackOps(d, noack).value, d, noack)
    {
      CallbackReplies(d, noack);
    }
  }

  /** Counts the acknowledgements in a log. */
  function Acks(ops: seq<Op>): nat {
    if ops == [] then 0 else (if ops[0].Ack? then 1 else 0) + Acks(ops[1..])
  }

  /** Counts the publishes in a log. */
  function Publishes(ops: seq<Op>): nat {
    if ops == [] then 0 else (if ops[0].Publish? then 1 else 0) + Publishes(ops[1..])
  }

  lemma {:induction false} CountsOfAppend(a: seq<Op>, b: seq<Op>)
    ensures Acks(a + b) == Acks(a) + Acks(b)
    ensures Publishes(a + b) == Publishes(a) + Publishes(b)
  {
    if a == [] {
      assert a + b == b;
    } else {
      assert (a + b)[1..] == a[1..] + b;
      CountsOfAppend(a[1..], b);
    }
  }

  /** In manual-ack mode every reply is acknowledged; with --noack nothing is. */
  lemma {:induction false} AcksMatchMode(events: seq<Event>, callback: Handler, noack: bool)
    requires RepliesThenAcks(callback, noack)
    ensures Acks(Handle(events, callback).ops) == if noack then 0 else Publishes(Handle(events, callback).ops)
  {
    if events != [] && events[0].Deliver? && callback(events[0].delivery).Success? {
      var d := events[0].delivery;
      var ops := callback(d).value;
      assert IsReplyThenAck(ops, d, noack);
      AcksMatchMode(events[1..], callback, noack);
      CountsOfAppend(ops, Handle(events[1..], callback).ops);
      if noack {
        assert ops[1..] == [];
      } else {
        assert ops[1..][1..] == [];
      }
    }
  }

  /** `p` answers the request `d`: sent through the nameless exchange to its
      reply address, with its correlation id. */
  predicate Echoes(p: Op, d: Delivery)
    requires p.Publish?
  {
    && p.exchange == DefaultExchange
    && d.message.properties.replyTo == Some(p.routingKey)
    && d.message.properties.correlationId == p.message.properties.correlationId
  }

  /** Every reply goes through the nameless exchange to the reply address of a
      request that was delivered, and carries that request's correlation id. */
  lemma {:induction false} RepliesEchoRequests(events: seq<Event>, callback: Handler, noack: bool, j: nat)
    requires RepliesThenAcks(callback, noack)
    requires j < |Handle(events, callback).ops| && Handle(events, callback).ops[j].Publish?
    ensures exists k :: 0 <= k < |events| && events[k].Deliver? && Echoes(Handle(events, callback).ops[j], events[k].delivery)
  {
    var d := events[0].delivery;
    var ops := callback(d).value;
    assert IsReplyThenAck(ops, d, noack);
    var rest := Handle(events[1..], callback).ops;
    if j < |ops| {
      assert j == 0;
      assert Handle(events, callback).ops[j] == ops[0];
    } else {
      RepliesEchoRequests(events[1..], callback, noack, j - |ops|);
      var k :| 0 <= k < |events[1..]| && events[1..][k].Deliver? && Echoes(rest[j - |ops|], events[1..][k].delivery);
      assert events[k + 1] == events[1..][k];
      assert Handle(events, callback).ops[j] == rest[j - |ops|];
    }
  }

  /** An acknowledgement never precedes the reply to the request it
      acknowledges: each ack immediately follows the publish that answers a
      delivered request, and acknowledges that very delivery. */
  lemma {:induction false} AckFollowsPublish(events: seq<Event>, callback: Handler, noack: bool, j: nat)
    requires RepliesThenAcks(callback, noack)
    requires j < |Handle(events, callback).ops| && Handle(events, callback).ops[j].Ack?
    ensures j > 0 && Handle(events, callback).ops[j - 1].Publish?
    ensures exists k ::
      && 0 <= k < |events| && events[k].Deliver?
      && Echoes(Handle(events, callback).ops[j - 1], events[k].delivery)
      && Handle(events, callback).ops[j] == Ack(events[k].delivery.deliveryTag)
  {
    var d := events[0].delivery;
    var ops := callback(d).value;
    assert IsReplyThenAck(ops, d, noack);
    var all := Handle(events, callback).ops;
    var rest := Handle(events[1..], callback).ops;
    assert all == ops + rest;
    if j < |ops| {
      assert j == 1 && all[0] == ops[0] && all[1] == ops[1];
      assert Echoes(all[0], events[0].delivery);
    } else {
      AckFollowsPublish(events[1..], callback, noack, j - |ops|);
      var k :|
        && 0 <= k < |events[1..]| && events[1..][k].Deliver?
        && Echoes(rest[j - |ops| - 1], events[1..][k].delivery)
        && rest[j - |ops|] == Ack(events[1..][k].delivery.deliveryTag);
      assert events[k + 1] == events[1..][k];
      assert all[j - 1] == rest[j - |ops| - 1] && all[j] == rest[j - |ops|];
    }
  }

  /** The script's acknowledgements agree with the consumer's mode: whenever
      its log holds an ack, its consumer was registered with no_ack false. */
  lemma AckOnlyInManualMode(config: Config, tag: string, events: seq<Event>)
    requires Acks(Handle(events, ServerCallback(config.noack)).ops) > 0
    ensures SetupOps(config, tag)[2] == Consume(config.queue, tag, false)
  {
    CallbackOpsRepliesThenAcks(config.noack);
    AcksMatchMode(events, ServerCallback(config.noack), config.noack);
  }

  /** Shutdown, when it happens, closes the channel and then the connection,
      last; a crash or a script still waiting closes neither. */
  lemma {:induction false} ClosesChannelThenConnection(events: seq<Event>, callback: Handler, noack: bool)
    requires RepliesThenAcks(callback, noack)
    ensures var run := Handle(events, callback);
      && (run.exit == Closed ==>
            |run.ops| >= 2 && run.ops[|run.ops| - 2] == ChannelClose && run.ops[|run.ops| - 1] == ConnectionClose)
      && (run.exit != Closed ==> ChannelClose !in run.ops && ConnectionClose !in run.ops)
  {
    if events != [] && events[0].Deliver? && callback(events[0].delivery).Success? {
      var d := events[0].delivery;
      var ops := callback(d).value;
      assert IsReplyThenAck(ops, d, noack);
      var rest := Handle(events[1..], callback);
      ClosesChannelThenConnection(events[1..], callback, noack);
      var all := ops + rest.ops;
      assert ChannelClose !in ops && ConnectionClose !in ops;
      if rest.exit == Closed {
        assert all[|all| - 1] == rest.ops[|rest.ops| - 1];
        assert all[|all| - 2] == rest.ops[|rest.ops| - 2];
      }
    }
  }
}
