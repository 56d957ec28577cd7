/** The scripts run against each other, with the broker reduced to routing
    a published message to the queue its routing key names. */
module Scenarios {
  import opened Wrappers
  import opened Builtins
  import opened Amqp
  import AioServer
  import AioClient
  import RpcServer
  import RpcClient

  /** The aioamqp pair: `rpc_client()` asks for fib(n1) and then fib(n2)
      over one lazily opened channel and closes it, the server answering
      each request with `room` nested calls to spare; both calls return the
      right number, and the client connects once: its channel carries one
      declare, one consume, the two requests, and the two closes. */
  method AioFibonacciCalls(n1: nat, n2: nat, t1: string, t2: string, generated: string, clientTag: string,
                           serverTag: string, dt1: nat, dt2: nat, room: nat)
    returns (r1: Result<int, Fault>, r2: Result<int, Fault>, clientLog: seq<Op>)
    requires t1 != t2
    requires AioServer.Depth(n1) <= room && AioServer.Depth(n2) <= room
    ensures r1 == Success(AioServer.Fib(n1)) && r2 == Success(AioServer.Fib(n2))
    ensures clientLog == AioClient.ConnectOps(generated, clientTag)
      + [ Publish(AioClient.RequestMessage(n1, generated, t1), DefaultExchange, AioClient.RequestQueue),
          Publish(AioClient.RequestMessage(n2, generated, t2), DefaultExchange, AioClient.RequestQueue),
          ChannelClose,
          ConnectionClose ]
  {
    var server := new AioServer.FibonacciRpcServer();
    server.Connect(serverTag);
    var client := new AioClient.FibonacciRpcClient();
    r1 := AioCall(server, client, n1, t1, generated, clientTag, serverTag, dt1, room);
    r2 := AioCall(server, client, n2, t2, generated, clientTag, serverTag, dt2, room);
    var _ := client.Close();
    clientLog := client.channel.log;
  }

  /** One aioamqp call carried through the server: the request the client
      publishes is routed to the queue the server consumes, the reply to the
      client's reply queue. */
  method AioCall(server: AioServer.FibonacciRpcServer, client: AioClient.FibonacciRpcClient, n: nat, token: string,
                 generated: string, clientTag: string, serverTag: string, dt: nat, room: nat)
    returns (r: Result<int, Fault>)
    requires AioServer.Depth(n) <= room
    requires server.channel != null && server.channel.consumers == {serverTag}
    requires Consume(AioServer.RequestQueue, serverTag, false) in server.channel.log
    requires client.Valid() && token !in client.minted && client.channel != server.channel
    modifies server.channel, client, client.channel
    ensures r == Success(AioServer.Fib(n))
    ensures client.Valid() && client.minted == old(client.minted) + [token] && client.waiter == AioClient.NoWaiter
    ensures old(client.channel) != null ==> client.channel == old(client.channel)
    ensures old(client.channel) == null ==> fresh(client.channel) && client.callbackQueue == Some(generated)
    ensures old(client.channel) != null ==> client.callbackQueue == old(client.callbackQueue)
    ensures var request := Publish(AioClient.RequestMessage(n, client.callbackQueue.value, token), DefaultExchange, AioClient.RequestQueue);
      && (old(client.channel) == null ==> client.channel.log == AioClient.ConnectOps(generated, clientTag) + [request])
      && (old(client.channel) != null ==> client.channel.log == old(client.channel.log) + [request])
    ensures client.channel != server.channel && client.channel != null && server.channel == old(server.channel)
    ensures server.channel.consumers == {serverTag} && Consume(AioServer.RequestQueue, serverTag, false) in server.channel.log
  {
    client.BeginCall(n, token, generated, clientTag);
    var queue := client.callbackQueue.value;
    var request := AioClient.RequestMessage(n, queue, token);
    var d := Delivery(request, dt, serverTag);
    AioClient.RequestCarriesCall(n, queue, token);
    AioServer.RequestReplies(d, room);
    var ops := AioServer.RequestOps(d, room).value;
    var _ := server.OnRequest(server.channel, d, room);
    var replyMessage := ops[0].message;
    assert ops[0].routingKey == queue;
    var _ := client.OnResponse(Delivery(replyMessage, 0, clientTag));
    r := client.EndCall();
    ParseIntOfIntToStr(AioServer.Fib(n));
  }

  /** The single-slot client cannot carry two calls at once: if a second
      call starts before the first one's reply arrives, that reply no longer
      matches the current correlation id, yet it sets the current waiter,
      which is the second call's; so the second call wakes and fails for want
      of a response. */
  method AioOverlappingCalls(n1: nat, n2: nat, t1: string, t2: string, generated: string, clientTag: string)
    returns (second: Result<int, Fault>)
    requires t1 != t2
    ensures second == Failure(NoResponse)
  {
    var client := new AioClient.FibonacciRpcClient();
    client.BeginCall(n1, t1, generated, clientTag);
    client.BeginCall(n2, t2, generated, clientTag);
    var reply := Message(IntToStr(AioServer.Fib(n1)), Properties(None, None, Some(t1)));
    var _ := client.OnResponse(Delivery(reply, 0, clientTag));
    second := client.EndCall();
  }

  /** The py-amqp pair: the server, consuming the queue the client publishes
      to, answers the client's request with ten thousand times its number,
      routed to the client's own reply queue under its correlation id, or
      raises when the argument is not an integer; the client takes the
      first reply and closes. */
  lemma PyRoundTrip(config: RpcClient.Config, serverConfig: RpcServer.Config, queueToken: string,
                    correlationId: string, clientTag: string, dt: nat, dt2: nat)
    requires serverConfig.queue == config.queue
    ensures var setup := RpcClient.SetupOps(config, queueToken, correlationId, clientTag);
      var request := setup[2];
      var served := RpcServer.CallbackOps(Delivery(request.message, dt, "server"), serverConfig.noack);
      && request.routingKey == RpcServer.SetupOps(serverConfig, "server")[2].queue
      && (served.Success? <==> ParseInt(config.arg).Some?)
      && (served.Success? ==>
            var reply := served.value[0];
            && reply.routingKey == setup[0].queue
            && reply.message.properties.correlationId == Some(correlationId)
            && ParseInt(reply.message.body) == Some(ParseInt(config.arg).value * 10000)
            && RpcClient.Await([RpcClient.Reply(reply.message, dt2)], clientTag, config.noack).exit
               == RpcClient.Answered(reply.message))
  {
    var setup := RpcClient.SetupOps(config, queueToken, correlationId, clientTag);
    RpcServer.CallbackReplies(Delivery(setup[2].message, dt, "server"), serverConfig.noack);
  }
}
