# RabbitMQ RPC examples, modelled in Dafny

This project models the four RPC example scripts of the repository. Each
one works over AMQP 0-9-1:

- `rpc_server.py` uses py-amqp. It consumes a request queue with
  prefetch one, answers each request with ten thousand times its number,
  and acknowledges unless `--noack`.
- `rpc_client.py` uses py-amqp. It declares its own exclusive reply queue
  `rpc.client.<uuid>`, publishes one correlated request, and takes the
  first reply. Its callback acknowledges the reply and cancels the
  consumer, which ends the wait.
- `aioamqp_server.py` uses aioamqp. It has a recursive `fib`, a request
  handler that publishes the answer before it acknowledges, and a server
  object with a `keep_running` flag. The main loop connects, waits for the
  connection to close and disconnects, over and over.
- `aioamqp_client.py` uses aioamqp. It is a single-slot client: one
  correlation id, one response slot and one waiter. The channel is opened
  lazily on the first call.

The broker is abstract. An `Amqp.Channel` object records every operation
issued on it, in order: declare, qos, consume, publish, ack, cancel, and
channel and connection close. It also records the set of live consumer
tags. One `Channel` stands for a channel together with the connection that
carries it, because each script opens exactly one channel per connection.

Some inputs are oracles, passed in as parameters:

- the tokens `uuid` returns;
- the names and consumer tags the broker assigns;
- the events that `channel.wait()` and the asyncio event loop deliver.

A loop that runs forever in the source runs here over a finite list of
such events. A run that uses up its events is reported as still waiting
or still running.

Python's `int(text)` and `str(number)` are modelled on ASCII text in
`Builtins`, as CPython 3.6 and later behave. `int` reads leading and trailing blanks, a sign, and digits
with single underscores between them. The exceptions the scripts can
raise are values of `Builtins.Fault`, returned through
`Result`/`Outcome`; they are not ruled out by preconditions.

Library behaviour the model takes as given:

- py-amqp's `queue_declare` defaults to `durable=False, auto_delete=True`.
- aioamqp's `queue_declare` defaults to all flags false.
- In aioamqp, a request without `reply_to` gives a routing key of None,
  which `basic_publish` cannot encode. It is modelled as a failure before
  anything is published.
- In aioamqp, an absent correlation id is echoed as absent.
- In py-amqp, reading an absent `correlation_id` or `reply_to` raises
  AttributeError. The callback reads the body first (line 36), then the
  correlation id (line 43), then the reply address (line 51).

Facts about the scripts that the model keeps as they are:

- The scripts have no connection retry or backoff.
- The aioamqp client has no map from correlation id to pending call. It
  holds one correlation id, one response slot and one waiter.
- No script checks for a queue declared twice with different flags.
- The aioamqp client releases its waiter on a reply with the wrong
  correlation id, so that call then fails with `int(None)`. It does not
  keep waiting.
- An exception in the aioamqp server's main loop ends the loop after one
  disconnect. It does not reconnect.
- The aioamqp server's `fib` is doubly recursive, so CPython's recursion
  limit (1000 frames by default) bounds the requests it can answer. The
  model gives `fib` the number of nested calls still allowed, `room`, as a
  parameter, because the frames already on the stack under the event loop
  are not fixed by the script. A request deeper than `room`, or a negative
  one, raises RecursionError and is neither answered nor acknowledged.

## Model

| member | source | states |
|---|---|---|
| Builtins.NatToStr | rpc_server.py:37 | `str(n)` of a natural is non-empty, all digits, and has no leading zero |
| Builtins.IntToStr | rpc_server.py:37 | `str(i)` starts with '-' exactly when i is negative, and the rest is a non-empty run of digits with no leading zero unless i is 0 |
| Builtins.Int | rpc_server.py:36 | `int(s)` yields the value the reading gives, and ValueError exactly when the reading refuses the text; which texts those are is stated by the lemmas below |
| Builtins.ParseIntOfIntToStr | rpc_server.py:36-37 | `int(str(i)) == i` for every integer |
| Builtins.IntToStrInjective | rpc_server.py:37 | distinct integers have distinct decimal spellings |
| Builtins.PaddedReadsBack | rpc_server.py:36 | blanks before and after `str(i)` do not change the value: it still reads back as i |
| Builtins.PlusSignReadsBack | rpc_server.py:36 | a '+' before the digits of n is accepted and reads back as n |
| Builtins.BlanksAloneRejected | rpc_server.py:36 | text of blanks only, the empty text included, is a ValueError |
| Builtins.UnderscoreBetweenDigits | rpc_server.py:36 | an '_' between two digits changes nothing, whatever surrounds them |
| Builtins.DanglingUnderscoreRejected | rpc_server.py:36 | an '_' at the end, doubled, or followed by anything but a digit, is a ValueError |
| Builtins.LeadingUnderscoreRejected | rpc_server.py:36 | an '_' where the number should start, after blanks and an optional sign, is a ValueError |
| Builtins.InnerBlankRejected | rpc_server.py:36 | a blank between two digits is a ValueError |
| Builtins.ForeignCharRejected | rpc_server.py:36 | any character other than a digit, a blank, a sign or '_', anywhere in the text, is a ValueError |
| Builtins.ZeroPaddedReadsBack | rpc_server.py:36 | zeros before the digits of n do not change it, with or without a '-': "007" reads as 7 and "-0" as 0 |
| Builtins.MisplacedSignRejected | rpc_server.py:36 | a '+' or '-' anywhere but right after the leading blanks is a ValueError: "1-2", "+-1" |
| Amqp.Channel.QueueDeclare | rpc_server.py:131-136 | appends the declare; an empty name yields the broker-chosen name |
| Amqp.Channel.BasicQos | rpc_server.py:141-145 | appends the qos settings |
| Amqp.Channel.BasicConsume | rpc_server.py:148-152 | appends the consume and registers the consumer tag |
| Amqp.Channel.BasicPublish | rpc_server.py:48-52 | appends the publish with its message, exchange and routing key |
| Amqp.Channel.BasicAck | rpc_server.py:57 | appends the ack of the delivery tag |
| Amqp.Channel.BasicCancel | rpc_client.py:42 | appends the cancel and removes that consumer tag |
| Amqp.Channel.Close | rpc_server.py:167 | appends the channel close; no consumer survives |
| Amqp.Channel.CloseConnection | rpc_server.py:168 | appends the connection close; no consumer survives |
| RpcServer.Respond | rpc_server.py:36-37 | succeeds exactly when the body is an integer; the reply reads back as ten thousand times it; otherwise ValueError |
| RpcServer.CallbackReplies | rpc_server.py:36-60 | the callback succeeds exactly when the body is an integer and both correlation id and reply address are present; it then publishes one text/plain reply through the nameless exchange to the reply address, with the correlation id unchanged and body ten thousand times the request, followed by the ack of that delivery exactly when not `--noack` |
| RpcServer.Callback | rpc_server.py:20-61 | the channel gains exactly the callback's operations, or nothing when it raises; consumers unchanged |
| RpcServer.SetupOps | rpc_server.py:131-152 | queue declared non-exclusive with the configured durable/auto-delete; prefetch count 1, size 0, not global; consume from the same queue with `no_ack` equal to `--noack` |
| RpcServer.Wait | rpc_server.py:158-168 | one `channel.wait()`: a delivery runs the callback and keeps the consumers; a ^C or cancellation closes channel then connection and leaves no consumer |
| RpcServer.WaitLoop | rpc_server.py:156-168 | the log gains exactly what the wait loop issues for the events, and the loop ends as that run says; the consumers are gone exactly when it closed down |
| RpcServer.Serve | rpc_server.py:131-168 | the whole log is the setup followed by the wait loop's operations; the script's consumer is live unless it closed down |
| RpcServer.CallbackOpsRepliesThenAcks | rpc_server.py:40-58 | every successful callback run is one publish answering the delivery, then its ack unless `--noack` |
| RpcServer.AcksMatchMode | rpc_server.py:55-60 | over any run, no acks with `--noack`, otherwise one ack per reply |
| RpcServer.AckFollowsPublish | rpc_server.py:48-58 | every ack in the log immediately follows a publish that answers a delivered request, and acknowledges that request's delivery tag |
| RpcServer.RepliesEchoRequests | rpc_server.py:40-52 | every publish goes through the nameless exchange to the reply address of a delivered request, carrying its correlation id |
| RpcServer.AckOnlyInManualMode | rpc_server.py:148-152 | a log holding any ack comes from a consumer registered with `no_ack` false |
| RpcServer.ClosesChannelThenConnection | rpc_server.py:155-168 | a closed-down run ends with channel close then connection close; a crashed or waiting run closes neither |
| RpcClient.ReplyQueueName | rpc_client.py:108 | the reply queue name starts with "rpc.client." followed by the token |
| RpcClient.ReplyQueueNameInjective | rpc_client.py:108 | distinct tokens give distinct reply queues |
| RpcClient.ResponseOps | rpc_client.py:35-42 | the callback issues one operation with `--noack` and two without: the ack of that delivery exactly when not `--noack`, then the cancel of the delivering consumer, and nothing else |
| RpcClient.Callback | rpc_client.py:19-44 | the log gains the callback's operations and the delivering consumer is gone |
| RpcClient.WaitLoop | rpc_client.py:145-151 | the loop runs while consumers remain: the first reply ends it after the callback and leaves no consumer; a ^C ends it with nothing issued and the consumer still registered, as it stays while the script waits |
| RpcClient.Script | rpc_client.py:104-155 | the log is the setup, the wait's operations, then channel and connection close unless still waiting; no consumer is left unless still waiting |
| RpcClient.RequestAddressesOwnQueue | rpc_client.py:107-141 | the request goes through the nameless exchange to the request queue, with the argument as body, text/plain, the minted correlation id, and as reply address the queue the script itself declared exclusive and consumes from |
| RpcClient.FirstReplyEndsWait | rpc_client.py:19-44 | whatever body and correlation id the first reply carries, and whatever follows it, the run issues the same operations and ends with that reply |
| RpcClient.AckMatchesConsumerMode | rpc_client.py:116-155 | the reply is acked exactly when the consumer is in manual-ack mode; the cancel comes before channel close and connection close, which come last |
| AioServer.FibPairIsFib | aioamqp_server.py:13-19 | `fib` agrees with an independent linear recurrence on pairs |
| AioServer.FibOf | aioamqp_server.py:13-19 | `fib(n)` with `room` nested calls allowed returns fib(n) exactly when n >= 0 and its deepest nesting (n frames, one for n = 0) fits in `room`; otherwise RecursionError, always for a negative n |
| AioServer.RequestReplies | aioamqp_server.py:67-80 | a request is answered exactly when its body is a non-negative integer whose `fib` fits in the recursion room and it has a reply address; the answer is one publish to that address through the nameless exchange, with the correlation id unchanged and a body that reads back as fib of the request, then the ack of that delivery tag; otherwise nothing is issued, with ValueError for a non-integer and RecursionError for a negative or too deep one |
| AioServer.ConnectOps | aioamqp_server.py:36-40 | declare "rpc_queue" with the library defaults, prefetch 1 for this channel only, then consume "rpc_queue" with acks |
| AioServer.NothingAfterStop | aioamqp_server.py:46-62 | after `stop`, only the pending disconnect happens and the loop ends not running |
| AioServer.EndsOnlyWhenStopped | aioamqp_server.py:56-62 | the loop ends normally exactly when `keep_running` was already false or `stop` ran |
| AioServer.DisconnectsBalance | aioamqp_server.py:56-65 | as many disconnects as connects; an exception adds exactly one more disconnect, as the last step |
| AioServer.ConnectThenDisconnect | aioamqp_server.py:58-61 | every connect is followed at once by its disconnect, or by `stop` and then the disconnect |
| AioServer.FibonacciRpcServer.constructor | aioamqp_server.py:23-29 | no channel yet, `keep_running` true |
| AioServer.FibonacciRpcServer.Connect | aioamqp_server.py:31-41 | a fresh channel carrying exactly the connect operations, with one consumer |
| AioServer.FibonacciRpcServer.Disconnect | aioamqp_server.py:43-44 | records the disconnect and changes nothing else |
| AioServer.FibonacciRpcServer.Stop | aioamqp_server.py:46-54 | `keep_running` becomes false, then channel close and connection close, leaving no consumer; with no channel it raises |
| AioServer.FibonacciRpcServer.MainLoop | aioamqp_server.py:56-65 | the lifecycle follows the loop specification; `keep_running` is false exactly when the loop ended not running; the channel left is the old one if no connection was made, otherwise the last connection's fresh channel carrying exactly its connect operations, followed by the two closes and with no consumer when `stop` ended it |
| AioServer.FibonacciRpcServer.OnRequest | aioamqp_server.py:67-80 | the channel gains exactly the handler's operations, or nothing when it raises |
| AioClient.RequestCarriesCall | aioamqp_client.py:45-54 | the request body reads back as n; it carries the reply queue and the minted correlation id |
| AioClient.ConnectOps | aioamqp_client.py:27-32 | declare a broker-named exclusive queue, then consume exactly that name with `no_ack` |
| AioClient.LastMatchSpec | aioamqp_client.py:34-36 | the response slot is empty exactly when no reply carried the call's id; otherwise it holds the body of the last reply that did |
| AioClient.StaleRepliesIgnored | aioamqp_client.py:34-45 | replies carrying earlier calls' ids never fill the current call's slot |
| AioClient.FibonacciRpcClient.constructor | aioamqp_client.py:15-20 | no connection, no call, no waiter |
| AioClient.FibonacciRpcClient.Connect | aioamqp_client.py:22-32 | a fresh channel with the exclusive reply queue and its consumer; the reply queue is remembered; the client invariant is kept |
| AioClient.FibonacciRpcClient.BeginCall | aioamqp_client.py:40-55 | connects only when there is no connection, registering the one consumer; empties the slot, mints the id, and publishes exactly one request to "rpc_queue" through the nameless exchange |
| AioClient.FibonacciRpcClient.OnResponse | aioamqp_client.py:34-38 | stores the body exactly when the correlation id matches, and releases the waiter either way; raises with no waiter or before any call |
| AioClient.FibonacciRpcClient.EndCall | aioamqp_client.py:55-58 | drops the waiter and decodes the slot; an empty slot raises |
| AioClient.FibonacciRpcClient.Call | aioamqp_client.py:40-58 | with one reply delivered, the call returns the reply's number when the ids match and raises when they do not; the channel gains one request |
| AioClient.FibonacciRpcClient.Close | aioamqp_client.py:60-62 | channel close, then connection close, leaving no consumer; with no channel it raises |
| Scenarios.AioFibonacciCalls | aioamqp_client.py:65-75 | against the server, fib(n1) then fib(n2) both return the right numbers, over one connection that carries one declare, one consume, the two requests, then channel close and connection close |
| Scenarios.AioCall | aioamqp_client.py:40-58 | one call carried through the server's handler returns fib(n) |
| Scenarios.AioOverlappingCalls | aioamqp_client.py:34-58 | when a second call starts before the first reply arrives, that reply misses the current id but sets the current waiter, the second call's, and the second call fails with `int(None)` |
| Scenarios.PyRoundTrip | rpc_server.py:36-52 | the py-amqp server answers the client's request exactly when the argument is an integer; the answer goes to the client's reply queue with its correlation id and reads back as ten thousand times the argument, and it ends the client's wait |

## Left out

- Printing, argument parsing and connection parameters (host, credentials, SSL) are not modelled. They do not affect the messages the scripts exchange.
- Signal wiring, `shutdown` and the asyncio `loop` calls (aioamqp_server.py:83-108, aioamqp_client.py:78-83) are process control. They appear only as the `StoppedBySignal` session, in which `stop` runs while the server waits for the connection to close.
- rpc_delete.py is not part of this model. It is a single queue deletion.
- `uuid`, broker-chosen queue names and consumer tags are parameters. Freshness of the aioamqp correlation id is a precondition of `BeginCall`.
- Transport, framing, redelivery of unacknowledged messages and the blocking of `channel.wait()`/`wait_closed()` are not modelled. Waiting is an oracle list of events.
- AioServer.FibonacciRpcServer.MainLoop: an exception raised part-way through `connect` appears only as `Refused`. Whatever that connect had already issued on a channel is not recorded. A signal that arrives while connecting is also not modelled.
- AioServer.FibonacciRpcServer.OnRequest: what aioamqp does with an exception raised by a consumer callback is not modelled.
- AioClient.FibonacciRpcClient: `protocol` and `channel` are one field. `connect` sets both, and `call` tests `protocol`.
- AioClient.FibonacciRpcClient.Call: only one reply is delivered between the publish and the end of the wait. `OnResponse` itself may run any number of times.
- Builtins.Int: only ASCII decimal text is modelled. Non-ASCII digits and whitespace, and bytes input, are left out.
- Builtins.Int: the reading follows CPython 3.6 and later, which accept underscores between digits. The limit of 4300 digits on converting between integers and decimal text, added to CPython in the 2022 security releases, is not modelled: `int` and `str` here accept numbers of any length. That limit would make rpc_server.py:36-37 raise ValueError on a request of more than 4300 digits, or on one whose reply would be that long.
- RpcServer.WaitLoop: the callback the channel dispatches to is fixed as this script's callback. The ghost parameter only names it in the specification.
- RpcServer.WaitLoop: a ^C is modelled only between two waits. A KeyboardInterrupt raised inside the callback, which rpc_server.py:163 catches too, can leave a reply published but not acknowledged before the closes. The model has no event for that.
- RpcClient.WaitLoop: the broker cancelling the client's consumer is not an event. py-amqp would raise ConsumerCancelled, which the `except KeyboardInterrupt` at rpc_client.py:150 does not catch, so the script would end without closing. The model has only replies and ^C.
- AioServer.FibonacciRpcServer.MainLoop: a dropped connection's consumer stays in the model's channel. The channel records only what the client issues, and the broker's drop is not an operation.
- Scenarios.AioCall: requires the request to fit in the server's recursion room. A deeper request gets no reply, so the call would wait forever, which a terminating method cannot show. Scenarios.AioFibonacciCalls has the same precondition for the same reason.
- Scenarios.AioOverlappingCalls: the first call never wakes. Its `asyncio.Event` was replaced by the second call's and is never set. The model's single `waiter` field cannot show the orphaned event.
