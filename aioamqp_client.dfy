/** The asyncio (aioamqp) Fibonacci RPC client: one object holding a
    single pending call — one correlation id, one response slot and one
    waiter — over a lazily opened channel and an exclusive reply queue. */
module AioClient {
  import opened Wrappers
  import opened Builtins
  import opened Amqp

  const RequestQueue: string := "rpc_queue"

  /** The request `call(n)` publishes: the decimal of n, with the reply
      queue as reply address and the call's correlation id. */
  function RequestMessage(n: int, replyQueue: string, token: string): Message {
    Message(IntToStr(n), Properties(None, Some(replyQueue), Some(token)))
  }

  /** The request carries exactly the number asked for, and its reply
      address and correlation id. */
  lemma RequestCarriesCall(n: int, replyQueue: string, token: string)
    ensures var m := RequestMessage(n, replyQueue, token);
      && ParseInt(m.body) == Some(n)
      && m.properties.replyTo == Some(replyQueue)
      && m.properties.correlationId == Some(token)
  {
    ParseIntOfIntToStr(n);
  }

  /** What `connect` issues on its fresh channel: declare a queue with an
      empty name and exclusive set, so the broker names it `generated`, then
      consume from exactly that name without acknowledgements. */
  function ConnectOps(generated: string, tag: string): (s: seq<Op>)
    ensures |s| == 2 && s[0].Declare? && s[1].Consume?
    ensures s[0].queue == "" && s[0].exclusive && !s[0].durable && !s[0].autoDelete
    ensures s[1].queue == generated && s[1].consumerTag == tag && s[1].noAck
  {
    [Declare("", false, true, false), Consume(generated, tag, true)]
  }

  /** The body of the last reply whose correlation id is `token`: what
      `on_response` has left in the response slot. */
  function LastMatch(replies: seq<Message>, token: string): Option<string> {
    if replies == [] then None
    else if replies[|replies| - 1].properties.correlationId == Some(token) then Some(replies[|replies| - 1].body)
    else LastMatch(replies[..|replies| - 1], token)
  }

  predicate Matches(m: Message, token: string) {
    m.properties.correlationId == Some(token)
  }

  /** The slot is empty exactly when no reply carried the token; otherwise it
      holds the body of a reply that carried it, after which none did. */
  lemma {:induction false} LastMatchSpec(replies: seq<Message>, token: string)
    ensures LastMatch(replies, token).None? <==> forall i :: 0 <= i < |replies| ==> !Matches(replies[i], token)
    ensures LastMatch(replies, token).Some? ==>
      exists i :: 0 <= i < |replies| && Matches(replies[i], token)
        && replies[i].body == LastMatch(replies, token).value
        && forall j :: i < j < |replies| ==> !Matches(replies[j], token)
  {
    if replies != [] {
      var k := |replies| - 1;
      var prefix := replies[..k];
      if !Matches(replies[k], token) {
        LastMatchSpec(prefix, token);
        assert forall i :: 0 <= i < k ==> replies[i] == prefix[i];
        if LastMatch(prefix, token).Some? {
          var i :| 0 <= i < k && Matches(prefix[i], token) && prefix[i].body == LastMatch(prefix, token).value
            && forall j :: i < j < k ==> !Matches(prefix[j], token);
          assert replies[i] == prefix[i];
        }
      }
    }
  }

  /** A reply to an earlier call — one whose correlation id is not this
      call's — never fills this call's slot. */
  lemma StaleRepliesIgnored(replies: seq<Message>, token: string, earlier: seq<string>)
    requires token !in earlier
    requires forall i :: 0 <= i < |replies| ==> replies[i].properties.correlationId.Some? && replies[i].properties.correlationId.value in earlier
    ensures LastMatch(replies, token) == None
  {
    LastMatchSpec(replies, token);
  }

  /** The asyncio.Event the call waits on: none, created and not yet set,
      or set. */
  datatype Waiter = NoWaiter | Waiting | Released

  class FibonacciRpcClient {
    /** The channel, standing also for `protocol`: both are set by `connect`. */
    var channel: Channel?
    var callbackQueue: Option<string>
    /** None also before the first call, when the attribute does not yet exist. */
    var response: Option<string>
    /** None before the first call, when the attribute does not yet exist. */
    var corrId: Option<string>
    var waiter: Waiter
    /** The correlation ids minted so far, oldest first. */
    ghost var minted: seq<string>
    /** The replies delivered since the current call began. */
    ghost var replies: seq<Message>

    ghost predicate Valid()
      reads this
    {
      && (channel != null <==> callbackQueue.Some?)
      && (corrId.None? ==> replies == [] && response.None? && waiter == NoWaiter && minted == [])
      && (corrId.Some? ==> channel != null && |minted| > 0 && corrId.value == minted[|minted| - 1])
      && (corrId.Some? ==> response == LastMatch(replies, corrId.value))
    }

    constructor ()
      ensures Valid() && channel == null && corrId.None? && waiter == NoWaiter
    {
      channel := null;
      callbackQueue := None;
      response := None;
      corrId := None;
      waiter := NoWaiter;
      minted := [];
      replies := [];
    }

    /** Open the connection and channel, declare the exclusive reply queue
        (which the broker names `generated`) and consume from it. */
    method Connect(generated: string, tag: string)
      requires Valid()
      modifies this
      ensures Valid()
      ensures fresh(channel) && channel.log == ConnectOps(generated, tag) && channel.consumers == {tag}
      ensures callbackQueue == Some(generated)
      ensures response == old(response) && corrId == old(corrId) && waiter == old(waiter)
      ensures minted == old(minted) && replies == old(replies)
    {
      var ch := new Channel();
      var name := ch.QueueDeclare("", false, true, false, generated);
      callbackQueue := Some(name);
      ch.BasicConsume(name, tag, true);
      channel := ch;
    }

    /** `call(n)` up to `await self.waiter.wait()`: connect if there is no
        connection yet, empty the response slot, create the waiter, mint the
        correlation id `token` and publish the request to the request queue. */
    method BeginCall(n: int, token: string, generated: string, tag: string)
      requires Valid() && token !in minted
      modifies this, channel
      ensures Valid()
      ensures old(channel) != null ==> (channel == old(channel) && callbackQueue == old(callbackQueue)
        && channel.log == old(channel.log) + [Publish(RequestMessage(n, callbackQueue.value, token), DefaultExchange, RequestQueue)])
      ensures old(channel) == null ==> (fresh(channel) && callbackQueue == Some(generated)
        && channel.log == ConnectOps(generated, tag) + [Publish(RequestMessage(n, generated, token), DefaultExchange, RequestQueue)])
      ensures channel.consumers == if old(channel) == null then {tag} else old(channel.consumers)
      ensures response == None && corrId == Some(token) && waiter == Waiting
      ensures minted == old(minted) + [token] && replies == []
    {
      if channel == null {
        Connect(generated, tag);
      }
      response := None;
      waiter := Waiting;
      corrId := Some(token);
      minted := minted + [token];
      replies := [];
      channel.BasicPublish(RequestMessage(n, callbackQueue.value, token), DefaultExchange, RequestQueue);
    }

    /** `on_response`: keep the body if the correlation id is this call's,
        then release the waiter — whether or not it matched. */
    method OnResponse(d: Delivery) returns (r: Outcome<Fault>)
      requires Valid()
      modifies this
      ensures Valid()
      ensures channel == old(channel) && callbackQueue == old(callbackQueue) && corrId == old(corrId) && minted == old(minted)
      ensures old(corrId).None? ==> r == Fail(Unset("corr_id")) && response == old(response) && waiter == old(waiter)
      ensures old(corrId).Some? ==> (replies == old(replies) + [d.message]
        && response == (if Matches(d.message, old(corrId).value) then Some(d.message.body) else old(response)))
      ensures old(corrId).Some? && old(waiter) == NoWaiter ==> r == Fail(Unset("waiter")) && waiter == NoWaiter
      ensures old(corrId).Some? && old(waiter) != NoWaiter ==> r == Pass && waiter == Released
    {
      if corrId.None? {
        return Fail(Unset("corr_id"));
      }
      if corrId == d.message.properties.correlationId {
        response := Some(d.message.body);
      }
      replies := replies + [d.message];
      assert replies[..|replies| - 1] == old(replies);
      if waiter == NoWaiter {
        return Fail(Unset("waiter"));
      }
      waiter := Released;
      r := Pass;
    }

    /** `call(n)` after the wait: drop the waiter and decode the slot;
        `int(None)` raises when no reply matched. */
    method EndCall() returns (r: Result<int, Fault>)
      requires Valid() && waiter == Released
      modifies this
      ensures Valid() && waiter == NoWaiter
      ensures channel == old(channel) && callbackQueue == old(callbackQueue) && corrId == old(corrId)
      ensures response == old(response) && minted == old(minted) && replies == old(replies)
      ensures response.None? ==> r == Failure(NoResponse)
      ensures response.Some? ==> r == Int(response.value)
    {
      waiter := NoWaiter;
      if response.None? {
        return Failure(NoResponse);
      }
      r := Int(response.value);
    }

    /** A whole `call(n)` answered by one delivery to the reply queue: it
        yields the reply's number when the reply carries this call's
        correlation id, and fails when it does not, since that delivery
        releases the wait all the same. */
    method Call(n: int, token: string, generated: string, tag: string, reply: Delivery) returns (r: Result<int, Fault>)
      requires Valid() && token !in minted
      modifies this, channel
      ensures Valid() && waiter == NoWaiter && corrId == Some(token)
      ensures Matches(reply.message, token) ==> r == Int(reply.message.body)
      ensures !Matches(reply.message, token) ==> r == Failure(NoResponse)
      ensures old(channel) != null ==> (channel == old(channel)
        && channel.log == old(channel.log) + [Publish(RequestMessage(n, callbackQueue.value, token), DefaultExchange, RequestQueue)])
      ensures old(channel) == null ==> (fresh(channel) && callbackQueue == Some(generated)
        && channel.log == ConnectOps(generated, tag) + [Publish(RequestMessage(n, generated, token), DefaultExchange, RequestQueue)])
    {
      BeginCall(n, token, generated, tag);
      var _ := OnResponse(reply);
      r := EndCall();
    }

    /** `close`: the channel first, then the connection. */
    method Close() returns (r: Outcome<Fault>)
      modifies channel
      ensures old(channel) == null ==> r == Fail(Unset("channel"))
      ensures old(channel) != null ==> r == Pass && channel.log == old(channel.log) + [ChannelClose, ConnectionClose]
      ensures old(channel) != null ==> channel.consumers == {}
    {
      if channel == null {
        return Fail(Unset("channel"));
      }
      channel.Close();
      channel.CloseConnection();
      r := Pass;
    }
  }
}
