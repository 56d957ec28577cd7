/** The asyncio (aioamqp) Fibonacci RPC server: a pure recursive `fib`, a
    request handler that publishes the answer and then acknowledges, and a
    server object whose main loop connects, waits for the connection to
    close and disconnects, for as long as it is kept running. */
module AioServer {
  import opened Wrappers
  import opened Builtins
  import opened Amqp

  const RequestQueue: string := "rpc_queue"

  /** fib as written: two base cases and the doubly recursive step. */
  function Fib(n: nat): nat {
    if n == 0 then 0 else if n == 1 then 1 else Fib(n - 1) + Fib(n - 2)
  }

  /** An independent linear-time reference: the pair (fib(n), fib(n + 1)). */
  function FibPair(n: nat): (nat, nat) {
    if n == 0 then (0, 1) else var p := FibPair(n - 1); (p.1, p.0 + p.1)
  }

  lemma {:induction false} FibPairIsFib(n: nat)
    ensures FibPair(n) == (Fib(n), Fib(n + 1))
  {
    if n > 0 {
      FibPairIsFib(n - 1);
    }
  }

  /** The deepest nesting `fib(n)` reaches for n >= 0: fib(n), fib(n - 1),
      ..., down to fib(1), or the single call fib(0). */
  function Depth(n: nat): nat {
    if n == 0 then 1 else n
  }

  /** fib as CPython runs it when `room` more nested calls are allowed before
      the recursion limit: each call takes one frame, and running out raises
      RecursionError. A negative argument recurses past both base cases and
      runs out of any room. */
  function FibOf(n: int, room: nat): (r: Result<nat, Fault>)
    ensures r.Success? <==> n >= 0 && Depth(n) <= room
    ensures r.Success? ==> r.value == Fib(n)
    ensures r.Failure? ==> r.error == TooDeep
    decreases room
  {
    if room == 0 then Failure(TooDeep)
    else if n == 0 then Success(0)
    else if n == 1 then Success(1)
    else
      var a := FibOf(n - 1, room - 1);
      var b := FibOf(n - 2, room - 1);
      if a.Failure? then a
      else if b.Failure? then b
      else Success(a.value + b.value)
  }

  /** What `on_request` issues for one request, or the exception it raises
      before issuing anything: the body is decoded, fib computed with `room`
      nested calls to spare, the answer published to the reply address with
      the correlation id copied, and only then is the request acknowledged. A
      missing reply address makes the routing key None, which the publish
      cannot encode. */
  function RequestOps(d: Delivery, room: nat): Result<seq<Op>, Fault> {
    var props := d.message.properties;
    match Int(d.message.body)
    case Failure(f) => Failure(f)
    case Success(n) =>
      match FibOf(n, room)
      case Failure(f) => Failure(f)
      case Success(response) =>
        if props.replyTo.None? then Failure(Unset("reply_to"))
        else
          var reply := Message(IntToStr(response), Properties(None, None, props.correlationId));
          Success([Publish(reply, DefaultExchange, props.replyTo.value), Ack(d.deliveryTag)])
  }

  /** A request is answered exactly when its body is a non-negative integer
      whose fib fits in the recursion room, and it names a reply address; the
      answer is one publish through the nameless exchange to that address,
      echoing the correlation id, whose body reads back as fib of the
      request, followed by the ack of that very delivery. Otherwise nothing
      is published and nothing acknowledged. */
  lemma RequestReplies(d: Delivery, room: nat)
    ensures var r := RequestOps(d, room);
      var n := ParseInt(d.message.body);
      var props := d.message.properties;
      && (r.Success? <==> n.Some? && n.value >= 0 && Depth(n.value) <= room && props.replyTo.Some?)
      && (r.Success? ==>
            && |r.value| == 2
            && r.value[0].Publish?
            && r.value[0].exchange == DefaultExchange
            && Some(r.value[0].routingKey) == props.replyTo
            && r.value[0].message.properties.correlationId == props.correlationId
            && ParseInt(r.value[0].message.body) == Some(Fib(n.value))
            && r.value[1] == Ack(d.deliveryTag))
      && (n.None? ==> r == Failure(NotAnInteger))
      && (n.Some? && (n.value < 0 || Depth(n.value) > room) ==> r == Failure(TooDeep))
  {
    var n := ParseInt(d.message.body);
    if n.Some? && n.value >= 0 {
      ParseIntOfIntToStr(Fib(n.value));
    }
  }

  /** The operations `connect` issues on the fresh channel: declare the
      request queue with the library's defaults, prefetch one message for
      this channel only, then consume with acknowledgements. */
  function ConnectOps(tag: string): (s: seq<Op>)
    ensures |s| == 3 && s[0].Declare? && s[1].Qos? && s[2].Consume?
    ensures s[2].queue == s[0].queue == RequestQueue && s[2].consumerTag == tag && !s[2].noAck
    ensures s[1].prefetchCount == 1 && s[1].prefetchSize == 0 && !s[1].connectionGlobal
    ensures !s[0].durable && !s[0].exclusive && !s[0].autoDelete
  {
    [Declare(RequestQueue, false, false, false), Qos(0, 1, false), Consume(RequestQueue, tag, false)]
  }

  /** The lifecycle steps of the server, in the order they happen. */
  datatype Phase = Connected | Stopped | Disconnected

  /** How one pass of `while self.keep_running` ends, as the event loop
      delivers it: `aioamqp.connect` raises; or the connection is served
      under consumer tag `tag` until the broker drops it; or until a signal
      runs `stop`. */
  datatype Session = Refused | Dropped(tag: string) | StoppedBySignal(tag: string)

  /** How `main_loop` ends: `keep_running` was found false, an exception
      ended it, or it is still running when the sessions run out. */
  datatype LoopExit = NotRunning | Crashed | StillRunning

  datatype LoopRun = LoopRun(phases: seq<Phase>, exit: LoopExit)

  /** The lifecycle `main_loop` goes through. */
  function Loop(keepRunning: bool, sessions: seq<Session>): LoopRun {
    if !keepRunning then LoopRun([], NotRunning)
    else if sessions == [] then LoopRun([], StillRunning)
    else
      match sessions[0]
      case Refused => LoopRun([Disconnected], Crashed)
      case Dropped(_) =>
        var rest := Loop(true, sessions[1..]);
        LoopRun([Connected, Disconnected] + rest.phases, rest.exit)
      case StoppedBySignal(_) =>
        var rest := Loop(false, sessions[1..]);
        LoopRun([Connected, Stopped, Disconnected] + rest.phases, rest.exit)
  }

  function Count(p: Phase, phases: seq<Phase>): nat {
    if phases == [] then 0 else (if phases[0] == p then 1 else 0) + Count(p, phases[1..])
  }

  lemma {:induction false} CountAppend(p: Phase, a: seq<Phase>, b: seq<Phase>)
    ensures Count(p, a + b) == Count(p, a) + Count(p, b)
  {
    if a == [] {
      assert a + b == b;
    } else {
      assert (a + b)[1..] == a[1..] + b;
      CountAppend(p, a[1..], b);
    }
  }

  /** Once `stop` has run, nothing but the pending disconnect happens: no
      new connection is made and the loop ends for want of `keep_running`. */
  lemma {:induction false} NothingAfterStop(keepRunning: bool, sessions: seq<Session>, j: nat)
    requires j < |Loop(keepRunning, sessions).phases| && Loop(keepRunning, sessions).phases[j] == Stopped
    ensures Loop(keepRunning, sessions).phases[j + 1..] == [Disconnected]
    ensures Loop(keepRunning, sessions).exit == NotRunning
  {
    assert keepRunning && sessions != [];
    var run := Loop(keepRunning, sessions);
    match sessions[0]
    case Refused =>
      assert false;
    case Dropped(_) =>
      var rest := Loop(true, sessions[1..]);
      assert run == LoopRun([Connected, Disconnected] + rest.phases, rest.exit);
      assert j >= 2 && rest.phases[j - 2] == Stopped;
      NothingAfterStop(true, sessions[1..], j - 2);
      assert run.phases[j + 1..] == rest.phases[j - 2 + 1..];
    case StoppedBySignal(_) =>
      assert Loop(false, sessions[1..]) == LoopRun([], NotRunning);
      assert run == LoopRun([Connected, Stopped, Disconnected], NotRunning);
      assert j == 1;
  }

  /** The loop stops of its own accord exactly when `keep_running` was
      already false or `stop` ran. */
  lemma {:induction false} EndsOnlyWhenStopped(keepRunning: bool, sessions: seq<Session>)
    ensures Loop(keepRunning, sessions).exit == NotRunning <==> !keepRunning || Stopped in Loop(keepRunning, sessions).phases
  {
    if keepRunning && sessions != [] && sessions[0].Dropped? {
      EndsOnlyWhenStopped(true, sessions[1..]);
      var rest := Loop(true, sessions[1..]);
      assert Loop(keepRunning, sessions).phases == [Connected, Disconnected] + rest.phases;
      assert Stopped in rest.phases <==> Stopped in [Connected, Disconnected] + rest.phases;
    }
  }

  /** The loop makes as many disconnects as connections; an exception adds
      one more disconnect, which is the last thing the loop does. */
  lemma {:induction false} DisconnectsBalance(keepRunning: bool, sessions: seq<Session>)
    ensures var run := Loop(keepRunning, sessions);
      && Count(Disconnected, run.phases) == Count(Connected, run.phases) + (if run.exit == Crashed then 1 else 0)
      && (run.exit == Crashed ==> run.phases[|run.phases| - 1] == Disconnected)
  {
    if keepRunning && sessions != [] && !sessions[0].Refused? {
      var next := sessions[0].Dropped?;
      var rest := Loop(next, sessions[1..]);
      var head := if next then [Connected, Disconnected] else [Connected, Stopped, Disconnected];
      DisconnectsBalance(next, sessions[1..]);
      var tail := [Disconnected];
      assert tail[1..] == [];
      assert Count(Connected, tail) == 0 && Count(Disconnected, tail) == 1;
      if next {
        assert head[1..] == tail;
      } else {
        assert head[1..][1..] == tail;
        assert Count(Connected, head[1..]) == 0 && Count(Disconnected, head[1..]) == 1;
      }
      assert Count(Connected, head) == 1 && Count(Disconnected, head) == 1;
      CountAppend(Connected, head, rest.phases);
      CountAppend(Disconnected, head, rest.phases);
      var all := head + rest.phases;
      assert Loop(keepRunning, sessions) == LoopRun(all, rest.exit);
      if rest.exit == Crashed {
        assert all[|all| - 1] == rest.phases[|rest.phases| - 1];
      }
    }
  }

  /** The connection at `j` is closed by what comes right after it: the
      disconnect, or `stop` and then the disconnect. */
  predicate ClosedAfter(p: seq<Phase>, j: nat)
    requires j < |p|
  {
    || (j + 1 < |p| && p[j + 1] == Disconnected)
    || (j + 2 < |p| && p[j + 1] == Stopped && p[j + 2] == Disconnected)
  }

  /** Each pass of the loop that connects goes on to disconnect before any
      other connection is made, with at most `stop` in between. */
  lemma {:induction false} ConnectThenDisconnect(keepRunning: bool, sessions: seq<Session>, j: nat)
    requires j < |Loop(keepRunning, sessions).phases| && Loop(keepRunning, sessions).phases[j] == Connected
    ensures ClosedAfter(Loop(keepRunning, sessions).phases, j)
  {
    assert keepRunning && sessions != [];
    var run := Loop(keepRunning, sessions);
    match sessions[0]
    case Refused =>
      assert false;
    case Dropped(_) =>
      var rest := Loop(true, sessions[1..]);
      assert run == LoopRun([Connected, Disconnected] + rest.phases, rest.exit);
      if j >= 2 {
        assert rest.phases[j - 2] == Connected;
        ConnectThenDisconnect(true, sessions[1..], j - 2);
        assert forall k :: j - 2 <= k < |rest.phases| ==> run.phases[k + 2] == rest.phases[k];
      }
    case StoppedBySignal(_) =>
      assert Loop(false, sessions[1..]) == LoopRun([], NotRunning);
      assert run == LoopRun([Connected, Stopped, Disconnected], NotRunning);
  }

  /** The session whose connection `main_loop` opened last, if it opened any. */
  function LastConnect(keepRunning: bool, sessions: seq<Session>): (last: Option<Session>)
    ensures last.Some? ==> !last.value.Refused?
  {
    if !keepRunning || sessions == [] || sessions[0].Refused? then None
    else
      var later := LastConnect(sessions[0].Dropped?, sessions[1..]);
      if later.Some? then later else Some(sessions[0])
  }

  /** What a connected session leaves on its channel: the connect operations,
      then the channel close and connection close when `stop` ran. */
  function SessionLog(s: Session): seq<Op>
    requires !s.Refused?
  {
    ConnectOps(s.tag) + (if s.StoppedBySignal? then [ChannelClose, ConnectionClose] else [])
  }

  class FibonacciRpcServer {
    /** The channel of the current connection; null before the first connect. */
    var channel: Channel?
    var keepRunning: bool
    /** The lifecycle steps taken so far. */
    ghost var history: seq<Phase>

    constructor ()
      ensures channel == null && keepRunning && history == []
    {
      channel := null;
      keepRunning := true;
      history := [];
    }

    /** Open a connection and channel, declare the request queue, set
        prefetch to one and consume with `tag`. */
    method Connect(tag: string)
      modifies this
      ensures fresh(channel) && channel.log == ConnectOps(tag) && channel.consumers == {tag}
      ensures keepRunning == old(keepRunning) && history == old(history) + [Connected]
    {
      var ch := new Channel();
      var _ := ch.QueueDeclare(RequestQueue, false, false, false, "");
      ch.BasicQos(0, 1, false);
      ch.BasicConsume(RequestQueue, tag, false);
      channel := ch;
      history := history + [Connected];
    }

    method Disconnect()
      modifies this
      ensures channel == old(channel) && keepRunning == old(keepRunning)
      ensures history == old(history) + [Disconnected]
    {
      history := history + [Disconnected];
    }

    /** Clear `keep_running` first, then close the channel and then the
        connection; before any connect there is no channel to close. */
    method Stop() returns (r: Outcome<Fault>)
      modifies this, channel
      ensures !keepRunning && channel == old(channel) && history == old(history) + [Stopped]
      ensures old(channel) == null ==> r == Fail(Unset("channel"))
      ensures old(channel) != null ==> r == Pass && channel.log == old(channel.log) + [ChannelClose, ConnectionClose]
      ensures old(channel) != null ==> channel.consumers == {}
    {
      keepRunning := false;
      history := history + [Stopped];
      if channel == null {
        return Fail(Unset("channel"));
      }
      channel.Close();
      channel.CloseConnection();
      r := Pass;
    }

    /** `while self.keep_running: connect, wait_closed, disconnect`, and a
        disconnect when an exception ends the loop. The channel left behind
        is the one the last connection opened, closed if `stop` ran. */
    method MainLoop(sessions: seq<Session>) returns (exit: LoopExit)
      modifies this
      ensures history == old(history) + Loop(old(keepRunning), sessions).phases
      ensures exit == Loop(old(keepRunning), sessions).exit
      ensures keepRunning <==> exit != NotRunning
      ensures var last := LastConnect(old(keepRunning), sessions);
        && (last.None? ==> channel == old(channel))
        && (last.Some? ==> channel != null && fresh(channel) && channel.log == SessionLog(last.value))
        && (last.Some? && last.value.StoppedBySignal? ==> channel.consumers == {})
    {
      var i := 0;
      ghost var last: Option<Session> := None;
      while keepRunning
        invariant i <= |sessions|
        invariant old(history) + Loop(old(keepRunning), sessions).phases == history + Loop(keepRunning, sessions[i..]).phases
        invariant Loop(old(keepRunning), sessions).exit == Loop(keepRunning, sessions[i..]).exit
        invariant LastConnect(old(keepRunning), sessions)
          == if LastConnect(keepRunning, sessions[i..]).Some? then LastConnect(keepRunning, sessions[i..]) else last
        invariant last.None? ==> channel == old(channel)
        invariant last.Some? ==>
          (&& !last.value.Refused? && channel != null && fresh(channel)
           && channel.log == SessionLog(last.value) && (last.value.StoppedBySignal? ==> channel.consumers == {}))
        decreases |sessions| - i
      {
        if i == |sessions| {
          return StillRunning;
        }
        assert sessions[i..][0] == sessions[i] && sessions[i..][1..] == sessions[i + 1..];
        match sessions[i] {
          case Refused =>
            Disconnect();
            return Crashed;
          case Dropped(tag) =>
            Connect(tag);
            Disconnect();
          case StoppedBySignal(tag) =>
            Connect(tag);
            var _ := Stop();
            Disconnect();
        }
        last := Some(sessions[i]);
        i := i + 1;
      }
      exit := NotRunning;
    }

    /** `on_request`: decode, compute, publish the answer, then acknowledge;
        `room` is how many nested calls the interpreter still allows. */
    method OnRequest(ch: Channel, d: Delivery, room: nat) returns (r: Outcome<Fault>)
      modifies ch
      ensures RequestOps(d, room).Failure? ==> r == Fail(RequestOps(d, room).error) && ch.log == old(ch.log)
      ensures RequestOps(d, room).Success? ==> r == Pass && ch.log == old(ch.log) + RequestOps(d, room).value
      ensures ch.consumers == old(ch.consumers)
    {
      var props := d.message.properties;
      var n := Int(d.message.body);
      if n.Failure? {
        return Fail(n.error);
      }
      var response := FibOf(n.value, room);
      if response.Failure? {
        return Fail(response.error);
      }
      if props.replyTo.None? {
        return Fail(Unset("reply_to"));
      }
      var reply := Message(IntToStr(response.value), Properties(None, None, props.correlationId));
      ch.BasicPublish(reply, DefaultExchange, props.replyTo.value);
      ch.BasicAck(d.deliveryTag);
      r := Pass;
    }
  }
}
