/**
 `DecentIoTClass`: the client object with its pin handlers, its scheduled
 tasks and its configuration, and the two registrar helpers that fill it in.
 The MQTT client it talks to is replaced by two logs, `outbox` (every publish)
 and `subscriptions` (every subscribe); time (`millis()`) is a parameter.
 */
module DecentIoT {
  import opened Text
  import opened Values
  import opened Classifier
  import opened Topics
  import opened Scheduler

  datatype Option<T> = None | Some(value: T)

  datatype ReceiveHandler = ReceiveHandler(id: string, callback: CallbackId)
  datatype SendHandler = SendHandler(id: string, callback: CallbackId)

  /** One `publish(topic, payload, retained)` handed to the MQTT client. */
  datatype Publish = Publish(topic: string, payload: string, retained: bool)

  /** Each payload byte becomes one character of the message, `(char)payload[i]`. */
  function PayloadText(payload: seq<u8>): (s: string)
    ensures |s| == |payload|
    ensures forall i :: 0 <= i < |payload| ==> s[i] as int == payload[i] as int
  {
    seq(|payload|, i requires 0 <= i < |payload| => payload[i] as int as char)
  }

  /** The wire bytes of a message made of single-byte characters. */
  function TextBytes(s: string): (b: seq<u8>)
    requires forall i :: 0 <= i < |s| ==> s[i] as int < 256
    ensures PayloadText(b) == s
  {
    seq(|s|, i requires 0 <= i < |s| => s[i] as int as u8)
  }

  class Client {
    var projectId: string
    var userId: string
    var deviceId: string
    var broker: string
    var port: int
    var username: string
    var password: string
    var useWebSocket: bool
    var receiveHandlers: seq<ReceiveHandler>
    var sendHandlers: seq<SendHandler>
    var tasks: map<string, Task>
    ghost var outbox: seq<Publish>
    ghost var subscriptions: seq<string>

    /** A fresh client: port 1883, no WebSocket, nothing registered, nothing sent. */
    constructor ()
      ensures projectId == userId == deviceId == broker == username == password == ""
      ensures port == 1883 && !useWebSocket && !IsSecure()
      ensures receiveHandlers == [] && sendHandlers == [] && tasks == map[]
      ensures outbox == [] && subscriptions == []
    {
      projectId, userId, deviceId := "", "", "";
      broker, username, password := "", "", "";
      port := 1883;
      useWebSocket := false;
      receiveHandlers, sendHandlers := [], [];
      tasks := map[];
      outbox, subscriptions := [], [];
    }

    /** `isSecure`: the port is one of the two TLS ports. */
    predicate IsSecure()
      reads this
    {
      port == 8883 || port == 8884
    }

    /**
     `begin`: stores the configuration and picks the transport, WebSocket for
     8884 and plain TLS for 8883; any other port picks neither.
     */
    method Begin(projectId: string, userId: string, deviceId: string,
                 broker: string, port: int, username: string, password: string)
      modifies this`projectId, this`userId, this`deviceId, this`broker, this`port,
        this`username, this`password, this`useWebSocket
      ensures this.projectId == projectId && this.userId == userId && this.deviceId == deviceId
      ensures this.broker == broker && this.port == port
      ensures this.username == username && this.password == password
      ensures IsSecure() ==> useWebSocket == (port == 8884)
      ensures !IsSecure() ==> useWebSocket == old(useWebSocket)
    {
      this.projectId, this.userId, this.deviceId := projectId, userId, deviceId;
      this.broker, this.port := broker, port;
      this.username, this.password := username, password;
      if port == 8884 {
        useWebSocket := true;
      } else if port == 8883 {
        useWebSocket := false;
      }
    }

    /** `_getTopic(pin)` for this client's project, user and device. */
    function GetTopic(pin: string): (t: string)
      reads this
      ensures PinOf(t) == pin <==> '/' !in pin
    {
      PinOfTopic(projectId, userId, deviceId, pin);
      Topic(projectId, userId, deviceId, pin)
    }

    /** `onReceive`: appends a receive handler and subscribes to its topic. */
    method OnReceive(pin: string, cb: CallbackId)
      modifies this`receiveHandlers, this`subscriptions
      ensures receiveHandlers == old(receiveHandlers) + [ReceiveHandler(pin, cb)]
      ensures subscriptions == old(subscriptions) + [GetTopic(pin)]
    {
      receiveHandlers := receiveHandlers + [ReceiveHandler(pin, cb)];
      subscriptions := subscriptions + [GetTopic(pin)];
    }

    /** `onSend`: appends a send handler. */
    method OnSend(pin: string, cb: CallbackId)
      modifies this`sendHandlers
      ensures sendHandlers == old(sendHandlers) + [SendHandler(pin, cb)]
    {
      sendHandlers := sendHandlers + [SendHandler(pin, cb)];
    }

    /** `write(pin, bool)`: publishes `"true"` or `"false"`, retained. */
    method WriteBool(pin: string, value: bool)
      modifies this`outbox
      ensures outbox == old(outbox) + [Publish(GetTopic(pin), BoolText(value), true)]
    {
      var payload := if value then "true" else "false";
      outbox := outbox + [Publish(GetTopic(pin), payload, true)];
    }

    /** `write(pin, int)`: publishes the `%d` text of `value`, retained. */
    method WriteInt(pin: string, value: int32)
      modifies this`outbox
      ensures outbox == old(outbox) + [Publish(GetTopic(pin), Decimal(value as int), true)]
    {
      var buffer := Decimal(value as int);
      outbox := outbox + [Publish(GetTopic(pin), buffer, true)];
    }

    /** `write(pin, const char*)`: publishes the text as it is, retained. */
    method WriteText(pin: string, value: string)
      modifies this`outbox
      ensures outbox == old(outbox) + [Publish(GetTopic(pin), value, true)]
    {
      outbox := outbox + [Publish(GetTopic(pin), value, true)];
    }

    /** `publishStatus`: publishes the text to the status topic, retained. */
    method PublishStatus(status: string)
      modifies this`outbox
      ensures outbox == old(outbox) + [Publish(GetTopic("status"), status, true)]
    {
      var topic := StatusTopic(projectId, userId, deviceId);
      StatusTopicIsTopic(projectId, userId, deviceId);
      outbox := outbox + [Publish(topic, status, true)];
    }

    /**
     `_handleMessage`: the pin is read off the topic, the payload decoded, and
     the first receive handler registered for that pin, if any, is the one
     invoked (`target` is its position). `parse` is `String::toFloat`.
     */
    method HandleMessage(topic: string, payload: seq<u8>, parse: string -> Float32)
      returns (pin: string, v: Value, target: Option<nat>)
      ensures pin == PinOf(topic)
      ensures v == Classify(PayloadText(payload), parse)
      ensures target.Some? ==>
        target.value < |receiveHandlers| && receiveHandlers[target.value].id == pin &&
        forall j :: 0 <= j < target.value ==> receiveHandlers[j].id != pin
      ensures target.None? <==> forall j :: 0 <= j < |receiveHandlers| ==> receiveHandlers[j].id != pin
    {
      pin := PinOf(topic);
      var message := "";
      var i := 0;
      while i < |payload|
        invariant 0 <= i <= |payload|
        invariant message == PayloadText(payload[..i])
      {
        message := message + [payload[i] as int as char];
        i := i + 1;
      }
      assert payload[..i] == payload;

      if message == "true" || message == "false" {
        v := Bool(message == "true");
      } else {
        var numeric := false;
        if |message| > 0 {
          numeric := IsNumericString(message);
        }
        if numeric {
          v := Int(ToLong(message));
        } else if '.' in message && !IsZero(parse(message)) {
          v := Float(parse(message));
        } else {
          v := Str(message);
        }
      }

      target := None;
      var k := 0;
      while k < |receiveHandlers|
        invariant 0 <= k <= |receiveHandlers|
        invariant forall j :: 0 <= j < k ==> receiveHandlers[j].id != pin
      {
        if receiveHandlers[k].id == pin {
          target := Some(k);
          break;
        }
        k := k + 1;
      }
    }

    /** `schedule(taskId, interval, cb)`: stores the task with `lastRun` 0, replacing any task of that id. */
    method Schedule(taskId: string, interval: u32, cb: CallbackId)
      modifies this`tasks
      ensures tasks == old(tasks)[taskId := Task(0, interval, cb)]
    {
      tasks := tasks[taskId := Task(0, interval, cb)];
    }

    /** `schedule(interval, cb)`: the id is `"task_"` and the current millisecond count. */
    method ScheduleEvery(interval: u32, cb: CallbackId, now: u32)
      modifies this`tasks
      ensures tasks == old(tasks)[AnonTaskId(now) := Task(0, interval, cb)]
    {
      Schedule("task_" + Decimal(now as int), interval, cb);
    }

    /**
     `scheduleOnce(delay, cb)`: a one-shot task due `delay` ms after it is
     stored. `millis()` is read twice: `idTime` for the id `"once_" + millis()`
     and `now` for `lastRun`.
     */
    method ScheduleOnce(delay: u32, cb: CallbackId, idTime: u32, now: u32)
      modifies this`tasks
      ensures tasks == old(tasks)[OnceTaskId(idTime) := Task(now, delay, cb)]
    {
      var taskId := "once_" + Decimal(idTime as int);
      tasks := tasks[taskId := Task(now, delay, cb)];
    }

    /**
     `processScheduledTasks`: visits the tasks in ascending id order and runs
     each one that is due; `fired` lists the ids of the tasks run, in the
     order their callbacks are invoked.
     */
    method ProcessScheduledTasks(now: u32) returns (fired: seq<string>)
      modifies this`tasks
      ensures tasks == AfterTick(old(tasks), now)
      ensures StrictlySorted(fired)
      ensures forall i, j :: 0 <= i < j < |fired| ==> fired[i] != fired[j]
      ensures forall k :: k in fired <==> k in DueIds(old(tasks), now)
    {
      ghost var before := tasks;
      var remaining := tasks.Keys;
      fired := [];
      PartialTickNothingDone(before, now);
      while remaining != {}
        invariant remaining <= before.Keys
        invariant tasks == PartialTick(before, now, before.Keys - remaining)
        invariant StrictlySorted(fired)
        invariant forall k :: k in fired <==> k in before && k !in remaining && Due(before[k], now)
        invariant forall i, r :: 0 <= i < |fired| && r in remaining ==> Less(fired[i], r)
        decreases remaining
      {
        var k := MinKey(remaining);
        ghost var done := before.Keys - remaining;
        PartialTickStep(before, now, done, k);
        if Elapsed(now, tasks[k].lastRun) >= tasks[k].interval {
          fired := fired + [k];
          tasks := tasks[k := tasks[k].(lastRun := now)];
          if IsOnce(k) {
            tasks := tasks - {k};
          }
        }
        remaining := remaining - {k};
        assert before.Keys - remaining == done + {k};
        forall i, r | 0 <= i < |fired| && r in remaining
          ensures Less(fired[i], r)
        {
          if fired[i] == k {
            assert LessEq(k, r) && r != k;
          }
        }
      }
      StrictlySortedDistinct(fired);
    }
  }

  /** `DecentIoTReceiveRegistrar`: registers a receive handler on the client. */
  method ReceiveRegistrar(client: Client, pin: string, cb: CallbackId)
    modifies client`receiveHandlers, client`subscriptions
    ensures client.receiveHandlers == old(client.receiveHandlers) + [ReceiveHandler(pin, cb)]
    ensures client.subscriptions == old(client.subscriptions) + [client.GetTopic(pin)]
  {
    client.OnReceive(pin, cb);
  }

  /**
   `DecentIoTSendRegistrar`: with an interval, a periodic task `"send_" + pin`;
   without one (interval 0), a send handler.
   */
  method SendRegistrar(client: Client, pin: string, cb: CallbackId, interval: u32)
    modifies client`sendHandlers, client`tasks
    ensures interval > 0 ==>
      client.tasks == old(client.tasks)[SendTaskId(pin) := Task(0, interval, cb)] &&
      client.sendHandlers == old(client.sendHandlers)
    ensures interval == 0 ==>
      client.sendHandlers == old(client.sendHandlers) + [SendHandler(pin, cb)] &&
      client.tasks == old(client.tasks)
  {
    if interval > 0 {
      var taskId := "send_" + pin;
      client.Schedule(taskId, interval, cb);
    } else {
      client.OnSend(pin, cb);
    }
  }

  /**
   Decoding inverts encoding for a boolean: the pin read off the topic
   `write(pin, bool)` publishes to is `pin`, and its payload decodes to the
   same BOOL.
   */
  lemma WriteBoolRoundTrip(project: string, user: string, device: string, pin: string,
                           value: bool, parse: string -> Float32)
    requires '/' !in pin
    ensures PinOf(Topic(project, user, device, pin)) == pin
    ensures Classify(PayloadText(TextBytes(BoolText(value))), parse) == Bool(value)
  {
    PinOfTopic(project, user, device, pin);
    DecodeBoolText(value, parse);
  }

  /**
   Decoding inverts encoding for an integer: the pin read off the topic
   `write(pin, int)` publishes to is `pin`, and its payload decodes to the
   same INT.
   */
  lemma WriteIntRoundTrip(project: string, user: string, device: string, pin: string,
                          value: int32, parse: string -> Float32)
    requires '/' !in pin
    ensures PinOf(Topic(project, user, device, pin)) == pin
    ensures Classify(PayloadText(TextBytes(Decimal(value as int))), parse) == Int(value)
  {
    PinOfTopic(project, user, device, pin);
    DecodeDecimal(value, parse);
    DecimalIsAscii(value as int);
  }

  lemma DecimalIsAscii(n: int)
    ensures forall i :: 0 <= i < |Decimal(n)| ==> Decimal(n)[i] as int < 256
  {
  }
}
