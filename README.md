# DecentIoT client core, modelled in Dafny

DecentIoT lets an ESP8266/ESP32 device exchange typed values with an MQTT
broker through short "virtual pin" names (`P0`, `P1`, …). A pin maps to the
topic `{project}/users/{user}/datastreams/{device}/{pin}`. This project models
the logic of the client object `DecentIoTClass` and of the value type
`DecentIoTValue`:

- `Text` holds decimal formatting (`sprintf("%d")`, `String(int)`) and
  `String::toInt`. `String::toInt` is the C library's `atol`, that is
  `strtol(s, NULL, 10)`: it skips leading white space, reads an optional sign
  and the leading digits, and saturates to the 32-bit range. The module also
  holds the byte-wise order (`strcmp`) by which `std::map<String, …>` orders
  the scheduler's task ids.
- `Values` holds `DecentIoTValue` and its conversions to `bool`, `int`,
  `float`, `String` and `uint8_t`. A `float` is kept as its IEEE-754 bit
  pattern. The test `!= 0.0f` is modelled exactly: +0.0 and -0.0 compare
  equal to zero and NaN does not. The other float operations (`toFloat`, casts,
  `String(float)`) are left uninterpreted and passed in as a `FloatOps` record.
- `Classifier` holds `isNumericString`, a method with a loop proved against
  the predicate `IsNumeric`. It also holds the decoding chain of
  `_handleMessage` (`Classify`: boolean, then integer, then float, then string)
  and the lemmas about its precedence and round-trips.
- `Topics` holds `_getTopic`, the status topic, and the pin read off a topic
  (the text after its last `/`).
- `Scheduler` holds the task record, the 32-bit wrap-around due test, the
  whole-tick specification `AfterTick`, and the lemmas about it.
- `DecentIoT` holds the class `Client`. Its fields are a subset of the
  source's fields: the configuration (`_projectId` … `_password`, `_port`),
  `_useWebSocket`, the two handler lists and the task map. Its methods update
  the handler lists and the task map in place. The transport fields (`_client`,
  `_ws`, `_wsClient`, `_mqtt`, `_pubsub`, `_cert`) are replaced by two ghost
  logs: `outbox` records every `(topic, payload, retained)` published and
  `subscriptions` records every topic subscribed to. `_lastStatusUpdate` and
  `_statusUpdateInterval` belong to the status heartbeat, which is not
  modelled. `millis()` is a `now` parameter (two parameters where the source
  reads it twice). A callback is an
  opaque `CallbackId`. `processScheduledTasks` returns the ids of the tasks it
  ran, in the order their callbacks are invoked. `_handleMessage` returns the
  position of the receive handler it invokes.
  The registrars `DecentIoTReceiveRegistrar` and `DecentIoTSendRegistrar` are
  methods that take the client explicitly, instead of the global instance.

A few facts about the library that the model keeps:

- Tasks run in ascending id order, because `std::map` iterates in key order.
  They do not run in insertion order.
- The library has no operation that cancels a task.
- A pin's topic ends in the pin itself; there is no `/value` suffix.
- `publishStatus` publishes whatever text it is given.

## Model

| member | source | states |
|---|---|---|
| `Classifier.IsNumericString` | src/DecentIoT.cpp:244-259 | the scan accepts exactly the non-empty texts whose characters are digits, except that a `-` is allowed at index 0 |
| `Classifier.Classify` | src/DecentIoT.cpp:94-115 | a BOOL holds `message == "true"`; an INT comes only from a numeric text; a FLOAT holds the parse of the text and is non-zero; a STRING holds the text unchanged |
| `Classifier.ClassifyVariant` | src/DecentIoT.cpp:94-115 | decoding is total; each variant comes out exactly when its test holds and every earlier test fails: BOOL iff `"true"`/`"false"`, INT iff numeric, FLOAT iff not numeric, has a `.` and parses to non-zero, STRING otherwise |
| `Classifier.ClassifyBool` | src/DecentIoT.cpp:96-100 | `"true"` and `"false"` give BOOL with `boolValue == (message == "true")` |
| `Classifier.ToLongOfNumeric` | src/DecentIoT.cpp:101-105 | `toInt` of a numeric text is its digits, negated after a leading `-`, saturated to 32 bits |
| `Classifier.ClassifyNumeric` | src/DecentIoT.cpp:101-105 | a numeric text gives INT holding that value |
| `Classifier.ClassifyLoneDash` | src/DecentIoT.cpp:244-259 | `"-"` alone counts as numeric and decodes to INT 0 |
| `Classifier.ClassifyPlainText` | src/DecentIoT.cpp:106-115 | a text that is not boolean, not numeric and has no `.` gives STRING holding exactly that text, whatever float parsing does |
| `Classifier.ClassifyZeroFloat` | src/DecentIoT.cpp:106-115 | a text with a `.` that parses to zero falls through to STRING |
| `Classifier.DecodeBoolText` | src/DecentIoT.cpp:126-131 | the payload `write(pin, bool)` publishes decodes back to the same BOOL |
| `Classifier.DecodeDecimal` | src/DecentIoT.cpp:132-138 | the `%d` payload `write(pin, int)` publishes decodes back to the same INT, for every 32-bit value |
| `Classifier.DecodeOfText` | src/DecentIoT.h:80-91 | decoding the `operator String` text of a BOOL or INT value gives back that value |
| `Classifier.ClassifyNumberExamples` | src/DecentIoT.cpp:94-105 | `"true"` gives BOOL true, `"42"` gives INT 42, `"-3"` gives INT -3 |
| `Classifier.ClassifyTextExamples` | src/DecentIoT.cpp:106-115 | `"hello"` gives STRING; `"0.0"` gives STRING when it parses to zero; `"3.5"` gives FLOAT when it parses to non-zero |
| `Values.ToBool` | src/DecentIoT.h:44-55 | `operator bool`; `ByteAgreesWithBool`, `ByteOfIntIsLowByte`, `BoolAsNumber` and `TextConversionRoundTrip` state its properties |
| `Values.ToInt` | src/DecentIoT.h:56-67 | `operator int`; `BoolAsNumber` and `TextConversionRoundTrip` state its properties |
| `Values.ToFloat` | src/DecentIoT.h:68-79 | `operator float`; `BoolAsNumber` states that a BOOL becomes a float whose truth is the boolean |
| `Values.ToText` | src/DecentIoT.h:80-91 | `operator String`; `TextConversionRoundTrip` and `Classifier.DecodeOfText` state that its text reads back as the value |
| `Values.ToByte` | src/DecentIoT.h:92-103 | `operator uint8_t`; `ByteAgreesWithBool` and `ByteOfIntIsLowByte` state its properties |
| `Values.ByteAgreesWithBool` | src/DecentIoT.h:44-103 | for BOOL and STRING values, `operator uint8_t` is HIGH exactly when `operator bool` is true, and LOW otherwise |
| `Values.ByteOfIntIsLowByte` | src/DecentIoT.h:92-97 | for INT, `operator uint8_t` is `intValue` modulo 256, so INT 256 is true as a `bool` but LOW as a pin level |
| `Values.BoolAsNumber` | src/DecentIoT.h:56-61 | BOOL as `int` is 1 or 0, equal to its pin level, and reads back as the same `bool` |
| `Values.TextConversionRoundTrip` | src/DecentIoT.h:44-91 | the `String` of a BOOL read by `operator bool`, and of an INT read by `operator int` (`toInt`), give back the value |
| `Text.NatToDecimal` | src/DecentIoT.cpp:132-138 | the digits of a non-negative value: non-empty, all digits, one digit exactly below 10, and no leading zero except for 0 itself |
| `Text.Decimal` | src/DecentIoT.cpp:132-138 | the `%d` text is non-empty, starts with `-` exactly for negative values, and is otherwise made of digits |
| `Text.ToLong` | src/DecentIoT.cpp:101-105 | `String::toInt` as `atol`; `ToLongOfDecimal` and `Classifier.ToLongOfNumeric` state what it reads |
| `Text.Less` | src/DecentIoT.h:146 | the `strcmp` order of the task map's keys; `LessIrreflexive`, `LessTransitive` and `LessTotal` state that it is a strict total order |
| `Text.LessIrreflexive` | src/DecentIoT.h:146 | no id is less than itself |
| `Text.LessTransitive` | src/DecentIoT.h:146 | the key order is transitive |
| `Text.LessTotal` | src/DecentIoT.h:146 | any two distinct ids are ordered one way or the other |
| `Text.ToLongOfDecimal` | src/DecentIoT.cpp:132-138 | `toInt` reads every 32-bit value back from its `%d` text |
| `Topics.Topic` | src/DecentIoT.cpp:81-84 | `_getTopic`; `PinOfTopic` states that the pin can be read back off it |
| `Topics.StatusTopic` | src/DecentIoT.cpp:154 | the status topic; `StatusTopicIsTopic` states that it is the topic of pin `status` |
| `Topics.PinOf` | src/DecentIoT.cpp:88-89 | the text after the last `/`; `PinOfHasNoSlash` and `PinAfterLastSlash` state its properties |
| `Topics.LastIndexOf` | src/DecentIoT.cpp:89 | the result is -1 or a position holding the character, and no later position holds it |
| `Topics.StatusTopicIsTopic` | src/DecentIoT.cpp:152-156 | the status topic is the topic of pin `status` |
| `Topics.PinOfHasNoSlash` | src/DecentIoT.cpp:88-89 | the pin read off any topic holds no `/` |
| `Topics.PinAfterLastSlash` | src/DecentIoT.cpp:81-89 | the pin read off `prefix/pin` is `pin` when `pin` holds no `/` |
| `Topics.PinOfTopic` | src/DecentIoT.cpp:81-89 | reading the pin off `_getTopic(pin)` gives `pin` back exactly when `pin` holds no `/` |
| `Scheduler.Elapsed` | src/DecentIoT.cpp:221 | the elapsed time is `now - lastRun` when the clock has not wrapped, and `2^32 - (lastRun - now)` when it has |
| `Scheduler.Due` | src/DecentIoT.cpp:221 | the due test on the wrapped elapsed time; `DueAcrossWrap` and `PeriodicTimeline` state its behaviour |
| `Scheduler.IsOnce` | src/DecentIoT.cpp:227 | `indexOf("once_") == 0`; `MadeUpIdKinds` states which made-up ids it holds for |
| `Scheduler.AfterTick` | src/DecentIoT.cpp:216-241 | the map after a whole tick; `AfterTickPerTask`, `AfterTickKeepsTasks` and `OnceRunsOnce` state its properties |
| `Scheduler.StrictlySortedDistinct` | src/DecentIoT.cpp:219 | ids visited in strictly ascending map order are pairwise distinct |
| `Scheduler.MinKey` | src/DecentIoT.cpp:219 | the key the map visits next is the least remaining key in `strcmp` order |
| `Scheduler.PartialTickNothingDone` | src/DecentIoT.cpp:218-219 | before any task is visited the map is unchanged |
| `Scheduler.PartialTickStep` | src/DecentIoT.cpp:221-239 | visiting one task changes the map at that key only: re-armed if due, removed if due and `once_`, untouched otherwise |
| `Scheduler.AfterTickPerTask` | src/DecentIoT.cpp:216-241 | after a tick, a due `once_` task is gone, a due periodic task has `lastRun = now`, and a task that was not due is unchanged |
| `Scheduler.AfterTickKeepsTasks` | src/DecentIoT.cpp:216-241 | a tick adds no task and keeps the interval and callback of every task it keeps |
| `Scheduler.OnceRunsOnce` | src/DecentIoT.cpp:226-230 | a `once_` task that runs is absent from the map afterwards |
| `Scheduler.MadeUpIdKinds` | src/DecentIoT.cpp:191-227 | `scheduleOnce` ids start with `once_`; `"task_"` ids and `"send_" + pin` ids do not, so those tasks are never removed |
| `Scheduler.MadeUpIdsCollide` | src/DecentIoT.cpp:191-214 | two anonymous (or two one-shot) ids are equal exactly when they were made in the same millisecond, so the later task replaces the earlier |
| `Scheduler.PeriodicTimeline` | src/DecentIoT.cpp:197-241 | a task of interval 1000 scheduled with `lastRun` 0 runs at 1000 and 2000 but not at 500 or 1999 |
| `Scheduler.DueAcrossWrap` | src/DecentIoT.cpp:221 | the due test stays correct when the millisecond counter wraps past 2^32 |
| `DecentIoT.PayloadText` | src/DecentIoT.cpp:90-92 | the message has one character per payload byte, with the byte's value |
| `DecentIoT.Client.constructor` | src/DecentIoT.cpp:8-16 | a new client has port 1883, is not secure, does not use WebSocket, and has no handlers, tasks, publishes or subscriptions |
| `DecentIoT.Client.Begin` | src/DecentIoT.cpp:18-65 | stores the configuration; for a secure port (8883 or 8884, as `isSecure` tests) WebSocket is used exactly on 8884; any other port leaves the flag as it was |
| `DecentIoT.Client.GetTopic` | src/DecentIoT.cpp:81-84 | the pin read off the topic is the pin given exactly when it holds no `/` |
| `DecentIoT.Client.OnReceive` | src/DecentIoT.cpp:67-73 | appends one receive handler, keeps the earlier ones, and subscribes to the pin's topic |
| `DecentIoT.Client.OnSend` | src/DecentIoT.cpp:75-79 | appends one send handler and keeps the earlier ones |
| `DecentIoT.Client.WriteBool` | src/DecentIoT.cpp:126-131 | publishes `"true"`/`"false"` to the pin's topic, retained |
| `DecentIoT.Client.WriteInt` | src/DecentIoT.cpp:132-138 | publishes the `%d` text of the value to the pin's topic, retained |
| `DecentIoT.Client.WriteText` | src/DecentIoT.cpp:146-150 | publishes the text unchanged to the pin's topic, retained |
| `DecentIoT.Client.PublishStatus` | src/DecentIoT.cpp:152-156 | publishes the text to the topic of pin `status`, retained |
| `DecentIoT.Client.HandleMessage` | src/DecentIoT.cpp:86-124 | the pin is the text after the topic's last `/`; the value is the decoding of the payload text; the invoked handler is the first registered one with that pin, and none is invoked when no handler has it |
| `DecentIoT.Client.Schedule` | src/DecentIoT.cpp:197-204 | stores the task with `lastRun` 0, replacing any task of the same id, and changes no other task |
| `DecentIoT.Client.ScheduleEvery` | src/DecentIoT.cpp:191-195 | stores the task under `"task_" + now` with `lastRun` 0 |
| `DecentIoT.Client.ScheduleOnce` | src/DecentIoT.cpp:206-214 | stores the task under `"once_"` followed by the first `millis()` reading (`idTime`), with `lastRun` the second reading (`now`) and the delay as interval, and changes no other task |
| `DecentIoT.Client.ProcessScheduledTasks` | src/DecentIoT.cpp:216-241 | runs exactly the due tasks, each at most once, in ascending id order, and leaves the map as `AfterTick` describes |
| `DecentIoT.Client.IsSecure` | src/DecentIoT.cpp:186-189 | the port is 8883 or 8884; `Begin` and the constructor state the flag it gives |
| `DecentIoT.ReceiveRegistrar` | src/DecentIoT.h:208-215 | appends exactly one receive handler `{pin, cb}` at the end and keeps the earlier ones |
| `DecentIoT.SendRegistrar` | src/DecentIoT.h:217-234 | with an interval, stores task `"send_" + pin` and adds no send handler; with interval 0, appends one send handler and schedules nothing |
| `DecentIoT.WriteBoolRoundTrip` | src/DecentIoT.cpp:86-131 | a boolean written to a pin without `/` is read back from that topic as the same pin and the same BOOL |
| `DecentIoT.WriteIntRoundTrip` | src/DecentIoT.cpp:86-138 | an integer written to a pin without `/` is read back from that topic as the same pin and the same INT |

## Left out

- `begin`: only the field stores and the transport flag are modelled. The transport and TLS setup, the random client id (`random(0xffff)`) and the `connect` calls into the MQTT, WebSocket and TLS libraries are left out. So are `_setupWebSocket` and the destructor. All of these are calls into foreign libraries or certificate handling.
- `begin` is declared in src/DecentIoT.h with a different parameter order than it is defined with; the model follows the definition.
- `_webSocketEvent` is left out. It only writes log lines, and its "subscribe" loop sends nothing.
- `run` pumps the WebSocket client (when `_useWebSocket` is set) and the MQTT client, then calls `processScheduledTasks()`. The pumping is left out; `DecentIoT.Client.ProcessScheduledTasks` models the call, with `millis()` as `now`. `connected`, `disconnect` and `getStatus` are left out; they pass the call on to the MQTT client, which is not modelled. `getLastError` is left out; it always returns `""`.
- `setCACert`, `_subscribeAllPubSub`, the MQTT packet codec and the status heartbeat (`_sendMQTTConnect`, `_sendMQTTPublish`, `_sendMQTTSubscribe`, `_handleMQTTMessage`, `_handleMQTTPublish`, `_publishDeviceStatus`) are only declared in src/DecentIoT.h. The library defines no body for them, so there is nothing to model.
- `write(pin, float)` is left out, because `sprintf("%f")` formatting is floating-point.
- `operator float` is modelled by `Values.ToFloat`, but the float operations it and the other conversions call (`static_cast<float>(int)`, `static_cast<int>(float)`, `static_cast<uint8_t>(float)`, `String(float)`, `String::toFloat`) are kept uninterpreted (`FloatOps`, `parse`). Only `1.0f`, `0.0f` and the comparison with `0.0f` are interpreted.
- `Text.ToLong`: `String::toInt` belongs to the Arduino core, not to this library. It is modelled as `atol`, i.e. `strtol(s, NULL, 10)`, saturating out-of-range values at the 32-bit limits.
- `DecentIoT.ReceiveRegistrar` and `DecentIoT.SendRegistrar` take the client as a parameter. In the source they reach the global `DecentIoT` (src/DecentIoT.cpp:5-6) from static initialisers in the sketch's translation units. C++ does not fix the order of static initialisation across translation units. So a registrar may run before the global's own constructor, and that constructor may then reset the handler lists and the task map. The model assumes the client is constructed first, and does not capture that order.
- `DecentIoT.Client.HandleMessage`: the callback itself is not run; the method returns the position of the handler that would be invoked and the value it would receive.
- `DecentIoT.Client.ProcessScheduledTasks`: callbacks are opaque and change nothing. A callback that schedules or removes tasks during the pass is not modelled.
- Strings are modelled as free of NUL characters. Characters are modelled as single bytes (`strcmp` order on `unsigned char`). How Arduino `String` treats an embedded NUL is not modelled.
- The `outbox` records the arguments of each `_mqtt.publish(topic, payload, true)` call as written, not the MQTT library overload they bind to. If that overload reads its third argument as a length rather than a retained flag, the model does not capture it; the MQTT library is not part of this model.
- `DecentIoT.Client.HandleMessage` models what happens when the MQTT client delivers a message. Only the port-8884 branch of `begin` registers the `onMessage` callback (src/DecentIoT.cpp:44-45); on other ports the source never reaches `_handleMessage`. The model does not tie delivery to the port.
- The `outbox` records each publish with the retained flag as passed. What the broker or a given transport does with that flag is not modelled.
- The `subscriptions` log records each subscribe call whether or not the MQTT client is connected. What the MQTT client does with a subscribe while disconnected is not modelled.
