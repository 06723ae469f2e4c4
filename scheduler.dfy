/**
 The cooperative scheduler's tasks and what one tick of
 `processScheduledTasks` does to them. The tick itself, which updates the
 client's task map in place, is `DecentIoT.Client.ProcessScheduledTasks`.
 */
module Scheduler {
  import opened Text

  /** `unsigned long` / `uint32_t` on the ESP8266/ESP32 targets. */
  newtype u32 = x: int | 0 <= x < 0x1_0000_0000

  const Modulus: int := 0x1_0000_0000

  /** A callback is known only by an opaque identity. */
  type CallbackId = nat

  datatype Task = Task(lastRun: u32, interval: u32, callback: CallbackId)

  /** `currentTime - lastRun` in 32-bit unsigned arithmetic, which wraps around. */
  function Elapsed(now: u32, lastRun: u32): (r: u32)
    ensures lastRun <= now ==> r == now - lastRun
    ensures now < lastRun ==> r as int == Modulus - (lastRun as int - now as int)
  {
    ((now as int - lastRun as int) % Modulus) as u32
  }

  predicate Due(t: Task, now: u32) {
    Elapsed(now, t.lastRun) >= t.interval
  }

  /** `id.indexOf("once_") == 0`: the id starts with `once_`. */
  predicate IsOnce(id: string) {
    |id| >= 5 && id[..5] == "once_"
  }

  /** Ids the library makes up: `"task_" + millis()`, `"once_" + millis()`, `"send_" + pin`. */
  function AnonTaskId(now: u32): string {
    "task_" + Decimal(now as int)
  }

  function OnceTaskId(now: u32): string {
    "once_" + Decimal(now as int)
  }

  function SendTaskId(pin: string): string {
    "send_" + pin
  }

  /**
   The task map once the tick has visited the keys in `done`: a visited task
   that was due has run (its `lastRun` is `now`) and is gone if it is a
   one-shot; every other task is as it was.
   */
  function PartialTick(tasks: map<string, Task>, now: u32, done: set<string>): map<string, Task> {
    map k | k in tasks && !(k in done && Due(tasks[k], now) && IsOnce(k)) ::
      if k in done && Due(tasks[k], now) then tasks[k].(lastRun := now) else tasks[k]
  }

  /** The task map after a whole tick at time `now`. */
  function AfterTick(tasks: map<string, Task>, now: u32): map<string, Task> {
    PartialTick(tasks, now, tasks.Keys)
  }

  /** Before the tick has visited any key, nothing has changed. */
  lemma PartialTickNothingDone(tasks: map<string, Task>, now: u32)
    ensures PartialTick(tasks, now, {}) == tasks
  {
  }

  /** Visiting one more key `k` updates the map exactly at `k`, as the loop body does. */
  lemma PartialTickStep(tasks: map<string, Task>, now: u32, done: set<string>, k: string)
    requires k in tasks && k !in done
    ensures var cur := PartialTick(tasks, now, done);
      k in cur && cur[k] == tasks[k] &&
      PartialTick(tasks, now, done + {k}) ==
        if !Due(tasks[k], now) then cur
        else if IsOnce(k) then cur[k := tasks[k].(lastRun := now)] - {k}
        else cur[k := tasks[k].(lastRun := now)]
  {
  }

  /** The ids of the tasks a tick at time `now` runs. */
  function DueIds(tasks: map<string, Task>, now: u32): set<string> {
    set k | k in tasks && Due(tasks[k], now)
  }

  predicate StrictlySorted(ids: seq<string>) {
    forall i, j :: 0 <= i < j < |ids| ==> Less(ids[i], ids[j])
  }

  /** A strictly sorted list of ids holds each id at most once. */
  lemma StrictlySortedDistinct(ids: seq<string>)
    requires StrictlySorted(ids)
    ensures forall i, j :: 0 <= i < j < |ids| ==> ids[i] != ids[j]
  {
    forall i, j | 0 <= i < j < |ids|
      ensures ids[i] != ids[j]
    {
      LessIrreflexive(ids[i]);
    }
  }

  /** The least key of a non-empty set, in the map's order. */
  method MinKey(keys: set<string>) returns (m: string)
    requires keys != {}
    ensures m in keys
    ensures forall k :: k in keys ==> LessEq(m, k)
  {
    m :| m in keys;
    var rest := keys - {m};
    while rest != {}
      invariant rest <= keys && m in keys && m !in rest
      invariant forall k :: k in keys && k !in rest ==> LessEq(m, k)
      decreases rest
    {
      var x :| x in rest;
      if Less(x, m) {
        forall k | k in keys && k !in rest
          ensures LessEq(x, k)
        {
          if k != m {
            LessTransitive(x, m, k);
          }
        }
        m := x;
      } else if x != m {
        LessTotal(x, m);
      }
      rest := rest - {x};
    }
  }

  /** What one tick does to each task: due periodic tasks re-armed, due one-shots removed, the rest untouched. */
  lemma AfterTickPerTask(tasks: map<string, Task>, now: u32, k: string)
    requires k in tasks
    ensures Due(tasks[k], now) && IsOnce(k) ==> k !in AfterTick(tasks, now)
    ensures Due(tasks[k], now) && !IsOnce(k) ==>
      k in AfterTick(tasks, now) && AfterTick(tasks, now)[k] == tasks[k].(lastRun := now)
    ensures !Due(tasks[k], now) ==> k in AfterTick(tasks, now) && AfterTick(tasks, now)[k] == tasks[k]
  {
  }

  /** A tick adds no task, and keeps interval and callback of every task it keeps. */
  lemma AfterTickKeepsTasks(tasks: map<string, Task>, now: u32)
    ensures AfterTick(tasks, now).Keys <= tasks.Keys
    ensures forall k :: k in AfterTick(tasks, now) ==>
      AfterTick(tasks, now)[k].interval == tasks[k].interval &&
      AfterTick(tasks, now)[k].callback == tasks[k].callback
  {
  }

  /** A one-shot task, once run, is absent from the map on the next tick. */
  lemma OnceRunsOnce(tasks: map<string, Task>, now: u32)
    ensures forall k :: k in DueIds(tasks, now) && IsOnce(k) ==> k !in AfterTick(tasks, now)
  {
  }

  /** Tasks scheduled by interval and by pin are periodic; `scheduleOnce` tasks are one-shots. */
  lemma MadeUpIdKinds(now: u32, pin: string)
    ensures IsOnce(OnceTaskId(now))
    ensures !IsOnce(AnonTaskId(now))
    ensures !IsOnce(SendTaskId(pin))
  {
  }

  /** Made-up ids collide exactly when the calls fall in the same millisecond. */
  lemma MadeUpIdsCollide(a: u32, b: u32)
    ensures AnonTaskId(a) == AnonTaskId(b) <==> a == b
    ensures OnceTaskId(a) == OnceTaskId(b) <==> a == b
  {
    if AnonTaskId(a) == AnonTaskId(b) {
      assert AnonTaskId(a)[5..] == Decimal(a as int) && AnonTaskId(b)[5..] == Decimal(b as int);
      NatToDecimalInjective(a as nat, b as nat);
    }
    if OnceTaskId(a) == OnceTaskId(b) {
      assert OnceTaskId(a)[5..] == Decimal(a as int) && OnceTaskId(b)[5..] == Decimal(b as int);
      NatToDecimalInjective(a as nat, b as nat);
    }
  }

  /** A periodic task of interval 1000 set at 0 runs at 1000 and 2000, not at 500 or 1999. */
  lemma PeriodicTimeline(cb: CallbackId)
    ensures var t0 := map["p" := Task(0, 1000, cb)];
      var t1 := AfterTick(t0, 500);
      var t2 := AfterTick(t1, 1000);
      var t3 := AfterTick(t2, 1999);
      var t4 := AfterTick(t3, 2000);
      && DueIds(t0, 500) == {} && t1 == t0
      && DueIds(t1, 1000) == {"p"} && t2 == map["p" := Task(1000, 1000, cb)]
      && DueIds(t2, 1999) == {} && t3 == t2
      && DueIds(t3, 2000) == {"p"} && t4 == map["p" := Task(2000, 1000, cb)]
  {
  }

  /** The due test survives the wrap of the 32-bit millisecond counter. */
  lemma DueAcrossWrap()
    ensures Due(Task(0xFFFF_FF00, 0x200, 0), 0x100)
    ensures !Due(Task(0xFFFF_FF00, 0x200, 0), 0xFF)
  {
  }
}
