/**
 The broker topic a virtual pin maps to, and the pin a topic maps back to.
 */
module Topics {

  /** `_getTopic(pin)`: `{project}/users/{user}/datastreams/{device}/{pin}`. */
  function Topic(project: string, user: string, device: string, pin: string): string {
    project + "/users/" + user + "/datastreams/" + device + "/" + pin
  }

  /** The topic `publishStatus` writes to, spelled out as the source does. */
  function StatusTopic(project: string, user: string, device: string): string {
    project + "/users/" + user + "/datastreams/" + device + "/status"
  }

  /** `String::lastIndexOf(c)`: the last position holding `c`, or -1. */
  function LastIndexOf(s: string, c: char): (r: int)
    ensures -1 <= r < |s|
    ensures 0 <= r ==> s[r] == c
    ensures forall j :: r < j < |s| ==> s[j] != c
  {
    if |s| == 0 then -1
    else if s[|s| - 1] == c then |s| - 1
    else LastIndexOf(s[..|s| - 1], c)
  }

  /** The pin `_handleMessage` reads off a topic: everything after its last `/`. */
  function PinOf(topic: string): string {
    topic[LastIndexOf(topic, '/') + 1..]
  }

  /** The status topic is the topic of the reserved pin `status`. */
  lemma StatusTopicIsTopic(project: string, user: string, device: string)
    ensures StatusTopic(project, user, device) == Topic(project, user, device, "status")
  {
  }

  /** A pin read off a topic never holds a `/`. */
  lemma PinOfHasNoSlash(topic: string)
    ensures '/' !in PinOf(topic)
  {
  }

  /** The pin read off `prefix + "/" + pin` is `pin` when `pin` holds no `/`. */
  lemma PinAfterLastSlash(prefix: string, pin: string)
    requires '/' !in pin
    ensures PinOf(prefix + "/" + pin) == pin
  {
    var s := prefix + "/" + pin;
    var r := LastIndexOf(s, '/');
    assert s[|prefix|] == '/';
    assert r == |prefix|;
    assert s[r + 1..] == pin;
  }

  /** Topic and pin round-trip exactly for the pins that hold no `/`. */
  lemma PinOfTopic(project: string, user: string, device: string, pin: string)
    ensures PinOf(Topic(project, user, device, pin)) == pin <==> '/' !in pin
  {
    var prefix := project + "/users/" + user + "/datastreams/" + device;
    assert Topic(project, user, device, pin) == prefix + "/" + pin;
    if '/' !in pin {
      PinAfterLastSlash(prefix, pin);
    } else {
      PinOfHasNoSlash(Topic(project, user, device, pin));
    }
  }
}
