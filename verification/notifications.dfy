/**
 * The observer side of the application: `NotificationService` keeps a list of
 * subscribers and hands every message to each of them in subscription order;
 * a `NotificationDisplay` appends what it receives to the message array it
 * was built around. That array (`MessageLog`) is shared with the component
 * that owns it, which also appends to it directly.
 */
module Notifications {

  /** A mutable array of message strings. */
  class MessageLog {
    var entries: seq<string>

    constructor ()
      ensures entries == []
    {
      entries := [];
    }

    method Push(message: string)
      modifies this
      ensures entries == old(entries) + [message]
    {
      entries := entries + [message];
    }
  }

  /** `NotificationDisplay`: a subscriber that writes into one message array. */
  class NotificationDisplay {
    const notificationsArray: MessageLog

    constructor (notificationsArray: MessageLog)
      ensures this.notificationsArray == notificationsArray
    {
      this.notificationsArray := notificationsArray;
    }

    /** `update(message)`: appends the message to the display's array. */
    method Update(message: string)
      modifies notificationsArray
      ensures notificationsArray.entries == old(notificationsArray.entries) + [message]
    {
      notificationsArray.Push(message);
    }
  }

  /** `n` copies of `message`. */
  function Repeat(message: string, n: nat): (r: seq<string>)
    ensures |r| == n
    ensures forall k :: 0 <= k < n ==> r[k] == message
  {
    if n == 0 then [] else Repeat(message, n - 1) + [message]
  }

  /** How many of the subscribers write into `log`: the number of copies a broadcast puts there. */
  function Deliveries(subscribers: seq<NotificationDisplay>, log: MessageLog): nat {
    if subscribers == [] then 0
    else
      var last := subscribers[|subscribers| - 1];
      Deliveries(subscribers[..|subscribers| - 1], log) + (if last.notificationsArray == log then 1 else 0)
  }

  /** A log receives broadcasts exactly when some subscriber writes into it. */
  lemma {:induction false} DeliveriesPositive(subscribers: seq<NotificationDisplay>, log: MessageLog)
    ensures Deliveries(subscribers, log) > 0 <==>
            exists k :: 0 <= k < |subscribers| && subscribers[k].notificationsArray == log
  {
    if subscribers != [] {
      var init := subscribers[..|subscribers| - 1];
      DeliveriesPositive(init, log);
      if exists k :: 0 <= k < |init| && init[k].notificationsArray == log {
        var k :| 0 <= k < |init| && init[k].notificationsArray == log;
        assert subscribers[k] == init[k];
      }
    }
  }

  /** Subscribing one more display adds one delivery to its own log and none to any other. */
  lemma DeliveriesAppend(subscribers: seq<NotificationDisplay>, display: NotificationDisplay, log: MessageLog)
    ensures Deliveries(subscribers + [display], log) ==
            Deliveries(subscribers, log) + (if display.notificationsArray == log then 1 else 0)
  {
    assert (subscribers + [display])[..|subscribers|] == subscribers;
  }

  class NotificationService {
    var subscribers: seq<NotificationDisplay>

    constructor ()
      ensures subscribers == []
    {
      subscribers := [];
    }

    /** The message arrays a broadcast writes into. */
    function Targets(): set<MessageLog>
      reads this
    {
      set d | d in subscribers :: d.notificationsArray
    }

    /** `subscribe(subscriber)`: appends one subscriber. */
    method Subscribe(subscriber: NotificationDisplay)
      modifies this`subscribers
      ensures subscribers == old(subscribers) + [subscriber]
      ensures forall log :: Deliveries(subscribers, log) ==
                Deliveries(old(subscribers), log) + (if subscriber.notificationsArray == log then 1 else 0)
    {
      subscribers := subscribers + [subscriber];
      forall log: MessageLog ensures Deliveries(subscribers, log) ==
          Deliveries(old(subscribers), log) + (if subscriber.notificationsArray == log then 1 else 0) {
        DeliveriesAppend(old(subscribers), subscriber, log);
      }
    }

    /**
     * `notify(message)`: every subscriber's array receives the message once per
     * subscription, after what it held before; the subscriber list is unchanged
     * and no other array is touched.
     */
    method Notify(message: string)
      modifies Targets()
      ensures subscribers == old(subscribers)
      ensures forall log :: log in Targets() ==>
                log.entries == old(log.entries) + Repeat(message, Deliveries(subscribers, log))
    {
      var i := 0;
      while i < |subscribers|
        invariant 0 <= i <= |subscribers|
        invariant forall log :: log in Targets() ==>
                    log.entries == old(log.entries) + Repeat(message, Deliveries(subscribers[..i], log))
      {
        var display := subscribers[i];
        display.Update(message);
        assert subscribers[..i + 1] == subscribers[..i] + [display];
        forall log | log in Targets()
          ensures log.entries == old(log.entries) + Repeat(message, Deliveries(subscribers[..i + 1], log))
        {
          DeliveriesAppend(subscribers[..i], display, log);
        }
        i := i + 1;
      }
      assert subscribers[..i] == subscribers;
    }
  }
}
