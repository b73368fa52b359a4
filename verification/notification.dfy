/** Device notifications (src/device/notification.rs): subscribing a handler to a topic,
    the callback that dispatches status-change notifications to it, and the handle whose
    `Drop` unsubscribes and frees the callback context. */
module Notifications {
  import opened Common
  import opened SdkErrors
  import opened Sdk
  import opened Enums

  /** A `DeckLinkNotificationCallback`, reduced to the answer `notify_status` gives. */
  datatype NotificationHandler = NotificationHandler(notifyStatus: StatusId -> bool)

  /** `DecklinkDeviceNotification`, as `wrap_notification` builds it. */
  class DeviceNotification {
    const dev: Ptr

    constructor (dev: Ptr)
      ensures this.dev == dev
    {
      this.dev := dev;
    }
  }

  /** The heap block whose address is the driver's callback context: the handler and the
      raw topic it was subscribed for. */
  class NotificationWrapper {
    const handler: NotificationHandler
    const topic: U32

    constructor (handler: NotificationHandler, topic: U32)
      ensures this.handler == handler && this.topic == topic
    {
      this.handler := handler;
      this.topic := topic;
    }
  }

  /** `notify_callback` for a context holding `handler` and `wrapperTopic`: a notification
      on another topic, or with a `param1` that names no status id, is acknowledged with 0
      without asking the handler; otherwise the handler's answer gives 0 or 1. */
  function NotifyCallback(
    handler: NotificationHandler, wrapperTopic: U32, topic: U32, param1: U64, table: map<int, StatusId>)
    : (r: I32)
    ensures r == 0 || r == 1
    ensures topic != wrapperTopic ==> r == 0
    ensures topic == wrapperTopic && param1 !in table ==> r == 0
    ensures topic == wrapperTopic && param1 in table ==> (r == 0 <==> handler.notifyStatus(table[param1]))
  {
    var result :=
      if topic == wrapperTopic then
        match FromPrimitive(table, param1)
        case Some(id) => handler.notifyStatus(id)
        case None => true
      else true;
    if result then 0 else 1
  }

  /** The handler is consulted at most once per notification, and only for its own topic
      and a known id: a handler that always answers true can never make the callback
      answer 1, whatever arrives. */
  lemma AgreeableHandlerAlwaysAcknowledged(
    handler: NotificationHandler, wrapperTopic: U32, topic: U32, param1: U64, table: map<int, StatusId>)
    requires forall id :: handler.notifyStatus(id)
    ensures NotifyCallback(handler, wrapperTopic, topic, param1, table) == 0
  {
  }

  /** `DeckLinkNotificationCallbackHandle`. */
  class CallbackHandle {
    const driver: Driver
    const parent: DeviceNotification
    const wrapper: NotificationWrapper
    const token: Ptr

    constructor (driver: Driver, parent: DeviceNotification, wrapper: NotificationWrapper, token: Ptr)
      ensures this.driver == driver && this.parent == parent
      ensures this.wrapper == wrapper && this.token == token
    {
      this.driver := driver;
      this.parent := parent;
      this.wrapper := wrapper;
      this.token := token;
    }

    /** `Drop`: unsubscribe with the stored topic and token, then free the context. */
    method Drop()
      modifies driver
      ensures driver.trace == old(driver.trace)
        + [NotificationUnsubscribe(parent.dev, wrapper.topic, token), Free(wrapper)]
      ensures driver.buffers == old(driver.buffers)
    {
      var _ := driver.Call(NotificationUnsubscribe(parent.dev, wrapper.topic, token));
      driver.Note(Free(wrapper));
    }
  }

  /** `subscribe`: allocate a context for `handler` and `topic`, hand it to the driver,
      and on success return a handle on the same context and the driver's token. A refused
      subscription returns the error and leaves the context allocated. */
  method Subscribe(driver: Driver, parent: DeviceNotification, topic: U32, handler: NotificationHandler)
    returns (r: Result<CallbackHandle>, ghost wrapper: NotificationWrapper, ghost status: I32, ghost token: Ptr)
    modifies driver
    ensures fresh(wrapper) && wrapper.handler == handler && wrapper.topic == topic
    ensures r.Ok? <==> IsOk(status)
    ensures r.Err? ==> r.error == FromCode(status)
    ensures r.Ok? ==>
      fresh(r.value) && r.value.driver == driver && r.value.parent == parent
      && r.value.wrapper == wrapper && r.value.token == token
    ensures driver.trace == old(driver.trace)
      + [Alloc(wrapper), NotificationSubscribe(parent.dev, topic, wrapper)]
    ensures driver.buffers == old(driver.buffers)
  {
    var w := new NotificationWrapper(handler, topic);
    driver.Note(Alloc(w));
    var s, t := driver.CallPtr(NotificationSubscribe(parent.dev, topic, w));
    wrapper, status, token := w, s, t;
    if IsOk(s) {
      var h := new CallbackHandle(driver, parent, w, t);
      r := Ok(h);
    } else {
      r := Err(FromCode(s));
    }
  }

  /** Subscribing and then dropping the handle allocates the context once, subscribes,
      unsubscribes with the same topic and token, and frees the context once, last. */
  lemma SubscriptionLifecycle(dev: Ptr, topic: U32, wrapper: NotificationWrapper, token: Ptr)
    ensures var added := [Alloc(wrapper), NotificationSubscribe(dev, topic, wrapper),
                          NotificationUnsubscribe(dev, topic, token), Free(wrapper)];
      TakenOnceReleasedLast(added, Alloc(wrapper), Free(wrapper))
  {
    Enclosed([], Alloc(wrapper),
      [NotificationSubscribe(dev, topic, wrapper), NotificationUnsubscribe(dev, topic, token)],
      Free(wrapper));
    assert [] + [Alloc(wrapper)]
      + [NotificationSubscribe(dev, topic, wrapper), NotificationUnsubscribe(dev, topic, token)]
      + [Free(wrapper)]
      == [Alloc(wrapper), NotificationSubscribe(dev, topic, wrapper),
          NotificationUnsubscribe(dev, topic, token), Free(wrapper)];
  }
}
