/**
 * The Rust wireless-signal watcher (src/wlan.rs): the two-threshold
 * hysteresis on signal quality, the threshold configuration word, the
 * decision the notification callback makes for each notification, and the
 * state effects of subscribing and unsubscribing. WLAN API calls are
 * parameters.
 */
module Wlan {
  import opened Base

  const DEFAULT_SIGNAL_DROP: u32 := 30
  const DEFAULT_SIGNAL_RECOVER: u32 := 40

  /** `WLAN_NOTIFICATION_SOURCE_*` and `wlan_notification_msm_*` codes of wlanapi.h. */
  const SOURCE_MSM: u32 := 0x0008
  const MSM_CONNECTED: u32 := 4
  const MSM_SIGNAL_QUALITY_CHANGE: u32 := 8
  const MSM_DISCONNECTED: u32 := 10

  /**
   * The hysteresis state: thresholds in percent of signal quality, whether
   * the signal is currently classified weak, and the last quality seen.
   */
  datatype SignalContext = SignalContext(
    thresholdDrop: u32,
    thresholdRecover: u32,
    isSignalWeak: bool,
    lastQuality: u32)

  /** The thresholds leave a dead zone strictly between them. */
  predicate ValidThresholds(ctx: SignalContext) {
    ctx.thresholdDrop < ctx.thresholdRecover
  }

  /**
   * `update_signal_state`: at or below the drop threshold the signal is weak,
   * otherwise at or above the recover threshold it is not; in between the
   * classification is kept. The quality is always recorded.
   */
  function UpdateSignalState(ctx: SignalContext, quality: u32): (r: SignalContext)
    ensures r.thresholdDrop == ctx.thresholdDrop && r.thresholdRecover == ctx.thresholdRecover
    ensures r.lastQuality == quality
    ensures quality <= ctx.thresholdDrop ==> r.isSignalWeak
    ensures ctx.thresholdDrop < quality && ctx.thresholdRecover <= quality ==> !r.isSignalWeak
    ensures ctx.thresholdDrop < quality < ctx.thresholdRecover ==> r.isSignalWeak == ctx.isSignalWeak
  {
    var weak :=
      if quality <= ctx.thresholdDrop then true
      else if quality >= ctx.thresholdRecover then false
      else ctx.isSignalWeak;
    ctx.(isSignalWeak := weak, lastQuality := quality)
  }

  /** A quality reading applied twice leaves the state it left the first time. */
  lemma UpdateIdempotent(ctx: SignalContext, quality: u32)
    ensures UpdateSignalState(UpdateSignalState(ctx, quality), quality) == UpdateSignalState(ctx, quality)
  {
  }

  /** The hysteresis keeps valid thresholds valid. */
  lemma UpdatePreservesThresholds(ctx: SignalContext, quality: u32)
    requires ValidThresholds(ctx)
    ensures ValidThresholds(UpdateSignalState(ctx, quality))
  {
  }

  /** Feeds a run of quality readings through the hysteresis, first to last. */
  function ApplyQualities(ctx: SignalContext, qs: seq<u32>): SignalContext
    decreases |qs|
  {
    if |qs| == 0 then ctx else ApplyQualities(UpdateSignalState(ctx, qs[0]), qs[1..])
  }

  /**
   * Independent reading of the hysteresis over a run: the classification is
   * decided by the most recent reading outside the dead zone, and when every
   * reading fell inside it, by the classification held before the run.
   */
  function WeakAfter(drop: u32, recover: u32, initial: bool, qs: seq<u32>): bool
    decreases |qs|
  {
    if |qs| == 0 then initial
    else
      var q := qs[|qs| - 1];
      if q <= drop then true
      else if q >= recover then false
      else WeakAfter(drop, recover, initial, qs[..|qs| - 1])
  }

  lemma {:induction false} ApplyQualitiesSnoc(ctx: SignalContext, qs: seq<u32>, q: u32)
    ensures ApplyQualities(ctx, qs + [q]) == UpdateSignalState(ApplyQualities(ctx, qs), q)
    decreases |qs|
  {
    if |qs| == 0 {
      assert qs + [q] == [q];
    } else {
      assert (qs + [q])[1..] == qs[1..] + [q];
      ApplyQualitiesSnoc(UpdateSignalState(ctx, qs[0]), qs[1..], q);
    }
  }

  /**
   * The state after a run of readings: thresholds untouched, the last
   * reading recorded, and the classification given by `WeakAfter`.
   */
  lemma {:induction false} ApplyQualitiesIsWeakAfter(ctx: SignalContext, qs: seq<u32>)
    ensures var r := ApplyQualities(ctx, qs);
            && r.thresholdDrop == ctx.thresholdDrop
            && r.thresholdRecover == ctx.thresholdRecover
            && r.isSignalWeak == WeakAfter(ctx.thresholdDrop, ctx.thresholdRecover, ctx.isSignalWeak, qs)
            && r.lastQuality == (if |qs| == 0 then ctx.lastQuality else qs[|qs| - 1])
    decreases |qs|
  {
    if |qs| > 0 {
      var init := qs[..|qs| - 1];
      var q := qs[|qs| - 1];
      assert qs == init + [q];
      ApplyQualitiesIsWeakAfter(ctx, init);
      ApplyQualitiesSnoc(ctx, init, q);
    }
  }

  /** The drop threshold the configuration word asks for: its low half, 0 meaning the default. */
  function ConfiguredDrop(args: u32): nat {
    if Low16(args) == 0 then DEFAULT_SIGNAL_DROP else Low16(args)
  }

  /** The recover threshold the configuration word asks for: its high half, 0 meaning the default. */
  function ConfiguredRecover(args: u32): nat {
    if High16(args) == 0 then DEFAULT_SIGNAL_RECOVER else High16(args)
  }

  /**
   * `resolve_signal_thresholds`: the configured drop is used as is; the
   * configured recover is kept when it is above drop and otherwise replaced
   * by drop + 5, so recover always ends above drop.
   */
  function ResolveSignalThresholds(args: u32): (r: (u32, u32))
    ensures r.0 == ConfiguredDrop(args) && 0 < r.0 < 0x10000
    ensures ConfiguredRecover(args) > r.0 ==> r.1 == ConfiguredRecover(args)
    ensures ConfiguredRecover(args) <= r.0 ==> r.1 == r.0 + 5
    ensures r.0 < r.1 <= 0xFFFF + 5
  {
    var drop := Low16(args);
    var recover := High16(args);
    var drop := if drop == 0 then DEFAULT_SIGNAL_DROP else drop;
    var recover := if recover == 0 then DEFAULT_SIGNAL_RECOVER else recover;
    var recover := if recover <= drop then drop + 5 else recover;
    (drop, recover)
  }

  /** An all-zero configuration word selects the defaults. */
  lemma ResolveDefaults()
    ensures ResolveSignalThresholds(0) == (30, 40)
  {
  }

  /**
   * A configuration word built from a drop and a recover threshold, both
   * non-zero with drop below recover, resolves to exactly those thresholds;
   * the gap between them may be anything from 1 up.
   */
  lemma ResolveKeepsOrderedPair(drop: nat, recover: nat)
    requires 0 < drop < recover < 0x10000
    ensures ResolveSignalThresholds(Pack16(drop, recover)) == (drop, recover)
  {
    SplitPack(drop, recover);
  }

  /** What `WlanQueryInterface` for the current connection returned. */
  datatype QueryReply = QueryReply(status: u32, signalQuality: Option<u32>)

  /**
   * `query_interface_signal`: a quality when the query succeeded and gave
   * data; the RSSI is not available from those attributes and is always 0.
   */
  function QueryInterfaceSignal(reply: QueryReply): (r: Option<(u32, i32)>)
    ensures r.Some? <==> reply.status == ERROR_SUCCESS && reply.signalQuality.Some?
    ensures r.Some? ==> r.value == (reply.signalQuality.value, 0)
  {
    if reply.status != ERROR_SUCCESS || reply.signalQuality.None? then None
    else Some((reply.signalQuality.value, 0))
  }

  /** The fields of `L2_NOTIFICATION_DATA` the callback reads. */
  datatype Notification = Notification(source: u32, code: u32)

  /** The callback's effect: the context afterwards, whether it queried, what it sends. */
  datatype CallbackEffect = CallbackEffect(context: Option<SignalContext>, queried: bool, send: Option<(u32, i32)>)

  /**
   * `wlan_notification_callback`. Null data, a null context or a non-MSM
   * source are ignored. A disconnect resets the context and sends (0, 0)
   * without querying. A connect or a quality change queries the signal and,
   * when the query answers, updates the hysteresis and sends the reading.
   * Any other code does nothing.
   */
  function WlanNotificationCallback(data: Option<Notification>, context: Option<SignalContext>, reply: QueryReply): (r: CallbackEffect)
    ensures data.None? || context.None? ==> r == CallbackEffect(context, false, None)
    ensures data.Some? && data.value.source != SOURCE_MSM ==> r == CallbackEffect(context, false, None)
    ensures data.Some? && context.Some? && data.value.source == SOURCE_MSM && data.value.code == MSM_DISCONNECTED ==>
      && r.send == Some((0, 0)) && !r.queried
      && r.context == Some(context.value.(lastQuality := 0, isSignalWeak := false))
    ensures data.Some? && context.Some? && data.value.source == SOURCE_MSM
            && (data.value.code == MSM_CONNECTED || data.value.code == MSM_SIGNAL_QUALITY_CHANGE) ==>
      && r.queried
      && r.send == QueryInterfaceSignal(reply)
      && (r.send.Some? ==> r.context == Some(UpdateSignalState(context.value, QueryInterfaceSignal(reply).value.0)))
      && (r.send.None? ==> r.context == context)
    ensures r.send.Some? ==> r.send.value.1 == 0
    ensures r.context.Some? <==> context.Some?
    ensures data.Some? && data.value.code !in {MSM_CONNECTED, MSM_SIGNAL_QUALITY_CHANGE, MSM_DISCONNECTED} ==>
      r == CallbackEffect(context, false, None)
  {
    if data.None? || context.None? then CallbackEffect(context, false, None)
    else if data.value.source != SOURCE_MSM then CallbackEffect(context, false, None)
    else
      var ctx := context.value;
      var code := data.value.code;
      if code == MSM_DISCONNECTED then
        CallbackEffect(Some(ctx.(lastQuality := 0, isSignalWeak := false)), false, Some((0, 0)))
      else if code == MSM_CONNECTED || code == MSM_SIGNAL_QUALITY_CHANGE then
        match QueryInterfaceSignal(reply)
        case Some((quality, rssi)) => CallbackEffect(Some(UpdateSignalState(ctx, quality)), true, Some((quality, rssi)))
        case None => CallbackEffect(context, true, None)
      else CallbackEffect(context, false, None)
  }

  /** A disconnect sends quality 0 whatever the previous classification was. */
  lemma DisconnectAlwaysSends(ctx: SignalContext, reply: QueryReply)
    ensures var r := WlanNotificationCallback(Some(Notification(SOURCE_MSM, MSM_DISCONNECTED)), Some(ctx), reply);
            r.send == Some((0, 0)) && r.context.value.thresholdDrop == ctx.thresholdDrop
            && r.context.value.thresholdRecover == ctx.thresholdRecover && !r.context.value.isSignalWeak
  {
  }

  /** `extract_first_interface_guid`: the first entry of a non-null, non-empty list. */
  function FirstInterface<G>(list: Option<seq<G>>): (r: Option<G>)
    ensures r.Some? <==> list.Some? && |list.value| > 0
    ensures r.Some? ==> r.value == list.value[0]
  {
    if list.None? then None
    else if |list.value| == 0 then None
    else Some(list.value[0])
  }

  /** The WLAN part of the monitor state. */
  datatype WlanState = WlanState(handle: Option<nat>, context: Option<SignalContext>)

  const Closed := WlanState(None, None)

  /** The results of the WLAN API calls `initialize_wlan_monitor` makes, in order. */
  datatype WlanReplies<G> = WlanReplies(
    openStatus: u32,
    handle: nat,
    enumStatus: u32,
    interfaces: Option<seq<G>>,
    registerStatus: u32,
    initialQuery: QueryReply)

  datatype WlanInitEffect = WlanInitEffect(ok: bool, state: WlanState, send: Option<(u32, i32)>)

  /**
   * `initialize_wlan_monitor`. A failed open or enumeration returns an error
   * and leaves the state alone. Otherwise the handle and a fresh context
   * (resolved thresholds, not weak, last quality 0) are stored before
   * registering; a failed registration returns an error with them stored.
   * After a successful registration the first interface, if any, is queried
   * once and its reading sent, without touching the context.
   */
  function InitializeWlanMonitor<G>(s: WlanState, args: u32, replies: WlanReplies<G>): (r: WlanInitEffect)
    ensures replies.openStatus != ERROR_SUCCESS || replies.enumStatus != ERROR_SUCCESS ==>
      r == WlanInitEffect(false, s, None)
    ensures r.ok <==> replies.openStatus == ERROR_SUCCESS && replies.enumStatus == ERROR_SUCCESS && replies.registerStatus == ERROR_SUCCESS
    ensures replies.openStatus == ERROR_SUCCESS && replies.enumStatus == ERROR_SUCCESS ==>
      && r.state.handle == Some(replies.handle)
      && r.state.context.Some?
      && (r.state.context.value.thresholdDrop, r.state.context.value.thresholdRecover) == ResolveSignalThresholds(args)
      && ValidThresholds(r.state.context.value)
      && !r.state.context.value.isSignalWeak
      && r.state.context.value.lastQuality == 0
    ensures r.send.Some? <==> r.ok && FirstInterface(replies.interfaces).Some? && QueryInterfaceSignal(replies.initialQuery).Some?
    ensures r.send.Some? ==> r.send == QueryInterfaceSignal(replies.initialQuery)
  {
    if replies.openStatus != ERROR_SUCCESS || replies.enumStatus != ERROR_SUCCESS then
      WlanInitEffect(false, s, None)
    else
      var guid := FirstInterface(replies.interfaces);
      var (drop, recover) := ResolveSignalThresholds(args);
      var state := WlanState(Some(replies.handle), Some(SignalContext(drop, recover, false, 0)));
      if replies.registerStatus != ERROR_SUCCESS then WlanInitEffect(false, state, None)
      else if guid.Some? then WlanInitEffect(true, state, QueryInterfaceSignal(replies.initialQuery))
      else WlanInitEffect(true, state, None)
  }

  /**
   * `cleanup_wlan_monitor`: unregisters and closes only when a handle is
   * held, and always forgets the handle and the context.
   */
  function CleanupWlanMonitor(s: WlanState): (r: (WlanState, bool))
    ensures r.0 == Closed
    ensures r.1 <==> s.handle.Some?
  {
    (Closed, s.handle.Some?)
  }

  /**
   * A handle opened by a start whose enumeration then fails is never
   * recorded, so a later cleanup closes nothing; a start that fails only at
   * registration has recorded its handle, and cleanup closes it.
   */
  lemma CleanupClosesOnlyRecordedHandles<G>(args: u32, replies: WlanReplies<G>)
    requires replies.openStatus == ERROR_SUCCESS
    ensures replies.enumStatus != ERROR_SUCCESS ==> !CleanupWlanMonitor(InitializeWlanMonitor(Closed, args, replies).state).1
    ensures replies.enumStatus == ERROR_SUCCESS ==> CleanupWlanMonitor(InitializeWlanMonitor(Closed, args, replies).state).1
  {
  }
}
