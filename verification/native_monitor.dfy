/**
 * The wireless and startup half of the older native monitor
 * (native/NetworkMonitor.cpp): the edge-triggered hysteresis in
 * `WlanNotificationCallback`, and the initial state `StartWlanMonitor` and
 * `StartNetworkMonitor` establish. WLAN and COM calls are parameters.
 */
module NativeMonitor {
  import opened Base
  import opened Nlm
  import Messages
  import Utils
  import Wlan
  import EventSink
  import NativeConnectivity
  import Network
  import Monitor

  /** `monitorCtx` as initialised: drop 40, recover 50, not weak, last quality 100. */
  const DefaultContext: Wlan.SignalContext := Wlan.SignalContext(40, 50, false, 100)

  /** `sizeof(ULONG)` on Windows. */
  const ULONG_SIZE: nat := 4

  /** The fields of `WLAN_NOTIFICATION_DATA` the callback reads; `data` is `*(ULONG*)pData`. */
  datatype NativeNotification = NativeNotification(source: u32, code: u32, dataSize: nat, data: u32)

  /**
   * The hysteresis step of the native callback: a strong signal at or below
   * drop turns weak, a weak signal at or above recover turns strong, and only
   * such a flip is posted. The quality is always recorded.
   */
  function NativeHysteresis(ctx: Wlan.SignalContext, quality: u32): (r: (Wlan.SignalContext, bool))
    ensures r.0.thresholdDrop == ctx.thresholdDrop && r.0.thresholdRecover == ctx.thresholdRecover
    ensures r.0.lastQuality == quality
    ensures r.1 <==> r.0.isSignalWeak != ctx.isSignalWeak
    ensures !ctx.isSignalWeak ==> (r.0.isSignalWeak <==> quality <= ctx.thresholdDrop)
    ensures ctx.isSignalWeak ==> (!r.0.isSignalWeak <==> quality >= ctx.thresholdRecover)
  {
    if !ctx.isSignalWeak && quality <= ctx.thresholdDrop then
      (ctx.(isSignalWeak := true, lastQuality := quality), true)
    else if ctx.isSignalWeak && quality >= ctx.thresholdRecover then
      (ctx.(isSignalWeak := false, lastQuality := quality), true)
    else
      (ctx.(lastQuality := quality), false)
  }

  /**
   * With a dead zone (drop below recover), the native edge-triggered step
   * leaves the same state as the Rust hysteresis.
   */
  lemma NativeStepMatchesRust(ctx: Wlan.SignalContext, quality: u32)
    requires Wlan.ValidThresholds(ctx)
    ensures NativeHysteresis(ctx, quality).0 == Wlan.UpdateSignalState(ctx, quality)
  {
  }

  /** Without a dead zone the two variants can disagree: here Rust stays weak, native recovers. */
  lemma NativeStepDiffersWithoutDeadZone()
    ensures var ctx := Wlan.SignalContext(50, 40, true, 0);
            NativeHysteresis(ctx, 45).0.isSignalWeak != Wlan.UpdateSignalState(ctx, 45).isSignalWeak
  {
  }

  /** Feeds a run of quality readings through the native step; also counts the posts. */
  function NativeApply(ctx: Wlan.SignalContext, qs: seq<u32>): (Wlan.SignalContext, nat)
    decreases |qs|
  {
    if |qs| == 0 then (ctx, 0)
    else
      var (next, posted) := NativeHysteresis(ctx, qs[0]);
      var (last, count) := NativeApply(next, qs[1..]);
      (last, count + if posted then 1 else 0)
  }

  /** Whenever drop is below recover, the native and the Rust weak flags evolve identically. */
  lemma {:induction false} NativeRunMatchesRust(ctx: Wlan.SignalContext, qs: seq<u32>)
    requires Wlan.ValidThresholds(ctx)
    ensures NativeApply(ctx, qs).0 == Wlan.ApplyQualities(ctx, qs)
    decreases |qs|
  {
    if |qs| > 0 {
      NativeStepMatchesRust(ctx, qs[0]);
      NativeRunMatchesRust(NativeHysteresis(ctx, qs[0]).0, qs[1..]);
    }
  }

  /**
   * Every native post is a flip of the weak flag: after a run the flag has
   * changed exactly when an odd number of posts was made, and with a dead
   * zone the Rust run's flag changes exactly then too.
   */
  lemma {:induction false} NativePostsAreFlips(ctx: Wlan.SignalContext, qs: seq<u32>)
    ensures NativeApply(ctx, qs).0.isSignalWeak != ctx.isSignalWeak <==> NativeApply(ctx, qs).1 % 2 == 1
    ensures Wlan.ValidThresholds(ctx) ==>
      (Wlan.ApplyQualities(ctx, qs).isSignalWeak != ctx.isSignalWeak <==> NativeApply(ctx, qs).1 % 2 == 1)
    decreases |qs|
  {
    if |qs| > 0 {
      NativePostsAreFlips(NativeHysteresis(ctx, qs[0]).0, qs[1..]);
    }
    if Wlan.ValidThresholds(ctx) {
      NativeRunMatchesRust(ctx, qs);
    }
  }

  datatype NativeCallbackEffect = NativeCallbackEffect(context: Option<Wlan.SignalContext>, post: Option<(u32, int)>)

  /**
   * `WlanNotificationCallback`: ignores a null context and non-MSM sources;
   * on a quality change with a payload of at least a ULONG runs the
   * hysteresis step and, on a flip, posts the quality with its estimated
   * RSSI. Connect, disconnect and every other code only log.
   */
  function WlanNotificationCallback(context: Option<Wlan.SignalContext>, n: NativeNotification): (r: NativeCallbackEffect)
    ensures context.None? || n.source != Wlan.SOURCE_MSM || n.code != Wlan.MSM_SIGNAL_QUALITY_CHANGE || n.dataSize < ULONG_SIZE ==>
      r == NativeCallbackEffect(context, None)
    ensures context.Some? && n.source == Wlan.SOURCE_MSM && n.code == Wlan.MSM_SIGNAL_QUALITY_CHANGE && n.dataSize >= ULONG_SIZE ==>
      && r.context == Some(NativeHysteresis(context.value, n.data).0)
      && (r.post.Some? <==> r.context.value.isSignalWeak != context.value.isSignalWeak)
      && (r.post.Some? ==> r.post.value == (n.data, Utils.QualityToRssi(n.data)))
  {
    if context.None? || n.source != Wlan.SOURCE_MSM then NativeCallbackEffect(context, None)
    else if n.code == Wlan.MSM_SIGNAL_QUALITY_CHANGE then
      if n.dataSize >= ULONG_SIZE then
        var quality := n.data;
        var (next, flipped) := NativeHysteresis(context.value, quality);
        NativeCallbackEffect(Some(next), if flipped then Some((quality, Utils.QualityToRssi(quality))) else None)
      else NativeCallbackEffect(context, None)
    else NativeCallbackEffect(context, None)
  }

  /** `pConnectInfo` fields read at startup. */
  datatype ConnectionAttributes = ConnectionAttributes(connected: bool, signalQuality: u32)

  /** The results of the WLAN calls `StartWlanMonitor` makes, in order. */
  datatype NativeWlanReplies = NativeWlanReplies(
    openStatus: u32,
    enumStatus: u32,
    interfaceCount: nat,
    query: Option<ConnectionAttributes>,
    registerStatus: u32)

  /**
   * `StartWlanMonitor`: returns 1 without touching the context when the
   * handle cannot be opened. When the first interface is connected its
   * quality seeds the context, weak exactly when at or below drop (no dead
   * zone). Returns 1 if registration fails, else 0.
   */
  function StartWlanMonitor(ctx: Wlan.SignalContext, replies: NativeWlanReplies): (r: (int, Wlan.SignalContext))
    ensures replies.openStatus != 0 ==> r == (1, ctx)
    ensures r.0 == 0 <==> replies.openStatus == 0 && replies.registerStatus == 0
    ensures r.0 == 0 || r.0 == 1
    ensures r.1.thresholdDrop == ctx.thresholdDrop && r.1.thresholdRecover == ctx.thresholdRecover
    ensures replies.openStatus == 0 && replies.enumStatus == 0 && replies.interfaceCount > 0
            && replies.query.Some? && replies.query.value.connected ==>
      && r.1.lastQuality == replies.query.value.signalQuality
      && (r.1.isSignalWeak <==> replies.query.value.signalQuality <= ctx.thresholdDrop)
    ensures !(replies.enumStatus == 0 && replies.interfaceCount > 0 && replies.query.Some? && replies.query.value.connected) ==>
      r.1 == ctx
  {
    if replies.openStatus != 0 then (1, ctx)
    else
      var seeded :=
        if replies.enumStatus == 0 && replies.interfaceCount > 0 && replies.query.Some? && replies.query.value.connected then
          var q := replies.query.value.signalQuality;
          ctx.(isSignalWeak := q <= ctx.thresholdDrop, lastQuality := q)
        else ctx;
      (if replies.registerStatus != 0 then 1 else 0, seeded)
  }

  /**
   * Seeding from a not-weak context classifies the first reading as the Rust
   * hysteresis would: the missing dead zone only matters for a weak start.
   */
  lemma StartupSeedMatchesRust(ctx: Wlan.SignalContext, replies: NativeWlanReplies)
    requires !ctx.isSignalWeak
    requires replies.openStatus == 0 && replies.enumStatus == 0 && replies.interfaceCount > 0
    requires replies.query.Some? && replies.query.value.connected
    ensures StartWlanMonitor(ctx, replies).1 == Wlan.UpdateSignalState(ctx, replies.query.value.signalQuality)
  {
  }

  /**
   * From `monitorCtx`'s initial value the native monitor starts with
   * thresholds 40 and 50, where the Rust watcher with an unset configuration
   * uses 30 and 40: a connected first interface starts the native context
   * weak exactly at or below 40, while the Rust context always starts not
   * weak.
   */
  lemma NativeStartupDefaults<G>(replies: NativeWlanReplies, rust: Wlan.WlanReplies<G>)
    requires replies.openStatus == 0 && replies.enumStatus == 0 && replies.interfaceCount > 0
    requires replies.query.Some? && replies.query.value.connected
    requires rust.openStatus == ERROR_SUCCESS && rust.enumStatus == ERROR_SUCCESS
    ensures var native := StartWlanMonitor(DefaultContext, replies).1;
            && (native.thresholdDrop, native.thresholdRecover) == (40, 50)
            && (native.isSignalWeak <==> replies.query.value.signalQuality <= 40)
    ensures var ctx := Wlan.InitializeWlanMonitor(Wlan.Closed, 0, rust).state.context;
            && ctx.Some? && (ctx.value.thresholdDrop, ctx.value.thresholdRecover) == (30, 40)
            && !ctx.value.isSignalWeak
  {
    Wlan.ResolveDefaults();
  }

  /** The results of the COM calls `StartNetworkMonitor` makes, in order. */
  datatype NativeNlmReplies = NativeNlmReplies(
    coInitialize: bool,
    createInstance: bool,
    queryContainer: bool,
    findConnectionPoint: bool,
    advise: Option<u32>,
    getConnectivity: Option<Connectivity>)

  datatype NativeNetworkStart = NativeNetworkStart(
    result: int,
    connected: bool,
    sink: Option<EventSink.Sink>,
    advised: bool,
    cookie: u32,
    post: Option<(u32, Messages.Message)>)

  /**
   * `StartNetworkMonitor`: returns 1 only when COM or the list manager cannot
   * be created. Once a connection point is found a sink is constructed and
   * advised; a successful `Advise` takes a reference of its own, which the
   * connection point holds until `Unadvise`. After a successful `Advise` and
   * `GetConnectivity` the flag is updated as `PrintConnectivity` does, and 0
   * is posted only when the connectivity is exactly DISCONNECTED.
   */
  function StartNetworkMonitor(connected: bool, mainThreadId: u32, cookie: u32, replies: NativeNlmReplies): (r: NativeNetworkStart)
    ensures r.result == 1 <==> !replies.coInitialize || !replies.createInstance
    ensures r.result == 0 || r.result == 1
    ensures r.sink.Some? <==> r.result == 0 && replies.queryContainer && replies.findConnectionPoint
    ensures r.advised <==> r.sink.Some? && replies.advise.Some?
    ensures r.sink.Some? ==> r.sink.value == EventSink.Alive(if r.advised then 2 else 1)
    ensures r.advised ==> r.cookie == replies.advise.value
    ensures !r.advised ==> r.cookie == cookie
    ensures !r.advised || replies.getConnectivity.None? ==> r.connected == connected && r.post.None?
    ensures r.advised && replies.getConnectivity.Some? ==>
      && r.connected == NativeConnectivity.PrintConnectivity(connected, replies.getConnectivity.value)
      && (r.post.Some? <==> replies.getConnectivity.value == DISCONNECTED)
    ensures r.post.Some? ==> r.post.value == (mainThreadId, Messages.EncodeNetworkStatus(0))
  {
    if !replies.coInitialize || !replies.createInstance then NativeNetworkStart(1, connected, None, false, cookie, None)
    else if !replies.queryContainer || !replies.findConnectionPoint then NativeNetworkStart(0, connected, None, false, cookie, None)
    else if replies.advise.None? then NativeNetworkStart(0, connected, Some(EventSink.Constructed), false, cookie, None)
    else
      var held := EventSink.AddRef(EventSink.Constructed).0;
      var newCookie := replies.advise.value;
      match replies.getConnectivity
      case None => NativeNetworkStart(0, connected, Some(held), true, newCookie, None)
      case Some(c) =>
        var flag := NativeConnectivity.PrintConnectivity(connected, c);
        var post := if c == DISCONNECTED then Some((mainThreadId, Messages.EncodeNetworkStatus(0))) else None;
        NativeNetworkStart(0, flag, Some(held), true, newCookie, post)
  }

  /**
   * Connectivity without an internet bit that is not DISCONNECTED posts
   * nothing at startup and leaves the native flag as it was, where the Rust
   * watcher, given the same replies, reports status 0.
   */
  lemma StartupLocalOnlyPostsNothing(connected: bool, mainThreadId: u32, cookie: u32, replies: NativeNlmReplies, s: Network.NetworkState)
    requires replies.coInitialize && replies.createInstance && replies.queryContainer && replies.findConnectionPoint
    requires replies.advise.Some? && replies.getConnectivity.Some?
    requires replies.getConnectivity.value != DISCONNECTED && !HasInternet(replies.getConnectivity.value)
    ensures var native := StartNetworkMonitor(connected, mainThreadId, cookie, replies);
            native.post.None? && native.connected == connected
    ensures var rust := Network.NlmReplies(true, true, true, replies.advise, replies.getConnectivity);
            Network.InitializeNetworkMonitor(s, rust).report == Some(0)
  {
    HasInternetIsMask(replies.getConnectivity.value);
  }

  /**
   * `StopNetworkMonitor`: with a connection point, `Unadvise` with the stored
   * cookie, which drops the connection point's reference when the sink was
   * advised and the call succeeds; then, with a sink, `Release` our own
   * reference. Returns whether `Unadvise` was called and the sink afterwards.
   * The connection point exists exactly when the sink does.
   */
  function StopNetworkMonitor(s: NativeNetworkStart, unadviseSucceeds: bool): (r: (bool, Option<EventSink.Sink>))
    requires s.sink.Some? ==> s.sink.value == EventSink.Alive(if s.advised then 2 else 1)
    ensures r.0 <==> s.sink.Some?
    ensures r.1.Some? <==> s.sink.Some?
    ensures r.1.Some? ==> (r.1.value.Destroyed? <==> !s.advised || unadviseSucceeds)
    ensures r.1.Some? && r.1.value.Alive? ==> r.1.value.refCount == 1
  {
    match s.sink
    case None => (false, None)
    case Some(sink) =>
      var afterUnadvise := if s.advised && unadviseSucceeds then EventSink.Release(sink).0 else sink;
      (true, Some(EventSink.Release(afterUnadvise).0))
  }

  /**
   * Start then stop frees the sink whenever `Unadvise` succeeds, and never
   * releases it once too often: it is deleted exactly once, or, after a
   * failed `Unadvise`, left with the one reference the connection point holds.
   */
  lemma StartStopReleasesSink(connected: bool, mainThreadId: u32, cookie: u32, replies: NativeNlmReplies, unadviseSucceeds: bool)
    ensures var start := StartNetworkMonitor(connected, mainThreadId, cookie, replies);
            var stop := StopNetworkMonitor(start, unadviseSucceeds);
            && (stop.1.None? <==> start.sink.None?)
            && (stop.1.Some? && unadviseSucceeds ==> stop.1.value == EventSink.Destroyed)
            && (stop.1.Some? && !unadviseSucceeds ==> stop.1.value == if start.advised then EventSink.Alive(1) else EventSink.Destroyed)
  {
  }

  /**
   * The `while (GetMessage(...))` loop of the native `main`: only 0, the
   * return for WM_QUIT, ends it; the error return -1 is non-zero and the
   * loop carries on. The position of the first WM_QUIT, or the length when
   * there is none.
   */
  function NativeLoopStop(rs: seq<Monitor.Received>): (r: nat)
    ensures r <= |rs|
    ensures forall i :: 0 <= i < r ==> Monitor.GetMessageResult(rs[i]) != 0
    ensures r < |rs| ==> Monitor.GetMessageResult(rs[r]) == 0
    decreases |rs|
  {
    if |rs| == 0 then 0
    else if Monitor.GetMessageResult(rs[0]) == 0 then 0
    else 1 + NativeLoopStop(rs[1..])
  }

  /**
   * The native loop never leaves before the Rust worker's loop, and it
   * leaves later exactly when the return that stops the Rust loop is an
   * error rather than WM_QUIT.
   */
  lemma {:induction false} NativeLoopOutlastsRust(rs: seq<Monitor.Received>)
    ensures Monitor.FirstStop(rs) <= NativeLoopStop(rs)
    ensures Monitor.FirstStop(rs) < NativeLoopStop(rs) <==>
      Monitor.FirstStop(rs) < |rs| && rs[Monitor.FirstStop(rs)] == Monitor.ReceiveFailed
    decreases |rs|
  {
    if |rs| > 0 && !Monitor.Stops(rs[0]) {
      NativeLoopOutlastsRust(rs[1..]);
    }
  }
}
