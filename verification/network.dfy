/**
 * The Rust connectivity watcher (src/network.rs): the mapping from an
 * `NLM_CONNECTIVITY` mask to a 0/1 status, the edge-triggered report made
 * from the COM event sink, and the state effects of subscribing to and
 * unsubscribing from Network List Manager events. COM calls are parameters.
 */
module Network {
  import opened Base
  import opened Nlm

  /**
   * The connectivity flag shared across threads (`NETWORK_CONNECTED`) and the
   * COM objects held by the monitor state, each recorded as present or not.
   */
  datatype NetworkState = NetworkState(
    connected: bool,
    listManager: bool,
    connectionPointContainer: bool,
    connectionPoint: bool,
    eventSink: bool,
    cookie: u32)

  const Released := NetworkState(false, false, false, false, false, 0)

  /** `connectivity_to_status`: 1 exactly when internet is reachable over IPv4 or IPv6. */
  function ConnectivityToStatus(c: Connectivity): (r: u32)
    ensures r == 0 || r == 1
    ensures r == 1 <==> c & 0x0440 != 0
    ensures c == DISCONNECTED ==> r == 0
  {
    HasInternetIsMask(c);
    if HasInternet(c) then 1 else 0
  }

  /** Local-network, subnet and no-traffic flags alone all map to status 0. */
  lemma LocalOnlyIsStatusZero(c: Connectivity)
    requires c & LOCAL_ONLY_FLAGS == c
    ensures ConnectivityToStatus(c) == 0
  {
    LocalOnlyIsNotInternet(c);
  }

  /** What one `ConnectivityChanged` event does: the new flag, and a report if any. */
  datatype ChangeEffect = ChangeEffect(connected: bool, report: Option<u32>)

  /**
   * `ConnectivityChanged`: swap the stored flag for `status != 0` and report
   * the new status only when the swap changed the flag.
   */
  function ConnectivityChanged(wasConnected: bool, c: Connectivity): (r: ChangeEffect)
    ensures r.connected <==> c & 0x0440 != 0
    ensures r.report.Some? <==> r.connected != wasConnected
    ensures r.report.Some? ==> r.report.value == (if r.connected then 1 else 0)
  {
    var status := ConnectivityToStatus(c);
    var isConnected := status != 0;
    ChangeEffect(isConnected, if wasConnected != isConnected then Some(status) else None)
  }

  /** Two identical notifications in a row produce at most one report. */
  lemma RepeatedNotificationReportsOnce(wasConnected: bool, c: Connectivity)
    ensures var first := ConnectivityChanged(wasConnected, c);
            ConnectivityChanged(first.connected, c) == ChangeEffect(first.connected, None)
  {
  }

  /** The reports produced by a run of notifications, and the final flag. */
  function Notify(wasConnected: bool, cs: seq<Connectivity>): (bool, seq<u32>)
    decreases |cs|
  {
    if |cs| == 0 then (wasConnected, [])
    else
      var step := ConnectivityChanged(wasConnected, cs[0]);
      var rest := Notify(step.connected, cs[1..]);
      (rest.0, (if step.report.Some? then [step.report.value] else []) + rest.1)
  }

  function StatusOf(connected: bool): u32 {
    if connected then 1 else 0
  }

  /**
   * Over any run of notifications the reports alternate: the first differs
   * from the flag held before the run, each differs from the one before it,
   * and the last is the flag held after the run.
   */
  lemma {:induction false} ReportsAlternate(wasConnected: bool, cs: seq<Connectivity>)
    ensures var (after, reports) := Notify(wasConnected, cs);
            && (forall i :: 0 <= i < |reports| ==> reports[i] == 0 || reports[i] == 1)
            && (|reports| > 0 ==> reports[0] != StatusOf(wasConnected))
            && (forall i :: 0 <= i < |reports| - 1 ==> reports[i] != reports[i + 1])
            && (|reports| > 0 ==> reports[|reports| - 1] == StatusOf(after))
            && (|reports| == 0 ==> after == wasConnected)
    decreases |cs|
  {
    if |cs| > 0 {
      var step := ConnectivityChanged(wasConnected, cs[0]);
      ReportsAlternate(step.connected, cs[1..]);
      var rest := Notify(step.connected, cs[1..]);
      var (after, reports) := Notify(wasConnected, cs);
      if step.report.Some? {
        assert reports == [step.report.value] + rest.1;
        assert forall i :: 1 <= i < |reports| ==> reports[i] == rest.1[i - 1];
      } else {
        assert reports == rest.1;
      }
    }
  }

  /** The results of the COM calls `initialize_network_monitor` makes, in order. */
  datatype NlmReplies = NlmReplies(
    createInstance: bool,
    castContainer: bool,
    findConnectionPoint: bool,
    advise: Option<u32>,
    getConnectivity: Option<Connectivity>)

  datatype InitEffect = InitEffect(ok: bool, state: NetworkState, report: Option<u32>)

  /**
   * `initialize_network_monitor`: any failure up to and including `Advise`
   * returns an error and changes nothing; after a successful `Advise` a failed
   * `GetConnectivity` counts as status 0, the flag becomes `status != 0`, all
   * handles and the cookie are kept, and only status 0 is reported.
   */
  function InitializeNetworkMonitor(s: NetworkState, replies: NlmReplies): (r: InitEffect)
    ensures !r.ok ==> r.state == s && r.report.None?
    ensures r.ok <==> replies.createInstance && replies.castContainer && replies.findConnectionPoint && replies.advise.Some?
    ensures r.ok ==> r.state.listManager && r.state.connectionPointContainer && r.state.connectionPoint && r.state.eventSink
    ensures r.ok ==> r.state.cookie == replies.advise.value
    ensures r.ok ==> (r.state.connected <==> replies.getConnectivity.Some? && replies.getConnectivity.value & 0x0440 != 0)
    ensures r.report.Some? <==> r.ok && !r.state.connected
    ensures r.report.Some? ==> r.report.value == 0
  {
    if !replies.createInstance || !replies.castContainer || !replies.findConnectionPoint || replies.advise.None? then
      InitEffect(false, s, None)
    else
      var status := if replies.getConnectivity.Some? then ConnectivityToStatus(replies.getConnectivity.value) else 0;
      var state := NetworkState(status != 0, true, true, true, true, replies.advise.value);
      InitEffect(true, state, if status == 0 then Some(status) else None)
  }

  datatype CleanupEffect = CleanupEffect(state: NetworkState, unadviseAttempted: bool, errorLogged: bool)

  /**
   * `cleanup_network_monitor`: clears the flag, every handle and the cookie;
   * calls `Unadvise` only with a connection point and a non-zero cookie, and
   * a failing `Unadvise` is logged rather than propagated.
   */
  function CleanupNetworkMonitor(s: NetworkState, unadviseSucceeds: bool): (r: CleanupEffect)
    ensures r.state == Released
    ensures r.unadviseAttempted <==> s.connectionPoint && s.cookie != 0
    ensures r.errorLogged <==> r.unadviseAttempted && !unadviseSucceeds
  {
    var attempted := s.connectionPoint && s.cookie != 0;
    CleanupEffect(Released, attempted, attempted && !unadviseSucceeds)
  }

  /** Cleaning up twice has the effect of cleaning up once, and never unadvises again. */
  lemma CleanupIdempotent(s: NetworkState, first: bool, second: bool)
    ensures var once := CleanupNetworkMonitor(s, first);
            var twice := CleanupNetworkMonitor(once.state, second);
            twice.state == once.state && !twice.unadviseAttempted
  {
  }

  /** A successful subscription is undone by cleanup with exactly one `Unadvise` when the cookie is non-zero. */
  lemma InitThenCleanup(s: NetworkState, replies: NlmReplies, unadviseSucceeds: bool)
    requires InitializeNetworkMonitor(s, replies).ok
    ensures var c := CleanupNetworkMonitor(InitializeNetworkMonitor(s, replies).state, unadviseSucceeds);
            c.state == Released && (c.unadviseAttempted <==> replies.advise.value != 0)
  {
  }
}
