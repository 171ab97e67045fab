/**
 * The connectivity half of the older native monitor
 * (native/NetworkMonitor.cpp): the process-wide connected flag that
 * `PrintConnectivity` maintains and the status message
 * `sendNetworkStatusMessage` posts for every connectivity change.
 */
module NativeConnectivity {
  import opened Base
  import opened Nlm
  import Messages
  import Network

  /**
   * `PrintConnectivity`'s effect on `g_networkConnected`: cleared by
   * DISCONNECTED, set by either internet bit, otherwise left as it was.
   */
  function PrintConnectivity(connected: bool, c: Connectivity): (r: bool)
    ensures c == DISCONNECTED ==> !r
    ensures c != DISCONNECTED && HasInternet(c) ==> r
    ensures c != DISCONNECTED && !HasInternet(c) ==> r == connected
  {
    if c == DISCONNECTED then false
    else if HasIpv4Internet(c) then true
    else if HasIpv6Internet(c) then true
    else connected
  }

  /**
   * `sendNetworkStatusMessage`: always posts WM_NETWORK_STATUS_CHANGE to the
   * main thread, with 1 when either internet bit is set and 0 otherwise,
   * local-network-only connectivity included. There is no thread-id guard.
   */
  function SendNetworkStatusMessage(mainThreadId: u32, c: Connectivity): (r: (u32, Messages.Message))
    ensures r.0 == mainThreadId
    ensures r.1.id == Messages.WM_NETWORK_STATUS_CHANGE && r.1.lParam == 0
    ensures r.1.wParam == 1 <==> HasInternet(c)
    ensures r.1.wParam == 0 || r.1.wParam == 1
  {
    (mainThreadId, Messages.Message(Messages.WM_NETWORK_STATUS_CHANGE, if HasInternet(c) then 1 else 0, 0))
  }

  /** The native status message carries exactly the status the Rust mapping computes. */
  lemma NativeStatusAgreesWithRust(mainThreadId: u32, c: Connectivity)
    ensures SendNetworkStatusMessage(mainThreadId, c).1 == Messages.EncodeNetworkStatus(Network.ConnectivityToStatus(c))
  {
  }

  /**
   * The native flag agrees with the Rust flag on DISCONNECTED and on internet
   * connectivity; on any other connectivity (local network, subnet or no
   * traffic only) it keeps its old value where the Rust watcher clears it.
   */
  lemma NativeFlagVersusRustFlag(connected: bool, c: Connectivity)
    ensures c == DISCONNECTED || HasInternet(c) ==>
      PrintConnectivity(connected, c) == Network.ConnectivityChanged(connected, c).connected
    ensures c != DISCONNECTED && !HasInternet(c) ==>
      PrintConnectivity(connected, c) == connected && !Network.ConnectivityChanged(connected, c).connected
  {
    HasInternetIsMask(c);
  }
}
