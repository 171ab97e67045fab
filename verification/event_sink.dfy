/**
 * The native COM event sink (native/CNetworkListManagerEvents.cpp): its
 * reference count under `AddRef`, `Release` and `QueryInterface`, and the
 * forwarding of connectivity events to the native monitor.
 */
module EventSink {
  import opened Base
  import opened Nlm
  import Messages
  import NativeConnectivity

  const S_OK: i32 := 0
  /** `E_NOINTERFACE` (0x80004002) read as a signed HRESULT. */
  const E_NOINTERFACE: i32 := -0x7FFF_BFFE

  type Count = n: nat | n >= 1 witness 1

  /** A live sink holds at least one reference; releasing the last deletes it. */
  datatype Sink = Alive(refCount: Count) | Destroyed

  /** A freshly constructed sink owns one reference. */
  const Constructed: Sink := Alive(1)

  datatype Iid = IidUnknown | IidNetworkListManagerEvents | OtherIid(guid: nat)

  /** What `QueryInterface` stores through its out-pointer. */
  datatype OutPointer = NullPointer | SinkPointer

  /** `AddRef`: one more reference; returns the new count. */
  function AddRef(s: Sink): (r: (Sink, nat))
    requires s.Alive?
    ensures r.0.Alive? && r.0.refCount == s.refCount + 1
    ensures r.1 == r.0.refCount
  {
    (Alive(s.refCount + 1), s.refCount + 1)
  }

  /** `Release`: one reference fewer; at zero the sink is deleted and 0 returned. */
  function Release(s: Sink): (r: (Sink, nat))
    requires s.Alive?
    ensures r.1 == s.refCount - 1
    ensures r.0.Destroyed? <==> s.refCount == 1
    ensures r.0.Alive? ==> r.0.refCount == r.1
  {
    var count := s.refCount - 1;
    if count == 0 then (Destroyed, 0) else (Alive(count), count)
  }

  /** An `AddRef` followed by a `Release` restores the sink and returns the old count. */
  lemma AddRefRelease(s: Sink)
    requires s.Alive?
    ensures Release(AddRef(s).0) == (s, s.refCount)
  {
  }

  predicate Supported(iid: Iid) {
    iid == IidUnknown || iid == IidNetworkListManagerEvents
  }

  /**
   * `QueryInterface`: for IUnknown and INetworkListManagerEvents hands out
   * the sink itself with one more reference and S_OK; for anything else
   * stores null, returns E_NOINTERFACE and leaves the count alone.
   */
  function QueryInterface(s: Sink, iid: Iid): (r: (Sink, OutPointer, i32))
    requires s.Alive?
    ensures Supported(iid) ==> r == (Alive(s.refCount + 1), SinkPointer, S_OK)
    ensures !Supported(iid) ==> r == (s, NullPointer, E_NOINTERFACE)
  {
    if Supported(iid) then (AddRef(s).0, SinkPointer, S_OK)
    else (s, NullPointer, E_NOINTERFACE)
  }

  datatype Call = CallAddRef | CallRelease | CallQueryInterface(iid: Iid)

  /** How a call moves the reference count. */
  function Delta(call: Call): int {
    match call
    case CallAddRef => 1
    case CallRelease => -1
    case CallQueryInterface(iid) => if Supported(iid) then 1 else 0
  }

  function Step(s: Sink, call: Call): Sink
    requires s.Alive?
  {
    match call
    case CallAddRef => AddRef(s).0
    case CallRelease => Release(s).0
    case CallQueryInterface(iid) => QueryInterface(s, iid).0
  }

  /** The sink after a run of calls, or None when a call reached a deleted sink. */
  function Run(s: Sink, calls: seq<Call>): Option<Sink>
    decreases |calls|
  {
    if |calls| == 0 then Some(s)
    else
      match Run(s, calls[..|calls| - 1])
      case Some(Alive(n)) => Some(Step(Alive(n), calls[|calls| - 1]))
      case _ => None
  }

  /** The sum of the count changes of a run of calls. */
  function Net(calls: seq<Call>): int
    decreases |calls|
  {
    if |calls| == 0 then 0 else Net(calls[..|calls| - 1]) + Delta(calls[|calls| - 1])
  }

  /**
   * As long as every call is made while a reference is held, the sink
   * ends alive with its initial count plus the net change, or deleted
   * exactly when that sum reaches zero.
   */
  lemma {:induction false} RunMatchesNet(n: Count, calls: seq<Call>)
    requires forall k :: 0 <= k < |calls| ==> n + Net(calls[..k]) >= 1
    ensures n + Net(calls) >= 0
    ensures Run(Alive(n), calls) == Some(if n + Net(calls) >= 1 then Alive(n + Net(calls)) else Destroyed)
    decreases |calls|
  {
    if |calls| > 0 {
      var init := calls[..|calls| - 1];
      forall k | 0 <= k < |init|
        ensures n + Net(init[..k]) >= 1
      {
        assert init[..k] == calls[..k];
      }
      RunMatchesNet(n, init);
      assert calls[..|calls| - 1] == init;
    }
  }

  /**
   * `ConnectivityChanged`: updates the native connected flag as
   * `PrintConnectivity` does, then posts the status message; returns S_OK.
   */
  function ConnectivityChanged(connected: bool, mainThreadId: u32, c: Connectivity): (r: (bool, (u32, Messages.Message), i32))
    ensures r.0 == NativeConnectivity.PrintConnectivity(connected, c)
    ensures r.1.0 == mainThreadId
    ensures r.1.1.id == Messages.WM_NETWORK_STATUS_CHANGE && r.1.1.lParam == 0
    ensures r.1.1.wParam == 1 <==> HasInternet(c)
    ensures r.2 == S_OK
  {
    (NativeConnectivity.PrintConnectivity(connected, c), NativeConnectivity.SendNetworkStatusMessage(mainThreadId, c), S_OK)
  }

  /** The events the sink does not act on. */
  datatype IgnoredEvent = IsConnectedToInternetChanged(isConnected: bool)
                        | IsConnectivityLowChanged(isLow: bool)
                        | IsDefaultConnectivityChanged(isDefault: bool)

  /** The other three event methods return S_OK and change nothing. */
  function HandleIgnoredEvent(s: Sink, connected: bool, e: IgnoredEvent): (r: (Sink, bool, i32))
    ensures r == (s, connected, S_OK)
  {
    (s, connected, S_OK)
  }
}
