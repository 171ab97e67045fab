/**
 * The monitor supervisor and its worker thread (src/monitor.rs), as a
 * sequential abstraction: the started flag and published thread id, the
 * message loop as a fold over what `GetMessageW` returns, the handling of
 * the two private messages, the lifecycle of the worker and the cleanup
 * hook that asks it to quit.
 */
module Monitor {
  import opened Base
  import opened Messages
  import Network
  import Wlan

  /** `MONITOR_STARTED` and `MONITOR_THREAD_ID`. */
  datatype Supervisor = Supervisor(started: bool, threadId: u32)

  const Idle := Supervisor(false, 0)

  /**
   * `start_monitor_thread`: swaps the started flag to true and spawns a
   * worker only when it was false before; a second start changes nothing.
   */
  function StartMonitorThread(s: Supervisor): (r: (Supervisor, bool))
    ensures r.0.started && r.0.threadId == s.threadId
    ensures r.1 <==> !s.started
    ensures s.started ==> r.0 == s
  {
    (s.(started := true), !s.started)
  }

  /** The worker publishes its thread id as its first action. */
  function PublishThreadId(s: Supervisor, threadId: u32): (r: Supervisor)
    ensures r.started == s.started && r.threadId == threadId
  {
    s.(threadId := threadId)
  }

  /** The worker's last two actions clear the thread id and then the started flag. */
  function WorkerExit(s: Supervisor): (r: Supervisor)
    ensures r == Idle
  {
    s.(threadId := 0).(started := false)
  }

  /**
   * One start spawns one worker; a repeated start spawns nothing; until the
   * worker publishes its id every post is refused; after it exits a new
   * start spawns again.
   */
  lemma SupervisorLifecycle(threadId: u32, status: u32, accepted: bool)
    requires threadId != 0
    ensures var (s1, spawned1) := StartMonitorThread(Idle);
            var (s2, spawned2) := StartMonitorThread(s1);
            && spawned1 && !spawned2 && s2 == s1
            && SendNetworkStatusMessage(s1.threadId, status, accepted) == NotReady
            && var s3 := PublishThreadId(s2, threadId);
               && StartMonitorThread(s3).0 == s3 && !StartMonitorThread(s3).1
               && !SendNetworkStatusMessage(s3.threadId, status, accepted).NotReady?
               && StartMonitorThread(WorkerExit(s3)).1
  {
  }

  /** One return of `GetMessageW`: a message, or the error return -1. */
  datatype Received = Got(msg: Message) | ReceiveFailed

  /** The BOOL `GetMessageW` returns: -1 on error, 0 for WM_QUIT, non-zero otherwise. */
  function GetMessageResult(r: Received): int {
    match r
    case ReceiveFailed => -1
    case Got(m) => if m.id == WM_QUIT then 0 else 1
  }

  /** The loop leaves on 0 or -1. */
  predicate Stops(r: Received) {
    GetMessageResult(r) == 0 || GetMessageResult(r) == -1
  }

  /**
   * The state the loop keeps: the connectivity flag the network message sets,
   * the signal readings it has logged, and how many other messages it passed
   * to `TranslateMessage`/`DispatchMessageW`.
   */
  datatype LoopState = LoopState(connected: bool, signalLog: seq<(u32, i32)>, dispatched: nat)

  /** `handle_network_status_message`: connected exactly when the status is non-zero. */
  function HandleNetworkStatusMessage(st: LoopState, status: u32): (r: LoopState)
    ensures r.connected <==> status != 0
    ensures r.signalLog == st.signalLog && r.dispatched == st.dispatched
  {
    st.(connected := status != 0)
  }

  /** `handle_wifi_signal_message`: logs the reading and changes nothing else. */
  function HandleWifiSignalMessage(st: LoopState, quality: u32, rssi: i32): (r: LoopState)
    ensures r.signalLog == st.signalLog + [(quality, rssi)]
    ensures r.connected == st.connected && r.dispatched == st.dispatched
  {
    st.(signalLog := st.signalLog + [(quality, rssi)])
  }

  /** The body of the loop for one message that did not stop it. */
  function Dispatch(st: LoopState, m: Message): LoopState {
    if m.id == WM_NETWORK_STATUS_CHANGE then HandleNetworkStatusMessage(st, WordToU32(m.wParam))
    else if m.id == WM_WIFI_SIGNAL_CHANGE then
      var (quality, rssi) := DecodeWlanStatus(m);
      HandleWifiSignalMessage(st, quality, rssi)
    else st.(dispatched := st.dispatched + 1)
  }

  /** Dispatches every message of a run, in order. */
  function Fold(st: LoopState, rs: seq<Received>): LoopState
    decreases |rs|
  {
    if |rs| == 0 then st
    else
      var before := Fold(st, rs[..|rs| - 1]);
      match rs[|rs| - 1]
      case Got(m) => Dispatch(before, m)
      case ReceiveFailed => before
  }

  /** The position of the first return that stops the loop, or the length when none does. */
  function FirstStop(rs: seq<Received>): (r: nat)
    ensures r <= |rs|
    ensures forall i :: 0 <= i < r ==> !Stops(rs[i])
    ensures r < |rs| ==> Stops(rs[r])
    decreases |rs|
  {
    if |rs| == 0 then 0
    else if Stops(rs[0]) then 0
    else 1 + FirstStop(rs[1..])
  }

  /** The loop's result: its state, how many returns it consumed, and whether it left. */
  datatype LoopOutcome = LoopOutcome(state: LoopState, consumed: nat, exited: bool)

  /**
   * `run_message_loop` over the returns of `GetMessageW`: leaves exactly at
   * the first 0 or -1, having dispatched every message before it in order;
   * if no return stops it, it has consumed them all and is still waiting.
   */
  method RunMessageLoop(st: LoopState, rs: seq<Received>) returns (out: LoopOutcome)
    ensures out.exited <==> exists i :: 0 <= i < |rs| && Stops(rs[i])
    ensures out.exited ==> 0 < out.consumed <= |rs| && Stops(rs[out.consumed - 1])
    ensures out.exited ==> forall i :: 0 <= i < out.consumed - 1 ==> !Stops(rs[i])
    ensures !out.exited ==> out.consumed == |rs|
    ensures out.state == Fold(st, rs[..FirstStop(rs)])
  {
    var state := st;
    var i := 0;
    while i < |rs|
      invariant 0 <= i <= |rs|
      invariant forall k :: 0 <= k < i ==> !Stops(rs[k])
      invariant state == Fold(st, rs[..i])
    {
      var result := GetMessageResult(rs[i]);
      if result == -1 || result == 0 {
        assert FirstStop(rs) == i;
        return LoopOutcome(state, i + 1, true);
      }
      assert rs[..i + 1][..i] == rs[..i];
      state := Dispatch(state, rs[i].msg);
      i := i + 1;
    }
    assert rs[..i] == rs;
    return LoopOutcome(state, |rs|, false);
  }

  /** The status of the last network message of a run, if there is one. */
  function LastNetworkStatus(rs: seq<Received>): Option<u32>
    decreases |rs|
  {
    if |rs| == 0 then None
    else match rs[|rs| - 1]
      case Got(m) =>
        if m.id == WM_NETWORK_STATUS_CHANGE then Some(WordToU32(m.wParam)) else LastNetworkStatus(rs[..|rs| - 1])
      case ReceiveFailed => LastNetworkStatus(rs[..|rs| - 1])
  }

  /** The decoded readings of the wireless-signal messages of a run, in order. */
  function SignalReadings(rs: seq<Received>): seq<(u32, i32)>
    decreases |rs|
  {
    if |rs| == 0 then []
    else
      var before := SignalReadings(rs[..|rs| - 1]);
      match rs[|rs| - 1]
      case Got(m) =>
        if m.id == WM_WIFI_SIGNAL_CHANGE then before + [DecodeWlanStatus(m)] else before
      case ReceiveFailed => before
  }

  /**
   * After a run the flag is set by the last network message (non-zero
   * meaning connected), or unchanged without one; and the signal log has
   * grown by the readings of the run, in order.
   */
  lemma {:induction false} FoldEffect(st: LoopState, rs: seq<Received>)
    ensures Fold(st, rs).connected == (match LastNetworkStatus(rs) case Some(s) => s != 0 case None => st.connected)
    ensures Fold(st, rs).signalLog == st.signalLog + SignalReadings(rs)
    decreases |rs|
  {
    if |rs| > 0 {
      FoldEffect(st, rs[..|rs| - 1]);
    }
  }

  /** `cleanup_monitor_thread`: posts WM_QUIT to the worker only when it has published its id. */
  function CleanupMonitorThread(threadId: u32): (r: Option<(u32, Message)>)
    ensures r.Some? <==> threadId != 0
    ensures r.Some? ==> r.value.0 == threadId && GetMessageResult(Got(r.value.1)) == 0
  {
    if threadId == 0 then None else Some((threadId, Message(WM_QUIT, 0, 0)))
  }

  /**
   * A quit posted behind messages that do not stop the loop is seen only
   * after all of them: the loop dispatches each and then leaves.
   */
  lemma QuitAfterQueued(threadId: u32, queued: seq<Message>)
    requires threadId != 0
    requires forall i :: 0 <= i < |queued| ==> queued[i].id != WM_QUIT
    ensures var rs := seq(|queued|, i requires 0 <= i < |queued| => Got(queued[i])) + [Got(CleanupMonitorThread(threadId).value.1)];
            FirstStop(rs) == |queued| && rs[..FirstStop(rs)] == seq(|queued|, i requires 0 <= i < |queued| => Got(queued[i]))
  {
    var prefix := seq(|queued|, i requires 0 <= i < |queued| => Got(queued[i]));
    var rs := prefix + [Got(CleanupMonitorThread(threadId).value.1)];
    assert forall i :: 0 <= i < |prefix| ==> !Stops(rs[i]);
    assert Stops(rs[|prefix|]);
    assert rs[..|prefix|] == prefix;
  }

  /**
   * End to end: a signal reading sent to a published worker and accepted,
   * followed by the quit of the cleanup hook, reaches the loop's log
   * unchanged, and the loop then leaves.
   */
  lemma SignalReachesLoop(st: LoopState, threadId: u32, quality: u32, rssi: i32)
    requires threadId != 0
    ensures var d := SendWlanStatusMessage(threadId, quality, rssi, true);
            var rs := [Got(d.msg), Got(CleanupMonitorThread(threadId).value.1)];
            && d.Posted? && d.target == threadId
            && FirstStop(rs) == 1
            && Fold(st, rs[..FirstStop(rs)]).signalLog == st.signalLog + [(quality, rssi)]
  {
    var d := SendWlanStatusMessage(threadId, quality, rssi, true);
    var rs := [Got(d.msg), Got(CleanupMonitorThread(threadId).value.1)];
    WlanStatusRoundTrip(quality, rssi);
    assert rs[..1] == [Got(d.msg)];
    assert Fold(st, [Got(d.msg)]) == Dispatch(Fold(st, []), d.msg);
  }

  /** End to end: a status sent and accepted sets the loop's flag to `status != 0`. */
  lemma StatusReachesLoop(st: LoopState, threadId: u32, status: u32)
    requires threadId != 0
    ensures var d := SendNetworkStatusMessage(threadId, status, true);
            d.Posted? && Fold(st, [Got(d.msg)]).connected == (status != 0)
  {
    var d := SendNetworkStatusMessage(threadId, status, true);
    NetworkStatusRoundTrip(status);
    assert Fold(st, [Got(d.msg)]) == Dispatch(Fold(st, []), d.msg);
  }

  /** The actions of the worker thread. */
  datatype Step =
    | PublishId | InitCom | InitNetwork | InitWlan | StartProbe | RunLoop
    | StopProbe | CleanupWlan | CleanupNetwork | UninitCom | ClearThreadId | ClearStarted

  /** The initialisations whose failure the worker logs before carrying on. */
  datatype Failure = ComFailure | NetworkFailure | WlanFailure

  /** The worker's actions as the source lists them: setup, the loop, teardown. */
  const Lifecycle: seq<Step> := [
    PublishId, InitCom, InitNetwork, InitWlan, StartProbe, RunLoop,
    StopProbe, CleanupWlan, CleanupNetwork, UninitCom, ClearThreadId, ClearStarted]

  /** Everything the worker reads from the OS, in the order it asks. */
  datatype WorkerReplies<G> = WorkerReplies(
    threadId: u32,
    comInitialized: bool,
    nlm: Network.NlmReplies,
    args: u32,
    wlan: Wlan.WlanReplies<G>,
    initialSignalAccepted: bool,
    received: seq<Received>,
    unadviseSucceeds: bool)

  /** The monitor's state as the worker sees it. */
  datatype World = World(supervisor: Supervisor, network: Network.NetworkState, wlan: Wlan.WlanState, loop: LoopState)

  /** A step that has run, with the shared state it left behind. */
  datatype Snapshot = Snapshot(step: Step, supervisor: Supervisor, network: Network.NetworkState, wlan: Wlan.WlanState)

  /**
   * The worker thread part-way through: the world, the failures it logged,
   * the initial readings it produced, whether its loop has left, and the
   * trace of the steps taken so far.
   */
  datatype Worker = Worker(
    world: World,
    logged: set<Failure>,
    initialReport: Option<u32>,
    initialSignal: Option<Delivery>,
    exited: bool,
    trace: seq<Snapshot>)

  function Begin(w: World): Worker {
    Worker(w, {}, None, None, false, [])
  }

  /** Appends `step` and the state it left to the trace. */
  function Did(k: Worker, step: Step): Worker {
    k.(trace := k.trace + [Snapshot(step, k.world.supervisor, k.world.network, k.world.wlan)])
  }

  /**
   * One action of the worker thread. The initial WiFi reading is sent with
   * whatever id the supervisor holds at that moment, as
   * `send_wlan_status_message` loads it; the probe and COM steps change
   * nothing the model keeps.
   */
  function Exec<G>(k: Worker, replies: WorkerReplies<G>, step: Step): Worker {
    var w := k.world;
    match step
    case PublishId => Did(k.(world := w.(supervisor := PublishThreadId(w.supervisor, replies.threadId))), step)
    case InitCom => Did(k.(logged := k.logged + if replies.comInitialized then {} else {ComFailure}), step)
    case InitNetwork =>
      var net := Network.InitializeNetworkMonitor(w.network, replies.nlm);
      Did(k.(world := w.(network := net.state),
             logged := k.logged + (if net.ok then {} else {NetworkFailure}),
             initialReport := net.report), step)
    case InitWlan =>
      var wl := Wlan.InitializeWlanMonitor(w.wlan, replies.args, replies.wlan);
      var signal :=
        if wl.send.Some? then Some(SendWlanStatusMessage(w.supervisor.threadId, wl.send.value.0, wl.send.value.1, replies.initialSignalAccepted))
        else None;
      Did(k.(world := w.(wlan := wl.state),
             logged := k.logged + (if wl.ok then {} else {WlanFailure}),
             initialSignal := signal), step)
    case StartProbe => Did(k, step)
    case RunLoop =>
      var stop := FirstStop(replies.received);
      Did(k.(world := w.(loop := Fold(w.loop, replies.received[..stop])), exited := stop < |replies.received|), step)
    case StopProbe => Did(k, step)
    case CleanupWlan => Did(k.(world := w.(wlan := Wlan.CleanupWlanMonitor(w.wlan).0)), step)
    case CleanupNetwork => Did(k.(world := w.(network := Network.CleanupNetworkMonitor(w.network, replies.unadviseSucceeds).state)), step)
    case UninitCom => Did(k, step)
    case ClearThreadId => Did(k.(world := w.(supervisor := w.supervisor.(threadId := 0))), step)
    case ClearStarted => Did(k.(world := w.(supervisor := w.supervisor.(started := false))), step)
  }

  /**
   * The worker's setup: publish the id, then COM, the network watcher and
   * the WLAN watcher, each failure only logged; the initial readings are
   * reported to the host and posted to the worker's own queue; then the
   * prober starts.
   */
  function StartWorker<G>(w: World, replies: WorkerReplies<G>): (r: Worker)
    ensures r.world.supervisor == w.supervisor.(threadId := replies.threadId)
    ensures ComFailure in r.logged <==> !replies.comInitialized
    ensures NetworkFailure in r.logged <==> !Network.InitializeNetworkMonitor(w.network, replies.nlm).ok
    ensures WlanFailure in r.logged <==> !Wlan.InitializeWlanMonitor(w.wlan, replies.args, replies.wlan).ok
    ensures r.initialSignal.Some? <==> Wlan.InitializeWlanMonitor(w.wlan, replies.args, replies.wlan).send.Some?
    ensures var reading := Wlan.InitializeWlanMonitor(w.wlan, replies.args, replies.wlan).send;
            r.initialSignal.Some? ==>
              r.initialSignal.value == SendWlanStatusMessage(replies.threadId, reading.value.0, reading.value.1, replies.initialSignalAccepted)
    ensures r.initialSignal.Some? ==> (r.initialSignal.value.NotReady? <==> replies.threadId == 0)
    ensures r.initialSignal.Some? && !r.initialSignal.value.NotReady? ==> r.initialSignal.value.target == replies.threadId
    ensures r.initialReport == Network.InitializeNetworkMonitor(w.network, replies.nlm).report
    ensures !r.exited && r.world.loop == w.loop
    ensures var net := Network.InitializeNetworkMonitor(w.network, replies.nlm).state;
            var wl := Wlan.InitializeWlanMonitor(w.wlan, replies.args, replies.wlan).state;
            var sup := w.supervisor.(threadId := replies.threadId);
            && r.world.network == net && r.world.wlan == wl
            && r.trace == [
                 Snapshot(PublishId, sup, w.network, w.wlan), Snapshot(InitCom, sup, w.network, w.wlan),
                 Snapshot(InitNetwork, sup, net, w.wlan), Snapshot(InitWlan, sup, net, wl),
                 Snapshot(StartProbe, sup, net, wl)]
  {
    var k := Exec(Begin(w), replies, PublishId);
    var k := Exec(k, replies, InitCom);
    var k := Exec(k, replies, InitNetwork);
    var k := Exec(k, replies, InitWlan);
    Exec(k, replies, StartProbe)
  }

  /** The teardown once the loop has left, in source order. */
  function TearDown<G>(k: Worker, replies: WorkerReplies<G>): (r: Worker)
    ensures r.world == k.world.(supervisor := Idle, network := Network.Released, wlan := Wlan.Closed)
    ensures r.logged == k.logged && r.initialReport == k.initialReport
    ensures r.initialSignal == k.initialSignal && r.exited == k.exited
    ensures var s := k.world.supervisor;
            var cleared := s.(threadId := 0);
            r.trace == k.trace + [
              Snapshot(StopProbe, s, k.world.network, k.world.wlan),
              Snapshot(CleanupWlan, s, k.world.network, Wlan.Closed),
              Snapshot(CleanupNetwork, s, Network.Released, Wlan.Closed),
              Snapshot(UninitCom, s, Network.Released, Wlan.Closed),
              Snapshot(ClearThreadId, cleared, Network.Released, Wlan.Closed),
              Snapshot(ClearStarted, cleared.(started := false), Network.Released, Wlan.Closed)]
  {
    var k := Exec(k, replies, StopProbe);
    var k := Exec(k, replies, CleanupWlan);
    var k := Exec(k, replies, CleanupNetwork);
    var k := Exec(k, replies, UninitCom);
    var k := Exec(k, replies, ClearThreadId);
    Exec(k, replies, ClearStarted)
  }

  /**
   * The worker spawned by `start_monitor_thread`, which has already set the
   * started flag: its setup, then the loop; when the loop leaves, the
   * teardown; until then it is still running, published and started.
   */
  function RunWorker<G>(w: World, replies: WorkerReplies<G>): (r: Worker)
    requires w.supervisor.started
    ensures r.logged == StartWorker(w, replies).logged
    ensures r.initialReport == StartWorker(w, replies).initialReport
    ensures r.initialSignal == StartWorker(w, replies).initialSignal
    ensures r.exited <==> exists i :: 0 <= i < |replies.received| && Stops(replies.received[i])
    ensures r.world.loop == Fold(w.loop, replies.received[..FirstStop(replies.received)])
    ensures r.exited ==>
      r.world.supervisor == Idle && r.world.network == Network.Released && r.world.wlan == Wlan.Closed
    ensures !r.exited ==>
      && r.world.supervisor == Supervisor(true, replies.threadId)
      && r.world.network == StartWorker(w, replies).world.network
      && r.world.wlan == StartWorker(w, replies).world.wlan
  {
    var k := Exec(StartWorker(w, replies), replies, RunLoop);
    if k.exited then TearDown(k, replies) else k
  }

  /** The shared state each step of the worker leaves, step by step. */
  lemma WorkerTrace<G>(w: World, replies: WorkerReplies<G>)
    requires w.supervisor.started
    ensures var net := Network.InitializeNetworkMonitor(w.network, replies.nlm).state;
            var wl := Wlan.InitializeWlanMonitor(w.wlan, replies.args, replies.wlan).state;
            var sup := w.supervisor.(threadId := replies.threadId);
            var cleared := sup.(threadId := 0);
            var setup := [
              Snapshot(PublishId, sup, w.network, w.wlan), Snapshot(InitCom, sup, w.network, w.wlan),
              Snapshot(InitNetwork, sup, net, w.wlan), Snapshot(InitWlan, sup, net, wl),
              Snapshot(StartProbe, sup, net, wl), Snapshot(RunLoop, sup, net, wl)];
            RunWorker(w, replies).trace ==
              if !RunWorker(w, replies).exited then setup
              else setup + [
                Snapshot(StopProbe, sup, net, wl),
                Snapshot(CleanupWlan, sup, net, Wlan.Closed),
                Snapshot(CleanupNetwork, sup, Network.Released, Wlan.Closed),
                Snapshot(UninitCom, sup, Network.Released, Wlan.Closed),
                Snapshot(ClearThreadId, cleared, Network.Released, Wlan.Closed),
                Snapshot(ClearStarted, cleared.(started := false), Network.Released, Wlan.Closed)]
  {
    var k := Exec(StartWorker(w, replies), replies, RunLoop);
    assert k.exited == RunWorker(w, replies).exited;
  }

  /**
   * The steps of a worker run in source order: all of setup and the loop
   * and, once the loop has left, all of teardown.
   */
  lemma WorkerOrder<G>(w: World, replies: WorkerReplies<G>)
    requires w.supervisor.started
    ensures var t := RunWorker(w, replies).trace;
            |t| == if RunWorker(w, replies).exited then |Lifecycle| else 6
    ensures var t := RunWorker(w, replies).trace;
            forall i :: 0 <= i < |t| ==> t[i].step == Lifecycle[i]
  {
    WorkerTrace(w, replies);
  }

  /**
   * The state each step of a worker leaves: the started flag stays set
   * until the very last step, so no second worker can be spawned while this
   * one still runs; the id stays published until it is cleared, so both the
   * initial WiFi post and the cleanup hook's quit reach this worker; and
   * both watchers are released before the id is.
   */
  lemma WorkerGuards<G>(w: World, replies: WorkerReplies<G>)
    requires w.supervisor.started
    ensures var t := RunWorker(w, replies).trace;
            forall i :: 0 <= i < |t| && t[i].step != ClearStarted ==>
              t[i].supervisor.started && !StartMonitorThread(t[i].supervisor).1
    ensures var t := RunWorker(w, replies).trace;
            forall i :: 0 <= i < |t| && t[i].step != ClearThreadId && t[i].step != ClearStarted ==>
              t[i].supervisor.threadId == replies.threadId
    ensures var t := RunWorker(w, replies).trace;
            forall i :: 0 <= i < |t| && t[i].step == ClearThreadId ==>
              t[i].network == Network.Released && t[i].wlan == Wlan.Closed
  {
    WorkerTrace(w, replies);
    var t := RunWorker(w, replies).trace;
    forall i | 0 <= i < |t|
      ensures Guarded(t[i], replies.threadId)
    {
    }
  }

  /** The three facts `WorkerGuards` states, for one snapshot. */
  predicate Guarded(sn: Snapshot, threadId: u32) {
    && (sn.step != ClearStarted ==> sn.supervisor.started)
    && (sn.step != ClearThreadId && sn.step != ClearStarted ==> sn.supervisor.threadId == threadId)
    && (sn.step == ClearThreadId ==> sn.network == Network.Released && sn.wlan == Wlan.Closed)
  }
}
