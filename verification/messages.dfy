/**
 * The event channel between the watchers and the monitor thread: two private
 * thread messages posted with `PostThreadMessageW`, their payload encoding
 * into `wParam`/`lParam`, and the decoding the monitor loop applies.
 */
module Messages {
  import opened Base

  const WM_QUIT: u32 := 0x0012
  const WM_USER: u32 := 0x0400
  /** Connectivity changed; `wParam` is the status 0 or 1. */
  const WM_NETWORK_STATUS_CHANGE: u32 := WM_USER + 107
  /** Wireless signal changed; `wParam` is the quality, `lParam` the RSSI. */
  const WM_WIFI_SIGNAL_CHANGE: u32 := WM_USER + 108

  datatype Message = Message(id: u32, wParam: usize, lParam: isize)

  /**
   * What one send does: refuse because the monitor thread has not published
   * its id, or make exactly one post attempt, which the OS accepts or not.
   * A failed attempt is logged and there is no second attempt.
   */
  datatype Delivery =
    | NotReady
    | Posted(target: u32, msg: Message)
    | PostFailed(target: u32, msg: Message)

  /** The private message ids are distinct from each other and from WM_QUIT. */
  lemma MessageIdsDistinct()
    ensures WM_NETWORK_STATUS_CHANGE == 0x0400 + 107
    ensures WM_WIFI_SIGNAL_CHANGE == 0x0400 + 108
    ensures WM_NETWORK_STATUS_CHANGE != WM_WIFI_SIGNAL_CHANGE
    ensures WM_QUIT != WM_NETWORK_STATUS_CHANGE && WM_QUIT != WM_WIFI_SIGNAL_CHANGE
  {
  }

  /** `status as usize` into `wParam`, zero `lParam`. */
  function EncodeNetworkStatus(status: u32): Message {
    Message(WM_NETWORK_STATUS_CHANGE, status, 0)
  }

  /** `quality as usize` (zero extension) and `rssi as isize` (sign extension). */
  function EncodeWlanStatus(quality: u32, rssi: i32): Message {
    Message(WM_WIFI_SIGNAL_CHANGE, quality, rssi)
  }

  /** `wParam.0 as u32`: keeps the low 32 bits of the pointer-sized word. */
  function WordToU32(w: usize): (r: u32)
    ensures w < U32_LIMIT ==> r == w
    ensures (w - r) % U32_LIMIT == 0
  {
    w % U32_LIMIT
  }

  /** `lParam.0 as i32`: keeps the low 32 bits and reads them as two's complement. */
  function WordToI32(l: isize): (r: i32)
    ensures I32_MIN <= l < I32_LIMIT ==> r == l
    ensures (l - r) % U32_LIMIT == 0
  {
    var low := l % U32_LIMIT;
    if low < I32_LIMIT then low else low - U32_LIMIT
  }

  /** The pair the monitor loop reads back from a wireless-signal message. */
  function DecodeWlanStatus(m: Message): (u32, i32) {
    (WordToU32(m.wParam), WordToI32(m.lParam))
  }

  /** Decoding undoes the encoding for every quality and every RSSI. */
  lemma WlanStatusRoundTrip(quality: u32, rssi: i32)
    ensures DecodeWlanStatus(EncodeWlanStatus(quality, rssi)) == (quality, rssi)
  {
  }

  /** Encoding undoes the decoding for every message whose words are in range. */
  lemma WlanStatusRoundTripBack(m: Message)
    requires m.id == WM_WIFI_SIGNAL_CHANGE
    requires m.wParam < U32_LIMIT && I32_MIN <= m.lParam < I32_LIMIT
    ensures EncodeWlanStatus(DecodeWlanStatus(m).0, DecodeWlanStatus(m).1) == m
  {
  }

  /** The network status decodes back to the status that was encoded. */
  lemma NetworkStatusRoundTrip(status: u32)
    ensures WordToU32(EncodeNetworkStatus(status).wParam) == status
    ensures EncodeNetworkStatus(status).lParam == 0
  {
  }

  /** Guard shared by both senders: no thread id, no post. */
  function Send(threadId: u32, msg: Message, postAccepted: bool): (d: Delivery)
    ensures d.NotReady? <==> threadId == 0
    ensures !d.NotReady? ==> d.target == threadId && d.msg == msg
    ensures d.Posted? <==> threadId != 0 && postAccepted
  {
    if threadId == 0 then NotReady
    else if postAccepted then Posted(threadId, msg)
    else PostFailed(threadId, msg)
  }

  /**
   * `send_network_status_message`: refused while the monitor thread id is 0,
   * otherwise one post of WM_NETWORK_STATUS_CHANGE with `wParam = status`.
   */
  function SendNetworkStatusMessage(threadId: u32, status: u32, postAccepted: bool): (d: Delivery)
    ensures d.NotReady? <==> threadId == 0
    ensures !d.NotReady? ==> d.target == threadId
    ensures !d.NotReady? ==> d.msg.id == WM_NETWORK_STATUS_CHANGE && d.msg.wParam == status && d.msg.lParam == 0
    ensures d.Posted? <==> threadId != 0 && postAccepted
  {
    Send(threadId, EncodeNetworkStatus(status), postAccepted)
  }

  /**
   * `send_wlan_status_message`: refused while the monitor thread id is 0,
   * otherwise one post of WM_WIFI_SIGNAL_CHANGE carrying quality and RSSI.
   */
  function SendWlanStatusMessage(threadId: u32, quality: u32, rssi: i32, postAccepted: bool): (d: Delivery)
    ensures d.NotReady? <==> threadId == 0
    ensures !d.NotReady? ==> d.target == threadId
    ensures !d.NotReady? ==> d.msg == Message(WM_WIFI_SIGNAL_CHANGE, quality, rssi)
    ensures !d.NotReady? ==> DecodeWlanStatus(d.msg) == (quality, rssi)
    ensures d.Posted? <==> threadId != 0 && postAccepted
  {
    Send(threadId, EncodeWlanStatus(quality, rssi), postAccepted)
  }
}
