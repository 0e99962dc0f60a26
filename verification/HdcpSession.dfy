/**
 The message machine of the HDCP 2.2 transmitter (sde_hdcp_2x.c): which protocol
 message is handed to the display transport next, and the failure path that tells
 the transport to stop. It follows sections 2.2 to 2.5 of "HDCP System: Mapping
 HDCP to DisplayPort, Revision 2.2".

 TrustZone, the sink and the waits answer through parameters. trace records what
 the transport is told and when a session starts.
 */
module HdcpSession {
  import opened Common

  const INVALID := 0
  const AKE_INIT := 2
  const AKE_SEND_CERT := 3
  const AKE_NO_STORED_KM := 4
  const AKE_STORED_KM := 5
  const AKE_SEND_H_PRIME := 7
  const AKE_SEND_PAIRING_INFO := 8
  const LC_INIT := 9
  const LC_SEND_L_PRIME := 10
  const SKE_SEND_EKS := 11
  const REP_SEND_RECV_ID_LIST := 12
  const REP_SEND_ACK := 15
  const REP_STREAM_MANAGE := 16
  const REP_STREAM_READY := 17
  const SKE_SEND_TYPE_ID := 18
  const EINVAL := -22

  /** num_messages of hdcp_msg_lookup. */
  const PARTS: seq<nat> := [0, 0, 2, 3, 1, 2, 0, 1, 1, 1, 1, 2, 4, 0, 0, 1, 3, 1, 1]

  datatype Cmd = NoCmd | Send | Recv | Poll | StatusSuccess | StatusFailed

  datatype Event = Started | Handed(msg: int, cmd: Cmd) | Success | Failed

  /** One wait for the sink: another thread may stop the session before or
      during it, and it may time out. */
  datatype Wait = Wait(stopBefore: bool, stopDuring: bool, timedOut: bool)

  /** One TrustZone call: success, the message it wants sent (None: empty
      response), its repeater flag, and whether another thread stops the session
      before the handler looks at hdcp_off again. */
  datatype Tz = Tz(ok: bool, out: Option<int>, repeater: bool, stop: bool)

  datatype Ctrl = Ctrl(
    last: int,             // last_msg
    noStoredKm: bool,
    repeater: bool,
    updateStream: bool,
    authenticated: bool,
    resendLc: bool,
    resendStream: bool,
    off: bool,             // hdcp_off
    out: int,              // first byte of TrustZone's response buffer
    trace: seq<Event>)

  // ---------- The next message ----------

  function NextMessage(c: Ctrl, cmd: Cmd): int {
    if c.last == INVALID then AKE_INIT
    else if c.last == AKE_INIT then AKE_SEND_CERT
    else if c.last == AKE_SEND_CERT then (if c.noStoredKm then AKE_NO_STORED_KM else AKE_STORED_KM)
    else if c.last == AKE_STORED_KM || c.last == AKE_NO_STORED_KM then AKE_SEND_H_PRIME
    else if c.last == AKE_SEND_H_PRIME then (if c.noStoredKm then AKE_SEND_PAIRING_INFO else LC_INIT)
    else if c.last == AKE_SEND_PAIRING_INFO then LC_INIT
    else if c.last == LC_INIT then LC_SEND_L_PRIME
    else if c.last == LC_SEND_L_PRIME then (if c.resendLc then LC_INIT else SKE_SEND_EKS)
    else if (c.last == SKE_SEND_EKS || c.last == SKE_SEND_TYPE_ID) && !c.repeater then SKE_SEND_TYPE_ID
    else if c.last in {SKE_SEND_EKS, SKE_SEND_TYPE_ID, REP_STREAM_READY, REP_SEND_ACK} then
      (if !c.repeater then INVALID else if cmd == Send then REP_STREAM_MANAGE else REP_SEND_RECV_ID_LIST)
    else if c.last == REP_SEND_RECV_ID_LIST then REP_SEND_ACK
    else if c.last == REP_STREAM_MANAGE then REP_STREAM_READY
    else EINVAL
  }

  predicate Known(m: int) {
    m in {INVALID, AKE_INIT, AKE_SEND_CERT, AKE_NO_STORED_KM, AKE_STORED_KM, AKE_SEND_H_PRIME, AKE_SEND_PAIRING_INFO,
          LC_INIT, LC_SEND_L_PRIME, SKE_SEND_EKS, REP_SEND_RECV_ID_LIST, REP_SEND_ACK, REP_STREAM_MANAGE,
          REP_STREAM_READY, SKE_SEND_TYPE_ID}
  }

  // ---------- Talking to the transport ----------

  function Tell(c: Ctrl, e: Event): Ctrl { c.(trace := c.trace + [e]) }

  /** The failure path in closed form: the transport is told once, by whoever
      turns hdcp_off on. (The streams it closes are HdcpStreams.Clean.) */
  function Clean(c: Ctrl): Ctrl {
    var c' := c.(authenticated := false, off := true);
    if c.off then c' else Tell(c', Failed)
  }

  predicate NeedsWait(c: Ctrl) {
    c.last == AKE_SEND_H_PRIME || c.last == AKE_SEND_PAIRING_INFO ||
    (c.last == REP_SEND_RECV_ID_LIST && !c.authenticated)
  }

  function WaitForResponse(c: Ctrl, w: Wait): Ctrl {
    if !NeedsWait(c) then c
    else
      var c1 := c.(off := c.off || w.stopBefore);
      if c1.off then c1
      else
        var c2 := c1.(off := w.stopDuring);
        if w.timedOut && !c2.off then Clean(c2) else c2
  }

  function WakeupClient(c: Ctrl, cmd: Cmd, w: Wait): Ctrl {
    match cmd
    case NoCmd => c
    case StatusSuccess => WaitForResponse(Tell(c, Success), w)
    case StatusFailed => WaitForResponse(Tell(c, Failed), w)
    case _ => HandOver(c, cmd, w)
  }

  /** A send, receive or poll command: the next message goes to the transport. */
  function HandOver(c: Ctrl, cmd: Cmd, w: Wait): Ctrl {
    var m := NextMessage(c, cmd);
    var c1 := c.(resendStream := c.resendStream && c.last != REP_STREAM_MANAGE);
    if m <= INVALID then c1.(last := INVALID)
    else WaitForResponse(Tell(c1.(last := m), Handed(m, cmd)), w)
  }

  // ---------- Commands ----------

  datatype Command =
    | Start                                  // from the caller's thread
    | StopRequest                            // from the caller's thread: STOP or DISABLE
    | InitSession(tz: Tz)
    | Abort                                  // STOP, SEND/RECV failure, link failure
    | StartAuth(tz: Tz, w: Wait)
    | MsgSent(tz: Tz, w: Wait, w2: Wait)
    | MsgRecvd(length: nat, fromSink: Option<int>, tz: Tz, encrypt: Tz, w: Wait, w2: Wait)
    | TimedOut(tz: Tz, w: Wait)
    | QueryStreamType(tz: Tz, w: Wait)
    | MinEncLevel(tz: Tz, w: Wait)
    | ManageStreams(changed: bool, tz: Tz, w: Wait)  // changed: a stream was opened or closed

  /** After a TrustZone call: its message is in the buffer, and a stop has landed. */
  function Response(c: Ctrl, tz: Tz): Ctrl {
    c.(out := if tz.out.Some? then tz.out.value else c.out, off := c.off || tz.stop)
  }

  function QueryStream(c: Ctrl, tz: Tz, w: Wait): Ctrl {
    if c.off || !c.repeater || (!c.authenticated && c.out != REP_SEND_ACK) then c
    else
      var c1 := Response(c, tz);
      if tz.ok && !c1.off then WakeupClient(c1.(last := REP_SEND_ACK), Send, w) else c1
  }

  /** stop: another thread stops the session before the second look at hdcp_off. */
  function SendType(c: Ctrl, stop: bool, w: Wait): Ctrl {
    if c.off || c.repeater then c
    else
      var c1 := c.(out := SKE_SEND_TYPE_ID, off := stop);
      if c1.off then c1 else WakeupClient(c1, Send, w)
  }

  /** Tell the transport that encryption is on, then poll the link. */
  function Encrypted(c: Ctrl, w: Wait, w2: Wait): Ctrl {
    WakeupClient(WakeupClient(c.(authenticated := true), StatusSuccess, w), Poll, w2)
  }

  /** A repeater is polled unless the session was stopped; otherwise the type is sent,
      which a stopped session does too. */
  function AfterEks(c: Ctrl, w: Wait): Ctrl {
    if c.repeater && !c.off then WakeupClient(c, Poll, w) else WakeupClient(c.(out := SKE_SEND_TYPE_ID), Send, w)
  }

  /** The type was sent: switch encryption on, then poll. */
  function AfterType(c: Ctrl, tz: Tz, w: Wait, w2: Wait): Ctrl {
    var c1 := Response(c, tz);
    if tz.ok then Encrypted(c1, w, w2) else WakeupClient(c1, Poll, w2)
  }

  /** The acknowledgement was sent: manage the streams once, then poll. */
  function AfterAck(c: Ctrl, tz: Tz, w: Wait): Ctrl {
    if c.updateStream then QueryStream(c, tz, w).(updateStream := false) else WakeupClient(c, Poll, w)
  }

  function DoMsgSent(c: Ctrl, tz: Tz, w: Wait, w2: Wait): Ctrl {
    if c.off then c
    else if c.out == SKE_SEND_TYPE_ID then AfterType(c, tz, w, w2)
    else if c.out == SKE_SEND_EKS then AfterEks(c.(off := tz.stop), w)
    else if c.out == REP_SEND_ACK then AfterAck(c, tz, w)
    else WakeupClient(c, Recv, w)
  }

  function StreamReady(c: Ctrl, encrypt: Tz, w: Wait, w2: Wait): Ctrl {
    if c.resendStream || c.authenticated then WakeupClient(c, Poll, w)
    else if encrypt.ok then Encrypted(Response(c, encrypt), w, w2)
    else CleanUnlessOff(WakeupClient(Response(c, encrypt), Poll, w))
  }

  function CleanUnlessOff(c: Ctrl): Ctrl { if c.off then c else Clean(c) }

  /** The flags that TrustZone's answer to a sink message sets. */
  function Digest(c: Ctrl, msg: int, out: int, repeater: bool): Ctrl {
    var c' := c.(resendLc := msg == LC_SEND_L_PRIME && out == LC_INIT, noStoredKm := out == AKE_NO_STORED_KM);
    if out == SKE_SEND_EKS then c'.(repeater := repeater, updateStream := true) else c'
  }

  /** fromSink is the message id the sink sent; DisplayPort has none and the
      last message stands for it. */
  function DoMsgRecvd(c: Ctrl, length: nat, fromSink: Option<int>, tz: Tz, encrypt: Tz, w: Wait, w2: Wait): Ctrl {
    if c.off || length == 0 then c
    else
      var msg := if fromSink.Some? then fromSink.value else c.last;
      var c1 := Response(c, tz);
      if !tz.ok then CleanUnlessOff(c1)
      else Reply(c1, msg, if tz.out.None? then INVALID else tz.out.value, tz.repeater, encrypt, w, w2)
  }

  function Reply(c: Ctrl, msg: int, out: int, repeater: bool, encrypt: Tz, w: Wait, w2: Wait): Ctrl {
    if msg == AKE_SEND_H_PRIME && c.noStoredKm then WakeupClient(c, Recv, w)
    else if msg == REP_STREAM_READY && out != REP_STREAM_MANAGE then StreamReady(c, encrypt, w, w2)
    else
      var c1 := Digest(c, msg, out, repeater);
      if c1.off then c1 else WakeupClient(c1, Send, w)
  }

  function DoInit(c: Ctrl, tz: Tz): Ctrl { if tz.ok then Response(c, tz) else Clean(Response(c, tz)) }

  function DoStartAuth(c: Ctrl, tz: Tz, w: Wait): Ctrl {
    var c1 := Response(c, tz);
    if tz.ok then WakeupClient(c1, Send, w) else Clean(c1)
  }

  function DoTimedOut(c: Ctrl, tz: Tz, w: Wait): Ctrl {
    if c.off then c
    else
      var c1 := Response(c, tz);
      if !tz.ok then CleanUnlessOff(c1)
      else if c1.out == LC_INIT && !c1.off then WakeupClient(c1, Send, w)
      else c1
  }

  function Do(c: Ctrl, k: Command): Ctrl {
    match k
    case Start =>
      Tell(c.(noStoredKm := false, repeater := false, updateStream := false, authenticated := false,
              last := INVALID, off := false), Started)
    case StopRequest => c.(off := true)
    case InitSession(tz) => DoInit(c, tz)
    case Abort => Clean(c)
    case StartAuth(tz, w) => DoStartAuth(c, tz, w)
    case MsgSent(tz, w, w2) => DoMsgSent(c, tz, w, w2)
    case MsgRecvd(n, s, tz, e, w, w2) => DoMsgRecvd(c, n, s, tz, e, w, w2)
    case TimedOut(tz, w) => DoTimedOut(c, tz, w)
    case QueryStreamType(tz, w) => QueryStream(c, tz, w)
    case MinEncLevel(tz, w) => if !c.repeater then SendType(c, tz.stop, w) else QueryStream(c, tz, w)
    case ManageStreams(changed, tz, w) =>
      if !changed then c
      else if c.authenticated then QueryStream(c, tz, w)
      else c.(resendStream := c.resendStream || c.last == REP_STREAM_MANAGE || c.last == REP_STREAM_READY)
  }

  function Run(c: Ctrl, ks: seq<Command>): Ctrl
    decreases |ks|
  {
    if ks == [] then c else Run(Do(c, ks[0]), ks[1..])
  }

  function Registered(): Ctrl {
    Ctrl(INVALID, false, false, false, false, false, false, true, INVALID, [])
  }

  // ---------- What a trace must look like ----------

  /** The events since the last START. */
  function Session(trace: seq<Event>): seq<Event> {
    if trace == [] || trace[|trace| - 1] == Started then []
    else Session(trace[..|trace| - 1]) + [trace[|trace| - 1]]
  }

  predicate Seen(trace: seq<Event>, m: int) { exists e :: e in Session(trace) && e.Handed? && e.msg == m }

  /** The message that must have been handed over earlier in the session. */
  function Needs(m: int): Option<int> {
    if m == AKE_SEND_CERT then Some(AKE_INIT)
    else if m == AKE_NO_STORED_KM || m == AKE_STORED_KM || m == AKE_SEND_H_PRIME then Some(AKE_SEND_CERT)
    else if m == AKE_SEND_PAIRING_INFO || m == LC_INIT then Some(AKE_SEND_H_PRIME)
    else if m == LC_SEND_L_PRIME then Some(LC_INIT)
    else if m == SKE_SEND_EKS then Some(LC_SEND_L_PRIME)
    else if m == SKE_SEND_TYPE_ID then Some(SKE_SEND_EKS)
    else if m == REP_SEND_ACK then Some(REP_SEND_RECV_ID_LIST)
    else if m == REP_STREAM_READY then Some(REP_STREAM_MANAGE)
    else None
  }

  /** The message handed over last in the session. */
  function LastHanded(trace: seq<Event>): Option<int> {
    if trace == [] || trace[|trace| - 1] == Started then None
    else if trace[|trace| - 1].Handed? then Some(trace[|trace| - 1].msg)
    else LastHanded(trace[..|trace| - 1])
  }

  /** What the protocol lets follow a message. */
  function Successors(m: int): set<int> {
    if m == AKE_INIT then {AKE_SEND_CERT}
    else if m == AKE_SEND_CERT then {AKE_NO_STORED_KM, AKE_STORED_KM}
    else if m == AKE_NO_STORED_KM || m == AKE_STORED_KM then {AKE_SEND_H_PRIME}
    else if m == AKE_SEND_H_PRIME then {AKE_SEND_PAIRING_INFO, LC_INIT}
    else if m == AKE_SEND_PAIRING_INFO then {LC_INIT}
    else if m == LC_INIT then {LC_SEND_L_PRIME}
    else if m == LC_SEND_L_PRIME then {LC_INIT, SKE_SEND_EKS}
    else if m == SKE_SEND_EKS || m == SKE_SEND_TYPE_ID then
      {SKE_SEND_TYPE_ID, REP_STREAM_MANAGE, REP_SEND_RECV_ID_LIST}
    else if m == REP_STREAM_READY || m == REP_SEND_ACK then {REP_STREAM_MANAGE, REP_SEND_RECV_ID_LIST, AKE_INIT}
    else if m == REP_SEND_RECV_ID_LIST then {REP_SEND_ACK}
    else if m == REP_STREAM_MANAGE then {REP_STREAM_READY}
    else {}
  }

  /** A session opens with AKE_INIT, and each message succeeds the one before it; a
      stream query may come in at any time. Stream management is sent, the list of
      receivers is only ever asked for. */
  predicate MayCome(before: Option<int>, m: int, cmd: Cmd) {
    && (m == REP_STREAM_MANAGE || (if before.None? then m == AKE_INIT else m in Successors(before.value)))
    && (m == REP_STREAM_MANAGE ==> cmd == Send) && (m == REP_SEND_RECV_ID_LIST ==> cmd != Send)
  }

  /** An event that may follow a trace: a message in order and with a nonempty
      description; no second failure in a session, and no success after one. */
  ghost predicate MayFollow(trace: seq<Event>, e: Event) {
    && (e.Handed? ==>
          0 < e.msg < |PARTS| && PARTS[e.msg] > 0 && (Needs(e.msg).Some? ==> Seen(trace, Needs(e.msg).value)))
    && (e.Handed? ==> MayCome(LastHanded(trace), e.msg, e.cmd))
    && (e == Failed || e == Success ==> Failed !in Session(trace))
  }

  ghost predicate Lawful(trace: seq<Event>) {
    trace == [] || (Lawful(trace[..|trace| - 1]) && MayFollow(trace[..|trace| - 1], trace[|trace| - 1]))
  }

  ghost predicate Inv(c: Ctrl) {
    && Lawful(c.trace)
    && Known(c.last)
    && (c.last != INVALID ==> Seen(c.trace, c.last) && LastHanded(c.trace) == Some(c.last))
    && (c.last == INVALID ==> LastHanded(c.trace) in {None, Some(REP_STREAM_READY), Some(REP_SEND_ACK)})
    && (Failed in Session(c.trace) ==> c.off && !c.authenticated)
    && (c.authenticated ==> Success in Session(c.trace))
  }

  lemma Append(trace: seq<Event>, e: Event)
    requires e != Started
    ensures Session(trace + [e]) == Session(trace) + [e]
    ensures Lawful(trace + [e]) <==> Lawful(trace) && MayFollow(trace, e)
    ensures forall m :: Seen(trace, m) ==> Seen(trace + [e], m)
    ensures e.Handed? ==> Seen(trace + [e], e.msg)
    ensures LastHanded(trace + [e]) == if e.Handed? then Some(e.msg) else LastHanded(trace)
  {
    assert (trace + [e])[..|trace|] == trace;
  }

  /** Everything handed over in a lawful session had what it needs before it. */
  lemma {:induction false} SeenClosed(trace: seq<Event>, m: int)
    requires Lawful(trace) && Seen(trace, m) && Needs(m).Some?
    ensures Seen(trace, Needs(m).value)
  {
    var n := |trace| - 1;
    assert trace == trace[..n] + [trace[n]];
    Append(trace[..n], trace[n]);
    if !(trace[n].Handed? && trace[n].msg == m) {
      assert Seen(trace[..n], m);
      SeenClosed(trace[..n], m);
    }
  }

  // ---------- Every command keeps the law ----------

  /** The unknown-message branch is not reached, and the next message is in order. */
  lemma NextMessageInOrder(c: Ctrl, cmd: Cmd)
    requires Inv(c)
    ensures var m := NextMessage(c, cmd);
      m != EINVAL && Known(m) && (m > INVALID ==> MayFollow(c.trace, Handed(m, cmd)))
  {
    NextComes(c, cmd);
    NextNeeds(c, cmd);
  }

  /** What NextMessage needs has been seen: the last message, or what that needed. */
  lemma NextNeeds(c: Ctrl, cmd: Cmd)
    requires Lawful(c.trace) && Known(c.last) && (c.last != INVALID ==> Seen(c.trace, c.last))
    ensures var m := NextMessage(c, cmd);
      && m != EINVAL && Known(m)
      && (m > INVALID ==> m < |PARTS| && PARTS[m] > 0 && (Needs(m).Some? ==> Seen(c.trace, Needs(m).value)))
  {
    if c.last != INVALID && Needs(c.last).Some? {
      SeenClosed(c.trace, c.last);
      var n := Needs(c.last).value;
      if Needs(n).Some? { SeenClosed(c.trace, n); }
    }
  }

  lemma NextComes(c: Ctrl, cmd: Cmd)
    requires Known(c.last) && (c.last != INVALID ==> LastHanded(c.trace) == Some(c.last))
    requires c.last == INVALID ==> LastHanded(c.trace) in {None, Some(REP_STREAM_READY), Some(REP_SEND_ACK)}
    ensures NextMessage(c, cmd) > INVALID ==> MayCome(LastHanded(c.trace), NextMessage(c, cmd), cmd)
  {
  }

  lemma CleanInv(c: Ctrl)
    requires Inv(c)
    ensures Inv(Clean(c)) && Clean(c).off
  {
    Append(c.trace, Failed);
  }

  lemma WaitInv(c: Ctrl, w: Wait)
    requires Inv(c)
    ensures Inv(WaitForResponse(c, w))
  {
    if NeedsWait(c) && !c.off && !w.stopBefore { CleanInv(c.(off := false)); }
  }

  /** Flags that the law does not mention may change freely. */
  lemma FlagsInv(c: Ctrl, c': Ctrl)
    requires Inv(c) && c'.trace == c.trace && c'.last == c.last && (c.off ==> c'.off)
    requires c'.authenticated == c.authenticated
    ensures Inv(c')
  {
  }

  lemma HandInv(c: Ctrl, c1: Ctrl, cmd: Cmd)
    requires Inv(c) && NextMessage(c, cmd) > INVALID
    requires c1 == c.(resendStream := c1.resendStream)
    ensures var m := NextMessage(c, cmd); Inv(Tell(c1.(last := m), Handed(m, cmd)))
  {
    var m := NextMessage(c, cmd);
    NextMessageInOrder(c, cmd);
    Append(c.trace, Handed(m, cmd));
  }

  lemma WakeupInv(c: Ctrl, cmd: Cmd, w: Wait)
    requires Inv(c) && cmd != StatusFailed && cmd != StatusSuccess
    ensures Inv(WakeupClient(c, cmd, w))
  {
    if cmd != NoCmd { HandOverInv(c, cmd, w); }
  }

  /** Encryption is on: the transport is told in the same session. */
  lemma SuccessInv(c: Ctrl, w: Wait)
    requires Inv(c) && Failed !in Session(c.trace)
    ensures Inv(WakeupClient(c.(authenticated := true), StatusSuccess, w))
  {
    Append(c.trace, Success);
    WaitInv(Tell(c.(authenticated := true), Success), w);
  }

  /** The stream query: whatever came last, stream management is sent. */
  lemma QueryHandInv(c: Ctrl, w: Wait)
    requires Inv(c) && c.repeater
    ensures Inv(HandOver(c.(last := REP_SEND_ACK), Send, w))
  {
    QueryHand(c, w);
    Append(c.trace, Handed(REP_STREAM_MANAGE, Send));
  }

  lemma QueryHand(c: Ctrl, w: Wait)
    requires c.repeater
    ensures HandOver(c.(last := REP_SEND_ACK), Send, w) ==
            Tell(c.(last := REP_STREAM_MANAGE), Handed(REP_STREAM_MANAGE, Send))
  {
  }

  lemma HandOverInv(c: Ctrl, cmd: Cmd, w: Wait)
    requires Inv(c)
    ensures Inv(HandOver(c, cmd, w))
  {
    var m := NextMessage(c, cmd);
    var c1 := c.(resendStream := c.resendStream && c.last != REP_STREAM_MANAGE);
    if m > INVALID {
      HandInv(c, c1, cmd);
      WaitInv(Tell(c1.(last := m), Handed(m, cmd)), w);
    }
  }

  lemma QueryStreamInv(c: Ctrl, tz: Tz, w: Wait)
    requires Inv(c)
    ensures Inv(QueryStream(c, tz, w))
  {
    var c1 := Response(c, tz);
    FlagsInv(c, c1);
    if !c1.off && c.repeater && tz.ok { QueryHandInv(c1, w); }
  }

  lemma EncryptedInv(c: Ctrl, w: Wait, w2: Wait)
    requires Inv(c) && Failed !in Session(c.trace)
    ensures Inv(Encrypted(c, w, w2))
  {
    SuccessInv(c, w);
    WakeupInv(WakeupClient(c.(authenticated := true), StatusSuccess, w), Poll, w2);
  }

  lemma AfterEksInv(c: Ctrl, w: Wait)
    requires Inv(c)
    ensures Inv(AfterEks(c, w))
  {
    FlagsInv(c, c.(out := SKE_SEND_TYPE_ID));
    if c.repeater && !c.off { WakeupInv(c, Poll, w); } else { WakeupInv(c.(out := SKE_SEND_TYPE_ID), Send, w); }
  }

  lemma AfterTypeInv(c: Ctrl, tz: Tz, w: Wait, w2: Wait)
    requires Inv(c) && !c.off
    ensures Inv(AfterType(c, tz, w, w2))
  {
    var c1 := Response(c, tz);
    FlagsInv(c, c1);
    if tz.ok { EncryptedInv(c1, w, w2); } else { WakeupInv(c1, Poll, w2); }
  }

  lemma AfterAckInv(c: Ctrl, tz: Tz, w: Wait)
    requires Inv(c)
    ensures Inv(AfterAck(c, tz, w))
  {
    if c.updateStream {
      var c1 := QueryStream(c, tz, w);
      QueryStreamInv(c, tz, w);
      FlagsInv(c1, c1.(updateStream := false));
    } else {
      WakeupInv(c, Poll, w);
    }
  }

  lemma MsgSentInv(c: Ctrl, tz: Tz, w: Wait, w2: Wait)
    requires Inv(c)
    ensures Inv(DoMsgSent(c, tz, w, w2))
  {
    if c.off {
    } else if c.out == SKE_SEND_TYPE_ID {
      AfterTypeInv(c, tz, w, w2);
    } else if c.out == SKE_SEND_EKS {
      FlagsInv(c, c.(off := tz.stop));
      AfterEksInv(c.(off := tz.stop), w);
    } else if c.out == REP_SEND_ACK {
      AfterAckInv(c, tz, w);
    } else {
      WakeupInv(c, Recv, w);
    }
  }

  lemma StreamReadyInv(c: Ctrl, encrypt: Tz, w: Wait, w2: Wait)
    requires Inv(c) && Failed !in Session(c.trace)
    ensures Inv(StreamReady(c, encrypt, w, w2))
  {
    if c.resendStream || c.authenticated {
      WakeupInv(c, Poll, w);
    } else {
      var c1 := Response(c, encrypt);
      FlagsInv(c, c1);
      if encrypt.ok {
        EncryptedInv(c1, w, w2);
      } else {
        WakeupInv(c1, Poll, w);
        CleanInv(WakeupClient(c1, Poll, w));
      }
    }
  }

  lemma ReplyInv(c: Ctrl, msg: int, out: int, repeater: bool, encrypt: Tz, w: Wait, w2: Wait)
    requires Inv(c) && Failed !in Session(c.trace)
    ensures Inv(Reply(c, msg, out, repeater, encrypt, w, w2))
  {
    if msg == AKE_SEND_H_PRIME && c.noStoredKm {
      WakeupInv(c, Recv, w);
    } else if msg == REP_STREAM_READY && out != REP_STREAM_MANAGE {
      StreamReadyInv(c, encrypt, w, w2);
    } else {
      var c1 := Digest(c, msg, out, repeater);
      FlagsInv(c, c1);
      if !c1.off { WakeupInv(c1, Send, w); }
    }
  }

  lemma MsgRecvdInv(c: Ctrl, length: nat, fromSink: Option<int>, tz: Tz, encrypt: Tz, w: Wait, w2: Wait)
    requires Inv(c)
    ensures Inv(DoMsgRecvd(c, length, fromSink, tz, encrypt, w, w2))
  {
    if !c.off && length != 0 {
      var c1 := Response(c, tz);
      FlagsInv(c, c1);
      if tz.ok {
        ReplyInv(c1, if fromSink.Some? then fromSink.value else c.last,
                 if tz.out.None? then INVALID else tz.out.value, tz.repeater, encrypt, w, w2);
      } else {
        CleanInv(c1);
      }
    }
  }

  lemma StartInv(c: Ctrl)
    requires Inv(c)
    ensures Inv(Do(c, Start))
  {
    var t := c.trace + [Started];
    assert t[..|c.trace|] == c.trace;
  }

  /** The calls made on the caller's thread, and the aborts. */
  lemma OutsideInv(c: Ctrl, k: Command)
    requires Inv(c) && (k.Start? || k.StopRequest? || k.Abort?)
    ensures Inv(Do(c, k))
  {
    match k
    case Start => StartInv(c);
    case StopRequest => FlagsInv(c, c.(off := true));
    case _ => CleanInv(c);
  }

  lemma InitInv(c: Ctrl, tz: Tz)
    requires Inv(c)
    ensures Inv(DoInit(c, tz))
  {
    FlagsInv(c, Response(c, tz));
    CleanInv(Response(c, tz));
  }

  lemma StartAuthInv(c: Ctrl, tz: Tz, w: Wait)
    requires Inv(c)
    ensures Inv(DoStartAuth(c, tz, w))
  {
    var c1 := Response(c, tz);
    FlagsInv(c, c1);
    if tz.ok { WakeupInv(c1, Send, w); } else { CleanInv(c1); }
  }

  lemma TimedOutInv(c: Ctrl, tz: Tz, w: Wait)
    requires Inv(c)
    ensures Inv(DoTimedOut(c, tz, w))
  {
    var c1 := Response(c, tz);
    FlagsInv(c, c1);
    if c.off {
    } else if !tz.ok {
      CleanInv(c1);
    } else if c1.out == LC_INIT && !c1.off {
      WakeupInv(c1, Send, w);
    }
  }

  lemma MinEncLevelInv(c: Ctrl, tz: Tz, w: Wait)
    requires Inv(c)
    ensures Inv(Do(c, MinEncLevel(tz, w)))
  {
    if c.repeater {
      QueryStreamInv(c, tz, w);
    } else {
      var c1 := c.(out := SKE_SEND_TYPE_ID, off := c.off || tz.stop);
      FlagsInv(c, c1);
      if !c1.off { WakeupInv(c1, Send, w); }
    }
  }

  lemma DoInv(c: Ctrl, k: Command)
    requires Inv(c)
    ensures Inv(Do(c, k))
  {
    match k
    case MsgSent(tz, w, w2) => MsgSentInv(c, tz, w, w2);
    case MsgRecvd(n, s, tz, e, w, w2) => MsgRecvdInv(c, n, s, tz, e, w, w2);
    case QueryStreamType(tz, w) => QueryStreamInv(c, tz, w);
    case MinEncLevel(tz, w) => MinEncLevelInv(c, tz, w);
    case ManageStreams(_, tz, w) => QueryStreamInv(c, tz, w);
    case InitSession(tz) => InitInv(c, tz);
    case StartAuth(tz, w) => StartAuthInv(c, tz, w);
    case TimedOut(tz, w) => TimedOutInv(c, tz, w);
    case _ => OutsideInv(c, k);
  }

  /** Whatever TrustZone, the sink and the callers do, every trace is lawful. */
  lemma {:induction false} RunInv(c: Ctrl, ks: seq<Command>)
    requires Inv(c)
    ensures Inv(Run(c, ks))
    decreases |ks|
  {
    if ks != [] {
      DoInv(c, ks[0]);
      RunInv(Do(c, ks[0]), ks[1..]);
    }
  }

  // ---------- The law read off a trace ----------

  ghost predicate SameSession(trace: seq<Event>, i: int, j: int)
    requires 0 <= i <= j < |trace|
  {
    forall k :: i < k <= j ==> trace[k] != Started
  }

  lemma {:induction false} SessionAt(trace: seq<Event>, e: Event)
    requires e in Session(trace)
    ensures exists i :: 0 <= i < |trace| && trace[i] == e && SameSession(trace, i, |trace| - 1)
  {
    var n := |trace| - 1;
    if trace[n] == e {
      assert SameSession(trace, n, n);
    } else {
      SessionAt(trace[..n], e);
      var i :| 0 <= i < n && trace[..n][i] == e && SameSession(trace[..n], i, n - 1);
      assert forall k :: i < k < n ==> trace[k] == trace[..n][k];
      assert trace[i] == e && SameSession(trace, i, n);
    }
  }

  lemma {:induction false} InSession(trace: seq<Event>, i: nat)
    requires i < |trace| && trace[i] != Started && SameSession(trace, i, |trace| - 1)
    ensures trace[i] in Session(trace)
  {
    var n := |trace| - 1;
    if i < n {
      assert forall k :: i < k < n ==> trace[..n][k] == trace[k];
      InSession(trace[..n], i);
      assert trace[..n][i] == trace[i];
    }
  }

  lemma {:induction false} LawfulPrefix(trace: seq<Event>, n: nat)
    requires Lawful(trace) && n <= |trace|
    ensures Lawful(trace[..n])
  {
    if n < |trace| {
      LawfulPrefix(trace[..|trace| - 1], n);
      assert trace[..|trace| - 1][..n] == trace[..n];
    } else {
      assert trace[..n] == trace;
    }
  }

  lemma {:induction false} LawfulAt(trace: seq<Event>, j: nat)
    requires Lawful(trace) && j < |trace|
    ensures MayFollow(trace[..j], trace[j])
  {
    LawfulPrefix(trace, j + 1);
    assert trace[..j + 1][..j] == trace[..j];
  }

  /** In every run: a message is handed over only after, in the same session, the
      message it needs. In particular SKE_SEND_EKS after LC_SEND_L_PRIME, LC_INIT
      after AKE_SEND_H_PRIME and AKE_SEND_H_PRIME after AKE_SEND_CERT. */
  lemma MessageOrder(ks: seq<Command>, j: nat)
    requires var trace := Run(Registered(), ks).trace;
             j < |trace| && trace[j].Handed? && Needs(trace[j].msg).Some?
    ensures var trace := Run(Registered(), ks).trace;
            exists i :: 0 <= i < j && trace[i].Handed? && trace[i].msg == Needs(trace[j].msg).value &&
                        SameSession(trace, i, j)
  {
    RunInv(Registered(), ks);
    var trace := Run(Registered(), ks).trace;
    LawfulAt(trace, j);
    SeenBefore(trace, j, Needs(trace[j].msg).value);
  }

  lemma SeenBefore(trace: seq<Event>, j: nat, m: int)
    requires j < |trace| && trace[j] != Started && Seen(trace[..j], m)
    ensures exists i :: 0 <= i < j && trace[i].Handed? && trace[i].msg == m && SameSession(trace, i, j)
  {
    var e :| e in Session(trace[..j]) && e.Handed? && e.msg == m;
    SessionAt(trace[..j], e);
    var i :| 0 <= i < j && trace[..j][i] == e && SameSession(trace[..j], i, j - 1);
    assert forall k :: i < k < j ==> trace[k] == trace[..j][k];
    assert trace[i] == e && SameSession(trace, i, j);
  }

  /** In every run: a session opens with AKE_INIT and each message succeeds the one
      handed over before it. */
  lemma MessageSucceeds(ks: seq<Command>, j: nat)
    requires var trace := Run(Registered(), ks).trace; j < |trace| && trace[j].Handed?
    ensures var trace := Run(Registered(), ks).trace; MayCome(LastHanded(trace[..j]), trace[j].msg, trace[j].cmd)
  {
    RunInv(Registered(), ks);
    LawfulAt(Run(Registered(), ks).trace, j);
  }

  /** In every run: an authenticated session was reported as a success, and has not
      failed; no success is reported after a failure of the same session. */
  lemma AuthenticatedSession(ks: seq<Command>)
    ensures var c := Run(Registered(), ks);
      c.authenticated ==> Success in Session(c.trace) && Failed !in Session(c.trace)
    ensures var trace := Run(Registered(), ks).trace;
      forall j :: 0 <= j < |trace| && trace[j] == Success ==> Failed !in Session(trace[..j])
  {
    RunInv(Registered(), ks);
    var trace := Run(Registered(), ks).trace;
    forall j | 0 <= j < |trace| && trace[j] == Success ensures Failed !in Session(trace[..j]) {
      LawfulAt(trace, j);
    }
  }

  /** In every run: between two STATUS_FAILED there is a START. */
  lemma FailsOncePerSession(ks: seq<Command>, i: nat, j: nat)
    requires var trace := Run(Registered(), ks).trace; i < j < |trace| && trace[i] == trace[j] == Failed
    ensures !SameSession(Run(Registered(), ks).trace, i, j)
  {
    RunInv(Registered(), ks);
    var trace := Run(Registered(), ks).trace;
    LawfulAt(trace, j);
    if SameSession(trace, i, j) {
      assert forall k :: i < k < j ==> trace[..j][k] == trace[k];
      InSession(trace[..j], i);
      assert false;
    }
  }

  /** Every handed message has a nonempty description. */
  lemma HandedHasParts(ks: seq<Command>, j: nat)
    requires var trace := Run(Registered(), ks).trace; j < |trace| && trace[j].Handed?
    ensures var m := Run(Registered(), ks).trace[j].msg; 0 < m < |PARTS| && PARTS[m] > 0
  {
    RunInv(Registered(), ks);
    LawfulAt(Run(Registered(), ks).trace, j);
  }

  // ---------- A session that goes well ----------

  const PROMPT := Wait(false, false, false)

  function Says(m: int): Tz { Tz(true, Some(m), false, false) }

  function Sent(): Command { MsgSent(Says(INVALID), PROMPT, PROMPT) }

  function Recvd(m: int): Command { MsgRecvd(1, None, Says(m), Says(INVALID), PROMPT, PROMPT) }

  /** Handing over with a sink that answers in time. */
  function Hand(c: Ctrl, cmd: Cmd): Ctrl {
    var m := NextMessage(c, cmd);
    Tell(c.(last := m, resendStream := c.resendStream && c.last != REP_STREAM_MANAGE), Handed(m, cmd))
  }

  lemma PromptHand(c: Ctrl, cmd: Cmd)
    requires !c.off && (cmd == Send || cmd == Recv || cmd == Poll) && NextMessage(c, cmd) > INVALID
    ensures WakeupClient(c, cmd, PROMPT) == Hand(c, cmd)
  {
  }

  /** A reported send makes the transport receive, unless TrustZone's last
      message was one of the key exchange's end. */
  lemma SentReceives(c: Ctrl)
    requires !c.off && c.out !in {SKE_SEND_TYPE_ID, SKE_SEND_EKS, REP_SEND_ACK} && NextMessage(c, Recv) > INVALID
    ensures Do(c, Sent()) == Hand(c, Recv)
  {
    PromptHand(c, Recv);
  }

  lemma RecvdSends(c: Ctrl, m: int)
    requires !c.off && c.last != REP_STREAM_READY && !(c.last == AKE_SEND_H_PRIME && c.noStoredKm)
    requires NextMessage(Digest(c.(out := m), c.last, m, false), Send) > INVALID
    ensures Do(c, Recvd(m)) == Hand(Digest(c.(out := m), c.last, m, false), Send)
  {
    PromptHand(Digest(c.(out := m), c.last, m, false), Send);
  }

  /** Authentication and key exchange: from START to the encrypted master key,
      pairing information included. */
  lemma AkePhase(c: Ctrl) returns (d: Ctrl)
    ensures d == Run(Do(c, Start), [StartAuth(Says(AKE_INIT), PROMPT), Sent(), Recvd(AKE_NO_STORED_KM), Sent(),
                                    Recvd(INVALID)])
    ensures d.trace == c.trace + [Started, Handed(AKE_INIT, Send), Handed(AKE_SEND_CERT, Recv),
                                  Handed(AKE_NO_STORED_KM, Send), Handed(AKE_SEND_H_PRIME, Recv),
                                  Handed(AKE_SEND_PAIRING_INFO, Recv)]
    ensures d.last == AKE_SEND_PAIRING_INFO && !d.off && !d.repeater
  {
    var c1 := Do(c, Start);
    var c3 := Do(Do(c1, StartAuth(Says(AKE_INIT), PROMPT)), Sent());
    CertPhase(c);
    KmPhase(c3);
    d := Do(Do(Do(c3, Recvd(AKE_NO_STORED_KM)), Sent()), Recvd(INVALID));
    RunFive(c1, StartAuth(Says(AKE_INIT), PROMPT), Sent(), Recvd(AKE_NO_STORED_KM), Sent(), Recvd(INVALID));
  }

  lemma KmPhase(c: Ctrl)
    requires c.last == AKE_SEND_CERT && !c.off && !c.repeater
    ensures var d := Do(Do(Do(c, Recvd(AKE_NO_STORED_KM)), Sent()), Recvd(INVALID));
      && d.trace == c.trace + [Handed(AKE_NO_STORED_KM, Send), Handed(AKE_SEND_H_PRIME, Recv),
                               Handed(AKE_SEND_PAIRING_INFO, Recv)]
      && d.last == AKE_SEND_PAIRING_INFO && !d.off && !d.repeater
  {
    RecvdSends(c, AKE_NO_STORED_KM);
    var c4 := Do(c, Recvd(AKE_NO_STORED_KM));
    SentReceives(c4);
    var c5 := Do(c4, Sent());
    PromptHand(Response(c5, Says(INVALID)), Recv);
  }

  lemma CertPhase(c: Ctrl)
    ensures var d := Do(Do(Do(c, Start), StartAuth(Says(AKE_INIT), PROMPT)), Sent());
      && d.trace == c.trace + [Started, Handed(AKE_INIT, Send), Handed(AKE_SEND_CERT, Recv)]
      && d.last == AKE_SEND_CERT && !d.off && !d.repeater
  {
    var c1 := Do(c, Start);
    PromptHand(Response(c1, Says(AKE_INIT)), Send);
    SentReceives(Do(c1, StartAuth(Says(AKE_INIT), PROMPT)));
  }

  /** Locality check, session key, type; then encryption is on and the link is polled. */
  lemma KeyPhase(c: Ctrl) returns (d: Ctrl)
    requires c.last == AKE_SEND_PAIRING_INFO && !c.off && !c.repeater
    ensures d == Run(c, [Recvd(LC_INIT), Sent(), Recvd(SKE_SEND_EKS), Sent(), Sent()])
    ensures d.trace == c.trace + [Handed(LC_INIT, Send), Handed(LC_SEND_L_PRIME, Recv), Handed(SKE_SEND_EKS, Send),
                                  Handed(SKE_SEND_TYPE_ID, Send), Success, Handed(SKE_SEND_TYPE_ID, Poll)]
    ensures d.authenticated && !d.off
  {
    var c2 := Do(Do(c, Recvd(LC_INIT)), Sent());
    LocalityPhase(c);
    EksPhase(c2);
    var c4 := Do(Do(c2, Recvd(SKE_SEND_EKS)), Sent());
    TypePhase(c4);
    d := Do(c4, Sent());
    RunFive(c, Recvd(LC_INIT), Sent(), Recvd(SKE_SEND_EKS), Sent(), Sent());
  }

  lemma LocalityPhase(c: Ctrl)
    requires c.last == AKE_SEND_PAIRING_INFO && !c.off && !c.repeater
    ensures var d := Do(Do(c, Recvd(LC_INIT)), Sent());
      && d.trace == c.trace + [Handed(LC_INIT, Send), Handed(LC_SEND_L_PRIME, Recv)]
      && d.last == LC_SEND_L_PRIME && !d.off && !d.repeater
  {
    RecvdSends(c, LC_INIT);
    SentReceives(Do(c, Recvd(LC_INIT)));
  }

  lemma TypePhase(c: Ctrl)
    requires c.last == SKE_SEND_TYPE_ID && c.out == SKE_SEND_TYPE_ID && !c.off && !c.repeater
    ensures var d := Do(c, Sent());
      d.trace == c.trace + [Success, Handed(SKE_SEND_TYPE_ID, Poll)] && d.authenticated && !d.off
  {
    PromptHand(Tell(c.(authenticated := true), Success), Poll);
  }

  lemma EksPhase(c: Ctrl)
    requires c.last == LC_SEND_L_PRIME && !c.off && !c.repeater
    ensures var d := Do(Do(c, Recvd(SKE_SEND_EKS)), Sent());
      && d.trace == c.trace + [Handed(SKE_SEND_EKS, Send), Handed(SKE_SEND_TYPE_ID, Send)]
      && d.last == SKE_SEND_TYPE_ID && d.out == SKE_SEND_TYPE_ID && !d.off && !d.repeater
  {
    RecvdSends(c, SKE_SEND_EKS);
    PromptHand(Do(c, Recvd(SKE_SEND_EKS)).(out := SKE_SEND_TYPE_ID), Send);
  }

  /** A repeater: its list of receivers is polled, acknowledged, the streams are managed,
      and encryption goes on when the sink has agreed. */
  lemma RepeaterPhase(c: Ctrl) returns (d: Ctrl)
    requires c.last == c.out == SKE_SEND_EKS && c.repeater && c.updateStream
    requires !c.off && !c.authenticated && !c.resendStream
    ensures d == Run(c, [Sent(), Recvd(REP_SEND_ACK), MsgSent(Says(REP_STREAM_MANAGE), PROMPT, PROMPT), Sent(),
                         Recvd(INVALID)])
    ensures d.trace == c.trace + [Handed(REP_SEND_RECV_ID_LIST, Poll), Handed(REP_SEND_ACK, Send),
                                  Handed(REP_STREAM_MANAGE, Send), Handed(REP_STREAM_READY, Recv),
                                  Success, Handed(REP_SEND_RECV_ID_LIST, Poll)]
    ensures d.authenticated && !d.off && !d.updateStream
  {
    EksOutcome(c, Says(INVALID), PROMPT, PROMPT);
    var c1 := Do(c, Sent());
    RepliesAsTold(c1, REP_SEND_ACK, false, Says(INVALID), PROMPT, PROMPT);
    var c2 := Do(c1, Recvd(REP_SEND_ACK));
    AckOutcome(c2, Says(REP_STREAM_MANAGE), PROMPT, PROMPT);
    var c3 := Do(c2, MsgSent(Says(REP_STREAM_MANAGE), PROMPT, PROMPT));
    SentAsksFor(c3, REP_STREAM_READY, Says(INVALID), PROMPT, PROMPT);
    var c4 := Do(c3, Sent());
    ReadyOutcome(c4, Says(INVALID), Says(INVALID));
    d := Do(c4, Recvd(INVALID));
    RunFive(c, Sent(), Recvd(REP_SEND_ACK), MsgSent(Says(REP_STREAM_MANAGE), PROMPT, PROMPT), Sent(), Recvd(INVALID));
  }

  // ---------- What each event leads to ----------

  /** START leaves nothing of the session before but the two resend flags. */
  lemma StartOutcome(c: Ctrl)
    ensures var d := Do(c, Start);
      && d.trace == c.trace + [Started] && d.last == INVALID && !d.off
      && !d.noStoredKm && !d.repeater && !d.updateStream && !d.authenticated
      && d.resendLc == c.resendLc && d.resendStream == c.resendStream && d.out == c.out
  {
  }

  /** The messages TrustZone may answer the sink's last one with. */
  function Answers(c: Ctrl): set<int> {
    if c.last == AKE_SEND_CERT then {AKE_NO_STORED_KM, AKE_STORED_KM}
    else if c.last == AKE_SEND_H_PRIME && !c.noStoredKm then {LC_INIT}
    else if c.last == AKE_SEND_PAIRING_INFO then {LC_INIT}
    else if c.last == LC_SEND_L_PRIME then {LC_INIT, SKE_SEND_EKS}
    else if c.last == REP_SEND_RECV_ID_LIST then {REP_SEND_ACK}
    else if c.last == REP_STREAM_READY && c.repeater then {REP_STREAM_MANAGE}
    else {}
  }

  /** The transport is handed exactly the message TrustZone answered with: the stored or
      the new master key, a locality retry or the session key, and so on. */
  lemma RepliesAsTold(c: Ctrl, out: int, repeater: bool, encrypt: Tz, w: Wait, w2: Wait)
    requires !c.off && out in Answers(c)
    ensures var d := Do(c, MsgRecvd(1, None, Tz(true, Some(out), repeater, false), encrypt, w, w2));
      && d.trace == c.trace + [Handed(out, Send)] && d.last == d.out == out && !d.off
      && d.authenticated == c.authenticated && d.resendStream == c.resendStream
      && (if out == SKE_SEND_EKS then d.repeater == repeater && d.updateStream
          else d.repeater == c.repeater && d.updateStream == c.updateStream)
  {
    var c2 := Digest(c.(out := out), c.last, out, repeater);
    AnswerIsNext(c, c2, out, repeater);
    ReplyIsWakeup(c, out, repeater, encrypt, w, w2);
    HandNoWait(c2, Send, w);
  }

  lemma ReplyIsWakeup(c: Ctrl, out: int, repeater: bool, encrypt: Tz, w: Wait, w2: Wait)
    requires !c.off && out in Answers(c)
    ensures Do(c, MsgRecvd(1, None, Tz(true, Some(out), repeater, false), encrypt, w, w2)) ==
            WakeupClient(Digest(c.(out := out), c.last, out, repeater), Send, w)
  {
    var tz := Tz(true, Some(out), repeater, false);
    assert Response(c, tz) == c.(out := out);
    assert DoMsgRecvd(c, 1, None, tz, encrypt, w, w2) == Reply(c.(out := out), c.last, out, repeater, encrypt, w, w2);
  }

  lemma AnswerIsNext(c: Ctrl, c2: Ctrl, out: int, repeater: bool)
    requires out in Answers(c) && c2 == Digest(c.(out := out), c.last, out, repeater)
    ensures NextMessage(c2, Send) == out > INVALID && !Waited(out)
  {
  }

  predicate Waited(m: int) { m == AKE_SEND_H_PRIME || m == AKE_SEND_PAIRING_INFO || m == REP_SEND_RECV_ID_LIST }

  /** Messages that no answer is waited for. */
  lemma HandNoWait(c: Ctrl, cmd: Cmd, w: Wait)
    requires cmd == Send || cmd == Recv || cmd == Poll
    requires NextMessage(c, cmd) > INVALID && !Waited(NextMessage(c, cmd))
    ensures WakeupClient(c, cmd, w) == Hand(c, cmd)
  {
  }

  /** With a new master key the sink's pairing information is received first. */
  lemma PairingOutcome(c: Ctrl, length: nat, tz: Tz, encrypt: Tz)
    requires !c.off && length > 0 && c.last == AKE_SEND_H_PRIME && c.noStoredKm && tz.ok && !tz.stop
    ensures Do(c, MsgRecvd(length, None, tz, encrypt, PROMPT, PROMPT)).trace ==
            c.trace + [Handed(AKE_SEND_PAIRING_INFO, Recv)]
  {
  }

  /** After a sent message its answer is received. */
  lemma SentAsksFor(c: Ctrl, m: int, tz: Tz, w: Wait, w2: Wait)
    requires !c.off && c.out !in {SKE_SEND_TYPE_ID, SKE_SEND_EKS, REP_SEND_ACK}
    requires || (c.last == AKE_INIT && m == AKE_SEND_CERT) || (c.last == LC_INIT && m == LC_SEND_L_PRIME)
             || (c.last == REP_STREAM_MANAGE && m == REP_STREAM_READY)
    ensures var d := Do(c, MsgSent(tz, w, w2));
      && d.trace == c.trace + [Handed(m, Recv)] && d.last == m && d.out == c.out && !d.off
      && d.repeater == c.repeater && d.authenticated == c.authenticated && d.updateStream == c.updateStream
      && d.resendStream == (c.resendStream && c.last != REP_STREAM_MANAGE)
  {
    assert DoMsgSent(c, tz, w, w2) == WakeupClient(c, Recv, w);
    HandNoWait(c, Recv, w);
  }

  /** After the session key a repeater's list is polled, a receiver is sent the type. */
  lemma EksOutcome(c: Ctrl, tz: Tz, w: Wait, w2: Wait)
    requires !c.off && c.out == c.last == SKE_SEND_EKS && !tz.stop && w == PROMPT
    ensures var d := Do(c, MsgSent(tz, w, w2));
      && d == c.(trace := d.trace, last := d.last, out := d.out)
      && d.out == (if c.repeater then c.out else SKE_SEND_TYPE_ID)
      && d.last == (if c.repeater then REP_SEND_RECV_ID_LIST else SKE_SEND_TYPE_ID)
      && d.trace == c.trace + [Handed(d.last, if c.repeater then Poll else Send)]
  {
  }

  /** After the type: success is reported exactly when encryption went on; the link is
      polled in any case. */
  lemma TypeOutcome(c: Ctrl, tz: Tz)
    requires !c.off && c.out == c.last == SKE_SEND_TYPE_ID && !c.repeater
    ensures var d := Do(c, MsgSent(tz, PROMPT, PROMPT));
      && d.trace == c.trace + (if tz.ok then [Success] else []) + [Handed(SKE_SEND_TYPE_ID, Poll)]
      && d.authenticated == (c.authenticated || tz.ok)
  {
    var c1 := Response(c, tz);
    var told := Tell(c1.(authenticated := true), Success);
    assert WakeupClient(c1.(authenticated := true), StatusSuccess, PROMPT) == told;
    HandNoWait(if tz.ok then told else c1, Poll, PROMPT);
    assert DoMsgSent(c, tz, PROMPT, PROMPT) == AfterType(c, tz, PROMPT, PROMPT);
  }

  /** After an acknowledgement the streams are managed once, then the link is polled. */
  lemma AckOutcome(c: Ctrl, tz: Tz, w: Wait, w2: Wait)
    requires !c.off && c.out == c.last == REP_SEND_ACK && c.repeater && tz.ok && !tz.stop && w == PROMPT
    ensures Do(c, MsgSent(tz, w, w2)) == if c.updateStream then Managing(c, tz) else Hand(c, Poll)
    ensures Hand(c, Poll).trace == c.trace + [Handed(REP_SEND_RECV_ID_LIST, Poll)]
  {
    PromptHand(c, Poll);
    if c.updateStream { QueryIsManaging(c, tz, w); }
  }

  /** Stream management has been sent, from TrustZone's answer. */
  function Managing(c: Ctrl, tz: Tz): Ctrl {
    c.(out := if tz.out.Some? then tz.out.value else c.out, last := REP_STREAM_MANAGE, updateStream := false,
       trace := c.trace + [Handed(REP_STREAM_MANAGE, Send)])
  }

  lemma QueryIsManaging(c: Ctrl, tz: Tz, w: Wait)
    requires !c.off && c.out == c.last == REP_SEND_ACK && c.repeater && tz.ok && !tz.stop
    ensures QueryStream(c, tz, w).(updateStream := false) == Managing(c, tz)
  {
    HandNoWait(Response(c, tz), Send, w);
  }

  /** The sink agreed to the streams: unless they changed meanwhile or the session is
      authenticated already, encryption goes on; a failure of that ends the session. */
  lemma ReadyOutcome(c: Ctrl, tz: Tz, encrypt: Tz)
    requires !c.off && c.last == REP_STREAM_READY && c.repeater && tz.ok && !tz.stop && !encrypt.stop
    requires tz.out != Some(REP_STREAM_MANAGE)
    ensures var d := Do(c, MsgRecvd(1, None, tz, encrypt, PROMPT, PROMPT));
      var due, poll := !c.resendStream && !c.authenticated, Handed(REP_SEND_RECV_ID_LIST, Poll);
      && d.trace == c.trace + (if !due then [poll] else if encrypt.ok then [Success, poll] else [poll, Failed])
      && d.authenticated == (c.authenticated || (due && encrypt.ok)) && d.off == (due && !encrypt.ok)
      && d.updateStream == c.updateStream
  {
    var c1 := Response(c, tz);
    var out := if tz.out.None? then INVALID else tz.out.value;
    assert DoMsgRecvd(c, 1, None, tz, encrypt, PROMPT, PROMPT)
        == Reply(c1, c.last, out, tz.repeater, encrypt, PROMPT, PROMPT);
    ReadyReply(c1, encrypt);
  }

  lemma ReadyReply(c: Ctrl, encrypt: Tz)
    requires !c.off && c.last == REP_STREAM_READY && c.repeater && !encrypt.stop
    ensures var d := StreamReady(c, encrypt, PROMPT, PROMPT);
      var due, poll := !c.resendStream && !c.authenticated, Handed(REP_SEND_RECV_ID_LIST, Poll);
      && d.trace == c.trace + (if !due then [poll] else if encrypt.ok then [Success, poll] else [poll, Failed])
      && d.authenticated == (c.authenticated || (due && encrypt.ok)) && d.off == (due && !encrypt.ok)
      && d.updateStream == c.updateStream
  {
    var c1 := Response(c, encrypt);
    PromptHand(c, Poll);
    PromptHand(c1, Poll);
    PromptHand(Tell(c1.(authenticated := true), Success), Poll);
  }

  /** A stream query sends stream management for a repeater that is authenticated, or
      whose acknowledgement is being sent, and does nothing otherwise. */
  lemma QueryOutcome(c: Ctrl, tz: Tz, w: Wait)
    ensures var d := QueryStream(c, tz, w);
      var asked := !c.off && c.repeater && (c.authenticated || c.out == REP_SEND_ACK);
      if asked && tz.ok && !tz.stop then
        d.trace == c.trace + [Handed(REP_STREAM_MANAGE, Send)] && d.last == REP_STREAM_MANAGE
      else d.trace == c.trace && d.last == c.last
  {
  }

  /** Changed streams: an authenticated session queries at once, another remembers to
      when stream management is under way. */
  lemma StreamsOutcome(c: Ctrl, changed: bool, tz: Tz, w: Wait)
    ensures var d := Do(c, ManageStreams(changed, tz, w));
      if changed && c.authenticated then d == QueryStream(c, tz, w)
      else d.trace == c.trace && d.last == c.last &&
           d.resendStream == (c.resendStream || (changed && c.last in {REP_STREAM_MANAGE, REP_STREAM_READY}))
  {
  }

  /** A new encryption level: a receiver is sent the type, a repeater is queried. */
  lemma LevelOutcome(c: Ctrl, tz: Tz, w: Wait)
    requires c.last in {SKE_SEND_EKS, SKE_SEND_TYPE_ID}
    ensures var d := Do(c, MinEncLevel(tz, w));
      if c.repeater then d == QueryStream(c, tz, w)
      else d.trace == if c.off || tz.stop then c.trace else c.trace + [Handed(SKE_SEND_TYPE_ID, Send)]
  {
  }

  /** A TrustZone call that fails ends a session that is not stopped, once. */
  lemma FailureOutcome(c: Ctrl, k: Command)
    requires k.InitSession? || k.StartAuth? || k.TimedOut? || (k.MsgRecvd? && k.length > 0)
    requires !k.tz.ok
    ensures var d := Do(c, k);
      d.trace == (if c.off || k.tz.stop then c.trace else c.trace + [Failed]) && (!c.off ==> d.off)
    ensures !c.off && !k.tz.stop ==> !Do(c, k).authenticated
  {
    var c1 := Response(c, k.tz);
    assert k.MsgRecvd? && !c.off ==> Do(c, k) == CleanUnlessOff(c1);
    assert k.TimedOut? && !c.off ==> Do(c, k) == CleanUnlessOff(c1);
    assert k.InitSession? || k.StartAuth? ==> Do(c, k) == Clean(c1);
  }

  /** So do a stop command, a failed transfer and a failing link. */
  lemma AbortOutcome(c: Ctrl)
    ensures var d := Do(c, Abort);
      d.trace == (if c.off then c.trace else c.trace + [Failed]) && d.off && !d.authenticated
  {
  }

  /** A stop that lands during a call is seen before anything is sent. */
  lemma StopOutcome(c: Ctrl, tz: Tz, w: Wait)
    requires tz.stop && !c.off
    ensures QueryStream(c, tz, w).trace == SendType(c, true, w).trace == DoTimedOut(c, tz, w).trace == c.trace
  {
  }

  /** The same for a reply to the sink. */
  lemma StoppedReply(c: Ctrl, length: nat, tz: Tz, encrypt: Tz, w: Wait, w2: Wait)
    requires tz.stop && !c.off && !(c.last == AKE_SEND_H_PRIME && c.noStoredKm) && c.last != REP_STREAM_READY
    ensures DoMsgRecvd(c, length, None, tz, encrypt, w, w2).trace == c.trace
  {
    var out := if tz.out.None? then INVALID else tz.out.value;
    SilentReply(Response(c, tz), c.last, out, tz.repeater, encrypt, w, w2);
  }

  lemma SilentReply(c: Ctrl, msg: int, out: int, repeater: bool, encrypt: Tz, w: Wait, w2: Wait)
    requires c.off && !(msg == AKE_SEND_H_PRIME && c.noStoredKm) && msg != REP_STREAM_READY
    ensures Reply(c, msg, out, repeater, encrypt, w, w2).trace == c.trace
  {
  }

  /** A sink that does not answer in time ends the session for exactly three messages,
      the list of receivers before authentication only; a stop does so silently. */
  lemma SilenceOutcome(c: Ctrl, cmd: Cmd, w: Wait)
    requires !c.off && NextMessage(c, cmd) > INVALID
    ensures var m, d := NextMessage(c, cmd), HandOver(c, cmd, w);
      var waits := || m == AKE_SEND_H_PRIME || m == AKE_SEND_PAIRING_INFO
                   || (m == REP_SEND_RECV_ID_LIST && !c.authenticated);
      var stopped := w.stopBefore || w.stopDuring;
      && d.trace == c.trace + [Handed(m, cmd)] + (if waits && w.timedOut && !stopped then [Failed] else [])
      && d.off == (waits && (stopped || w.timedOut)) && d.last == m
      && d.authenticated == (c.authenticated && !(waits && w.timedOut && !stopped))
  {
  }

  /** TrustZone answers a receive timeout with a locality retry. The transport is handed
      that message exactly after the pairing step or when the retry flag is up already:
      a first retry goes out as the session key message. */
  lemma RetryHandsToldIff(c: Ctrl, tz: Tz, w: Wait)
    requires !c.off && c.last in {AKE_SEND_H_PRIME, AKE_SEND_PAIRING_INFO, LC_SEND_L_PRIME}
    requires tz.ok && tz.out == Some(LC_INIT) && !tz.stop && w == PROMPT
    ensures var d := Do(c, TimedOut(tz, w));
      && |d.trace| == |c.trace| + 1 && c.trace <= d.trace && d.trace[|c.trace|].Handed?
      && (d.trace[|c.trace|] == Handed(LC_INIT, Send) <==>
            (c.last == AKE_SEND_H_PRIME ==> !c.noStoredKm) && (c.last == LC_SEND_L_PRIME ==> c.resendLc))
      && (c.last == LC_SEND_L_PRIME && !c.resendLc ==> d.trace[|c.trace|] == Handed(SKE_SEND_EKS, Send))
  {
    RetryHands(c, tz);
  }

  lemma RetryHands(c: Ctrl, tz: Tz)
    requires !c.off && NextMessage(c, Send) > INVALID && tz.ok && tz.out == Some(LC_INIT) && !tz.stop
    ensures Do(c, TimedOut(tz, PROMPT)).trace == c.trace + [Handed(NextMessage(c, Send), Send)]
  {
    var c1 := Response(c, tz);
    assert NextMessage(c1, Send) == NextMessage(c, Send);
    PromptHand(c1, Send);
  }

  lemma RunCons(c: Ctrl, k: Command, ks: seq<Command>)
    ensures Run(c, [k] + ks) == Run(Do(c, k), ks)
  {
    assert ([k] + ks)[1..] == ks;
  }

  /** Unrolls a run of five commands. */
  lemma RunFive(c: Ctrl, k1: Command, k2: Command, k3: Command, k4: Command, k5: Command)
    ensures Run(c, [k1, k2, k3, k4, k5]) == Do(Do(Do(Do(Do(c, k1), k2), k3), k4), k5)
  {
    var c1 := Do(c, k1);
    var c2 := Do(c1, k2);
    var c3 := Do(c2, k3);
    assert [k1, k2, k3, k4, k5] == [k1] + [k2, k3, k4, k5] && [k2, k3, k4, k5] == [k2] + [k3, k4, k5];
    assert [k3, k4, k5] == [k3] + [k4, k5] && [k4, k5] == [k4] + [k5] && [k5] == [k5] + [];
    RunCons(c, k1, [k2, k3, k4, k5]);
    RunCons(c1, k2, [k3, k4, k5]);
    RunCons(c2, k3, [k4, k5]);
    RunCons(c3, k4, [k5]);
    RunCons(Do(c3, k4), k5, []);
  }

  // ---------- The imperative code of the mutual recursion ----------

  /** wakeup_client, wait_for_response and clean call each other. Every round
      trip passes clean, which turns hdcp_off on before it re-enters, so the
      recursion ends; its net effect is the closed form above. */
  class Transmitter {
    var last: int
    var noStoredKm: bool
    var repeater: bool
    var updateStream: bool
    var authenticated: bool
    var resendLc: bool
    var resendStream: bool
    var off: bool
    var out: int
    ghost var trace: seq<Event>

    ghost function Now(): Ctrl reads this {
      Ctrl(last, noStoredKm, repeater, updateStream, authenticated, resendLc, resendStream, off, out, trace)
    }

    constructor ()
      ensures Now() == Registered()
    {
      last, noStoredKm, repeater, updateStream, authenticated := INVALID, false, false, false, false;
      resendLc, resendStream, off, out, trace := false, false, true, INVALID, [];
    }

    method GetNextMessage(cmd: Cmd) returns (m: int)
      modifies `resendStream
      ensures m == NextMessage(old(Now()), cmd)
      ensures resendStream == (old(resendStream) && last != REP_STREAM_MANAGE)
    {
      m := EINVAL;
      if last == INVALID { m := AKE_INIT; }
      else if last == AKE_INIT { m := AKE_SEND_CERT; }
      else if last == AKE_SEND_CERT { m := if noStoredKm then AKE_NO_STORED_KM else AKE_STORED_KM; }
      else if last == AKE_STORED_KM || last == AKE_NO_STORED_KM { m := AKE_SEND_H_PRIME; }
      else if last == AKE_SEND_H_PRIME { m := if noStoredKm then AKE_SEND_PAIRING_INFO else LC_INIT; }
      else if last == AKE_SEND_PAIRING_INFO { m := LC_INIT; }
      else if last == LC_INIT { m := LC_SEND_L_PRIME; }
      else if last == LC_SEND_L_PRIME { m := if resendLc then LC_INIT else SKE_SEND_EKS; }
      else if last in {SKE_SEND_EKS, SKE_SEND_TYPE_ID, REP_STREAM_READY, REP_SEND_ACK} {
        if (last == SKE_SEND_EKS || last == SKE_SEND_TYPE_ID) && !repeater { return SKE_SEND_TYPE_ID; }
        if !repeater { return INVALID; }
        m := if cmd == Send then REP_STREAM_MANAGE else REP_SEND_RECV_ID_LIST;
      }
      else if last == REP_SEND_RECV_ID_LIST { m := REP_SEND_ACK; }
      else if last == REP_STREAM_MANAGE {
        resendStream := false;
        m := REP_STREAM_READY;
      }
    }

    method Wakeup(cmd: Cmd, w: Wait)
      modifies this
      ensures Now() == WakeupClient(old(Now()), cmd, w)
      decreases if off then 0 else 1, 3
    {
      if cmd == NoCmd { return; }
      if cmd == Send || cmd == Recv || cmd == Poll {
        Hand(cmd, w);
      } else {
        trace := trace + [if cmd == StatusSuccess then Success else Failed];
        WaitResponse(w);
      }
    }

    method Hand(cmd: Cmd, w: Wait)
      requires cmd == Send || cmd == Recv || cmd == Poll
      modifies this
      ensures Now() == HandOver(old(Now()), cmd, w)
      decreases if off then 0 else 1, 2
    {
      last := GetNextMessage(cmd);
      if last <= INVALID {
        last := INVALID;
        return;
      }
      trace := trace + [Handed(last, cmd)];
      WaitResponse(w);
    }

    method WaitResponse(w: Wait)
      modifies this
      ensures Now() == WaitForResponse(old(Now()), w)
      decreases if off then 0 else 1, 1
    {
      var mustWait := false;
      if last == AKE_SEND_H_PRIME || last == AKE_SEND_PAIRING_INFO {
        mustWait := true;
      } else if last == REP_SEND_RECV_ID_LIST {
        mustWait := !authenticated;
      }
      if !mustWait { return; }
      if w.stopBefore { off := true; }
      if off { return; }
      if w.stopDuring { off := true; }
      if w.timedOut {
        if !off { CleanUp(w); }
      }
    }

    method CleanUp(w: Wait)
      modifies this
      ensures Now() == Clean(old(Now()))
      decreases if off then 0 else 1, 0
    {
      authenticated := false;
      var was := off;
      off := true;
      if !was { Wakeup(StatusFailed, w); }
    }

    /** A TrustZone call: an answer is left in the response buffer. */
    method AppComm(tz: Tz) returns (ok: bool)
      modifies `out, `off
      ensures ok == tz.ok && Now() == Response(old(Now()), tz)
    {
      if tz.out.Some? { out := tz.out.value; }
      StopIf(tz.stop);
      ok := tz.ok;
    }

    /** Another thread's STOP, when it lands here. */
    method StopIf(stop: bool)
      modifies `off
      ensures off == (old(off) || stop)
    {
      if stop { off := true; }
    }

    method QueryStreams(tz: Tz, w: Wait)
      modifies this
      ensures Now() == QueryStream(old(Now()), tz, w)
    {
      if off { return; }
      if !repeater { return; }
      if !authenticated && out != REP_SEND_ACK { return; }
      var ok := AppComm(tz);
      if ok && !off {
        last := REP_SEND_ACK;
        Wakeup(Send, w);
      }
    }

    method SendStreamType(stop: bool, w: Wait)
      modifies this
      ensures Now() == SendType(old(Now()), stop, w)
    {
      if off { return; }
      if repeater { return; }
      out := SKE_SEND_TYPE_ID;
      StopIf(stop);
      if !off { Wakeup(Send, w); }
    }

    method MessageSent(tz: Tz, w: Wait, w2: Wait)
      modifies this
      ensures Now() == DoMsgSent(old(Now()), tz, w, w2)
    {
      if off { return; }
      if out == SKE_SEND_TYPE_ID {
        TypeSent(tz, w, w2);
      } else if out == SKE_SEND_EKS {
        StopIf(tz.stop);
        EksSent(w);
      } else if out == REP_SEND_ACK {
        AckSent(tz, w);
      } else {
        Wakeup(Recv, w);
      }
    }

    method TypeSent(tz: Tz, w: Wait, w2: Wait)
      modifies this
      ensures Now() == AfterType(old(Now()), tz, w, w2)
    {
      var ok := AppComm(tz);
      if ok {
        authenticated := true;
        Wakeup(StatusSuccess, w);
      }
      Wakeup(Poll, w2);
    }

    method EksSent(w: Wait)
      modifies this
      ensures Now() == AfterEks(old(Now()), w)
    {
      if repeater && !off {
        Wakeup(Poll, w);
      } else {
        out := SKE_SEND_TYPE_ID;
        Wakeup(Send, w);
      }
    }

    method AckSent(tz: Tz, w: Wait)
      modifies this
      ensures Now() == AfterAck(old(Now()), tz, w)
    {
      if updateStream {
        QueryStreams(tz, w);
        updateStream := false;
      } else {
        Wakeup(Poll, w);
      }
    }

    /** The sink's answer to stream management. */
    method StreamsReady(encrypt: Tz, w: Wait, w2: Wait)
      modifies this
      ensures Now() == StreamReady(old(Now()), encrypt, w, w2)
    {
      var failed, wait := false, w;
      if !resendStream && !authenticated {
        var ok := AppComm(encrypt);
        if ok {
          authenticated := true;
          Wakeup(StatusSuccess, w);
          wait := w2;
        } else {
          failed := true;
        }
      }
      Wakeup(Poll, wait);
      if failed && !off { CleanUp(wait); }
    }

    method TakeFlags(msg: int, tzOut: int, tzRepeater: bool)
      modifies `resendLc, `noStoredKm, `repeater, `updateStream
      ensures Now() == Digest(old(Now()), msg, tzOut, tzRepeater)
    {
      resendLc := msg == LC_SEND_L_PRIME && tzOut == LC_INIT;
      noStoredKm := tzOut == AKE_NO_STORED_KM;
      if tzOut == SKE_SEND_EKS { repeater, updateStream := tzRepeater, true; }
    }

    method ReplyTo(msg: int, tzOut: int, tzRepeater: bool, encrypt: Tz, w: Wait, w2: Wait)
      modifies this
      ensures Now() == Reply(old(Now()), msg, tzOut, tzRepeater, encrypt, w, w2)
    {
      if msg == AKE_SEND_H_PRIME && noStoredKm {
        Wakeup(Recv, w);
      } else if msg == REP_STREAM_READY && tzOut != REP_STREAM_MANAGE {
        StreamsReady(encrypt, w, w2);
      } else {
        TakeFlags(msg, tzOut, tzRepeater);
        if !off { Wakeup(Send, w); }
      }
    }

    method MessageReceived(length: nat, fromSink: Option<int>, tz: Tz, encrypt: Tz, w: Wait, w2: Wait)
      modifies this
      ensures Now() == DoMsgRecvd(old(Now()), length, fromSink, tz, encrypt, w, w2)
    {
      if off { return; }
      if length == 0 { return; }
      var msg := if fromSink.Some? then fromSink.value else last;
      var ok := AppComm(tz);
      if ok {
        ReplyTo(msg, if tz.out.None? then INVALID else tz.out.value, tz.repeater, encrypt, w, w2);
      } else if !off {
        CleanUp(w);
      }
    }

    method InitTrustZone(tz: Tz, w: Wait)
      modifies this
      ensures Now() == DoInit(old(Now()), tz)
    {
      var ok := AppComm(tz);
      if !ok { CleanUp(w); }
    }

    method StartAuthentication(tz: Tz, w: Wait)
      modifies this
      ensures Now() == Do(old(Now()), StartAuth(tz, w))
    {
      var ok := AppComm(tz);
      if !ok {
        CleanUp(w);
        return;
      }
      Wakeup(Send, w);
    }

    method ReceiveTimedOut(tz: Tz, w: Wait)
      modifies this
      ensures Now() == Do(old(Now()), TimedOut(tz, w))
    {
      if off { return; }
      var ok := AppComm(tz);
      if !ok {
        if !off { CleanUp(w); }
      } else if out == LC_INIT && !off {
        Wakeup(Send, w);
      }
    }

    /** The caller's thread: START and STOP. */
    method Request(start: bool)
      modifies this
      ensures Now() == Do(old(Now()), if start then Start else StopRequest)
    {
      if start {
        noStoredKm, repeater, updateStream, authenticated, last, off := false, false, false, false, INVALID, false;
        trace := trace + [Started];
      } else {
        off := true;
      }
    }
  }
}
