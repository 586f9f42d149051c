/** The scan loop: scanning sessions of one minute are started one after
    the other for as long as each ends normally (cmd/ble2mqtt/ble2mqtt.go,
    lines 60-63 and 167-170; `Bluetooth.Scan` in bluetooth.go, lines 38-43).
    The advertisements seen inside a session are handled by `Handler.Handle`;
    here a session is reduced to the way it ended. */
module ScanLoop {
  import opened Options

  /** The ways the device's scan can end other than without error. */
  datatype ScanError = DeadlineExceeded | Canceled | DeviceFault(code: int)

  /** `Bluetooth.Scan`: the end of the one-minute deadline is reported as
      no error; any other error is passed on unchanged. */
  function SessionResult(outcome: Option<ScanError>): (r: Option<ScanError>)
    ensures r.None? <==> outcome.None? || outcome == Some(DeadlineExceeded)
    ensures r.Some? ==> r == outcome
  {
    match outcome
    case Some(e) => if e == DeadlineExceeded then None else Some(e)
    case None => None
  }

  /** After the sessions seen so far the loop is either still scanning, or
      it has stopped the process at session number `sessions` with `cause`. */
  datatype LoopState = Scanning(sessions: nat) | Terminated(sessions: nat, cause: ScanError)

  /** The loop driven by the outcomes of consecutive sessions: it restarts
      after every session that `SessionResult` reports as normal and ends
      the process at the first session that returns an error. */
  function Run(outcomes: seq<Option<ScanError>>): (s: LoopState)
    ensures s.Scanning? ==>
              s.sessions == |outcomes| &&
              forall i :: 0 <= i < |outcomes| ==> SessionResult(outcomes[i]).None?
    ensures s.Terminated? ==>
              && s.sessions < |outcomes|
              && SessionResult(outcomes[s.sessions]) == Some(s.cause)
              && s.cause != DeadlineExceeded
              && forall i :: 0 <= i < s.sessions ==> SessionResult(outcomes[i]).None?
    decreases |outcomes|
  {
    if |outcomes| == 0 then Scanning(0)
    else
      match SessionResult(outcomes[0])
      case Some(e) => Terminated(0, e)
      case None =>
        match Run(outcomes[1..])
        case Scanning(n) => Scanning(n + 1)
        case Terminated(n, e) => Terminated(n + 1, e)
  }

  /** Once the loop has stopped, later sessions never happen: the outcome of
      a run is decided by the sessions up to the fatal one. */
  lemma {:induction false} RunStopsAtFirstError(outcomes: seq<Option<ScanError>>, later: seq<Option<ScanError>>)
    requires Run(outcomes).Terminated?
    ensures Run(outcomes + later) == Run(outcomes)
    decreases |outcomes|
  {
    if SessionResult(outcomes[0]).None? {
      assert (outcomes + later)[1..] == outcomes[1..] + later;
      RunStopsAtFirstError(outcomes[1..], later);
    }
  }

  /** A session cancelled by a signal is not a deadline, so it ends the
      process through the same fatal path as a device fault. */
  lemma CancelTerminates(before: seq<Option<ScanError>>)
    requires forall i :: 0 <= i < |before| ==> before[i] == Some(DeadlineExceeded)
    ensures Run(before + [Some(Canceled)]) == Terminated(|before|, Canceled)
  {
    var all := before + [Some(Canceled)];
    assert SessionResult(all[|before|]) == Some(Canceled);
    assert forall i :: 0 <= i < |before| ==> SessionResult(all[i]).None?;
  }
}
