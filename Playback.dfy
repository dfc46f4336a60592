/** What the app asks of Spotify's Web API and of the Web Playback SDK player
    when it plays a stretch of a track: transfer playback to the browser's
    device, then start the track at a position, then pause it later from a
    timer. Requests are recorded as events; the outcome of each `fetch` is
    passed in. */
module Playback {
  import opened Util

  /** What one awaited `fetch` did: it produced a response (whatever its
      status, which is never read), or it threw. */
  datatype FetchOutcome = Responded(status: int) | Threw

  /** A recorded side effect. */
  datatype Event =
      /** `POST` to the token endpoint with this form body. */
    | TokenRequest(form: seq<(string, string)>)
      /** `PUT /v1/me/player` with `{device_ids, play}`. */
    | TransferRequest(bearer: string, deviceIds: seq<string>, play: bool)
      /** `PUT /v1/me/player/play?device_id=…` with `{uris, position_ms}`. */
    | PlayRequest(bearer: string, deviceId: string, uris: seq<string>, positionMs: int)
    | PlayerConnect
    | PlayerDisconnect
      /** `player.pause()`, called by a timer that fired at instant `at`. */
    | PlayerPause(at: int)

  /** A pending `setTimeout`: its handle and the instant it fires. */
  datatype Timer = Timer(id: nat, fireAt: int)

  /** The delay `setTimeout` actually waits. The `timeout` argument is a
      WebIDL `long` (section 3.2.4.7 of the WebIDL standard): it is taken
      modulo 2^32 into the signed 32-bit range, and a result below 0 then
      counts as 0 (step 4 of the timer initialisation steps of the HTML
      standard). A delay of 2^31 ms or more thus wraps, and one in
      2^31 .. 2^32 - 1 fires at once. */
  function TimeoutDelay(delay: int): (d: nat)
    ensures d < 0x8000_0000
    ensures 0 <= delay < 0x8000_0000 ==> d == delay
    ensures -0x8000_0000 <= delay < 0 ==> d == 0
    ensures 0x8000_0000 <= delay < 0x1_0000_0000 ==> d == 0
    ensures d == 0 || (delay - d) % 0x1_0000_0000 == 0
  {
    var w := delay % 0x1_0000_0000;
    Max(if w >= 0x8000_0000 then w - 0x1_0000_0000 else w, 0)
  }

  /** The requests of one transfer-then-play sequence: the transfer always
      goes out first, and the play request follows exactly when the
      transfer did not throw. A response with an error status does not stop
      the sequence. */
  function SegmentRequests(bearer: string, deviceId: string, uri: string, positionMs: int,
                           transfer: FetchOutcome): (r: seq<Event>)
    ensures 1 <= |r| <= 2
    ensures r[0] == TransferRequest(bearer, [deviceId], false)
    ensures |r| == 2 <==> transfer.Responded?
    ensures |r| == 2 ==> r[1] == PlayRequest(bearer, deviceId, [uri], positionMs)
  {
    match transfer
    case Threw => [TransferRequest(bearer, [deviceId], false)]
    case Responded(_) =>
      [TransferRequest(bearer, [deviceId], false), PlayRequest(bearer, deviceId, [uri], positionMs)]
  }

  /** The two awaited requests inside a `try`: the log gains the requests
      that were issued, and `completed` says whether control reached the
      statement after the second `await` (it did not if either threw). */
  method TransferThenPlay(log: seq<Event>, bearer: string, deviceId: string, uri: string, positionMs: int,
                          transfer: FetchOutcome, play: FetchOutcome)
    returns (newLog: seq<Event>, completed: bool)
    ensures newLog == log + SegmentRequests(bearer, deviceId, uri, positionMs, transfer)
    ensures completed <==> transfer.Responded? && play.Responded?
  {
    newLog := log + [TransferRequest(bearer, [deviceId], false)];
    if transfer.Threw? {
      return newLog, false;
    }
    newLog := newLog + [PlayRequest(bearer, deviceId, [uri], positionMs)];
    completed := play.Responded?;
  }

  /** The pause events in a log, in order. */
  function Pauses(log: seq<Event>): (r: seq<Event>)
    ensures |r| <= |log|
    ensures forall e :: e in r ==> e.PlayerPause? && e in log
  {
    if log == [] then []
    else (if log[0].PlayerPause? then [log[0]] else []) + Pauses(log[1..])
  }

  lemma {:induction false} PausesAppend(x: seq<Event>, y: seq<Event>)
    ensures Pauses(x + y) == Pauses(x) + Pauses(y)
  {
    if x == [] {
      assert x + y == y;
    } else {
      assert (x + y)[1..] == x[1..] + y;
      PausesAppend(x[1..], y);
    }
  }

  /** The requests of a transfer-then-play sequence hold no pause. */
  lemma SegmentRequestsHaveNoPause(bearer: string, deviceId: string, uri: string, positionMs: int,
                                   transfer: FetchOutcome)
    ensures Pauses(SegmentRequests(bearer, deviceId, uri, positionMs, transfer)) == []
  {
    var t := TransferRequest(bearer, [deviceId], false);
    var p := PlayRequest(bearer, deviceId, [uri], positionMs);
    assert Pauses([t]) == [] by { assert [t][1..] == []; }
    assert Pauses([t, p]) == [] by { assert [t, p][1..] == [p]; assert [p][1..] == []; }
  }
}
