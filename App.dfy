/** The state held by the app's top-level component and the handlers that
    change it: signing in on mount, the playback SDK's listeners, the
    practice-set list, playing a segment with a single pending stop timer,
    and logging out.

    The component's state is one `Session` object. Time is a virtual clock
    (`clock`, the value `Date.now()` would return); requests and player calls
    are appended to `log`; `setTimeout` handles are `Timer`s in `timers`. */
module App {
  import opened Util
  import opened Decimal
  import opened Strings
  import opened BrowserStorage
  import opened SpotifyAuth
  import opened Playback

  datatype Segment = Segment(id: string, name: string, player: string, spotifyUri: string,
                             durationMs: int, startMs: int, endMs: int)

  datatype PracticeSet = PracticeSet(id: string, name: string, segments: seq<Segment>)

  /** A search result: its name, the names of its artists, its URI and its
      length. */
  datatype Track = Track(name: string, artists: seq<string>, uri: string, durationMs: int)

  /** The events the SDK player delivers to the listeners the app adds. */
  datatype PlayerEvent =
    | Ready(deviceId: string)
    | NotReady(deviceId: string)
    | InitializationError(message: string)
    | AuthenticationError(message: string)
    | AccountError(message: string)

  /** The segment `handleSelectTrack` builds at instant `now`. */
  function NewSegment(track: Track, startMs: int, endMs: int, now: int): Segment
  {
    var artists := Join(track.artists, ", ");
    Segment("s" + IntToDecimal(now), track.name + " - " + artists, artists, track.uri,
            track.durationMs, startMs, endMs)
  }

  /** `practiceSets.map(…)`: the set whose id is `id` gains `segment` at the
      end of its segments; every other set, and the order, stay as they were. */
  function AppendSegment(sets: seq<PracticeSet>, id: string, segment: Segment): (r: seq<PracticeSet>)
    ensures |r| == |sets|
    ensures forall i :: 0 <= i < |sets| && sets[i].id != id ==> r[i] == sets[i]
    ensures forall i :: 0 <= i < |sets| && sets[i].id == id ==>
      r[i] == sets[i].(segments := sets[i].segments + [segment])
  {
    if sets == [] then []
    else
      (if sets[0].id == id then [sets[0].(segments := sets[0].segments + [segment])] else [sets[0]])
      + AppendSegment(sets[1..], id, segment)
  }

  /** The number of segments over all sets. */
  function SegmentCount(sets: seq<PracticeSet>): nat
  {
    if sets == [] then 0 else |sets[0].segments| + SegmentCount(sets[1..])
  }

  /** The number of sets whose id is `id`. */
  function SetsWithId(sets: seq<PracticeSet>, id: string): nat
  {
    if sets == [] then 0 else (if sets[0].id == id then 1 else 0) + SetsWithId(sets[1..], id)
  }

  /** Adding a segment adds one segment per set carrying the selected id: one
      when the ids are distinct and the selection is listed. */
  lemma {:induction false} AppendSegmentCount(sets: seq<PracticeSet>, id: string, segment: Segment)
    ensures SegmentCount(AppendSegment(sets, id, segment)) == SegmentCount(sets) + SetsWithId(sets, id)
  {
    if sets != [] {
      AppendSegmentCount(sets[1..], id, segment);
      var r := AppendSegment(sets, id, segment);
      assert r[1..] == AppendSegment(sets[1..], id, segment);
    }
  }

  /** `clearTimeout(id)`: the timer with handle `id`, if pending, is dropped. */
  function Cancel(timers: seq<Timer>, id: nat): (r: seq<Timer>)
    ensures |r| <= |timers|
    ensures forall t :: t in r <==> t in timers && t.id != id
  {
    if timers == [] then []
    else (if timers[0].id == id then [] else [timers[0]]) + Cancel(timers[1..], id)
  }

  /** `clearTimeout` keeps the other pending timers in their order:
      cancelling from a concatenation cancels from each part in place. */
  lemma {:induction false} CancelAppend(x: seq<Timer>, y: seq<Timer>, id: nat)
    ensures Cancel(x + y, id) == Cancel(x, id) + Cancel(y, id)
  {
    if x == [] {
      assert x + y == y;
    } else {
      assert (x + y)[1..] == x[1..] + y;
      CancelAppend(x[1..], y, id);
    }
  }

  /** Clearing the handle of the one pending timer leaves none pending. */
  lemma CancelPending(timers: seq<Timer>, id: nat)
    requires |timers| <= 1 && (|timers| == 1 ==> timers[0].id == id)
    ensures Cancel(timers, id) == []
  {
    if timers != [] {
      assert timers[1..] == [];
    }
  }

  /** The store `handleLogout` leaves: the four token keys are gone and every
      other key, `practiceSets` among them, keeps its value. */
  function WithoutTokens(items: map<string, string>): (r: map<string, string>)
    ensures VerifierKey !in r && AccessTokenKey !in r && RefreshTokenKey !in r && ExpiresAtKey !in r
    ensures forall k :: k != VerifierKey && k != AccessTokenKey && k != RefreshTokenKey && k != ExpiresAtKey ==>
      (k in r <==> k in items) && (k in r ==> r[k] == items[k])
  {
    items - {VerifierKey, AccessTokenKey, RefreshTokenKey, ExpiresAtKey}
  }

  lemma RemoveEach(items: map<string, string>)
    ensures items - {AccessTokenKey} - {RefreshTokenKey} - {VerifierKey} - {ExpiresAtKey} == WithoutTokens(items)
  {
    var r := items - {AccessTokenKey} - {RefreshTokenKey} - {VerifierKey} - {ExpiresAtKey};
    assert r.Keys == WithoutTokens(items).Keys;
  }

  /** Logging out twice leaves the store as logging out once, and after it no
      stored token can be adopted. */
  lemma LogoutIdempotent(items: map<string, string>, now: int)
    ensures WithoutTokens(WithoutTokens(items)) == WithoutTokens(items)
    ensures StoredAccessToken(WithoutTokens(items), now) == None
  {
  }

  /** A request to the token endpoint that uses the refresh-token grant. */
  predicate IsRefreshRequest(e: Event)
  {
    e.TokenRequest? && ("grant_type", "refresh_token") in e.form
  }

  /** The app never refreshes: no refresh request is ever logged. */
  predicate NoRefresh(log: seq<Event>)
  {
    forall i :: 0 <= i < |log| ==> !IsRefreshRequest(log[i])
  }

  /** An authorization-code exchange is not a refresh. */
  lemma ExchangeIsNotRefresh(code: string, verifier: string)
    ensures !IsRefreshRequest(TokenRequest(ExchangeForm(code, verifier)))
  {
    var f := ExchangeForm(code, verifier);
    assert f[0].0 == "client_id" && f[1].0 == "grant_type" && f[1].1 == "authorization_code";
    assert f[2].0 == "code" && f[3].0 == "redirect_uri" && f[4].0 == "code_verifier";
    assert "grant_type" != "code" && "grant_type" != "client_id";
    assert "grant_type" != "redirect_uri" && "grant_type" != "code_verifier";
    assert "refresh_token" != "authorization_code";
  }

  class Session {
    const storage: LocalStorage
    var practiceSets: seq<PracticeSet>
    var selectedPiece: Option<PracticeSet>
    var accessToken: Option<string>
    var showSearchModal: bool
    /** Whether a `Spotify.Player` has been created (`player` is not null). */
    var hasPlayer: bool
    var activeDeviceId: Option<string>
    /** `loopTimeoutRef.current`: the handle of the last stop timer set. */
    var loopTimeout: Option<nat>
    /** The stop timers that have not fired nor been cleared. */
    var timers: seq<Timer>
    /** The handle the next `setTimeout` returns; handles start at 1. */
    var nextTimerId: nat
    var clock: int
    var log: seq<Event>

    /** At most one stop is pending; when one is, it is the one
        `loopTimeoutRef` names and it is not yet due. */
    predicate Valid()
      reads this
    {
      && nextTimerId >= 1
      && |timers| <= 1
      && (|timers| == 1 ==> loopTimeout == Some(timers[0].id) && timers[0].fireAt >= clock)
      && (loopTimeout.Some? ==> 1 <= loopTimeout.value < nextTimerId)
      && NoRefresh(log)
    }

    /** The guard of `handlePlaySegment`. */
    predicate CanPlay()
      reads this
    {
      hasPlayer && Truthy(activeDeviceId) && Truthy(accessToken)
    }

    twostate predicate LibraryUnchanged()
      reads this
    {
      practiceSets == old(practiceSets) && selectedPiece == old(selectedPiece)
      && showSearchModal == old(showSearchModal)
    }

    twostate predicate PlaybackUnchanged()
      reads this
    {
      hasPlayer == old(hasPlayer) && activeDeviceId == old(activeDeviceId)
      && loopTimeout == old(loopTimeout) && timers == old(timers)
      && nextTimerId == old(nextTimerId) && clock == old(clock)
    }

    /** The first render: the practice sets read from storage (or the
        built-in ones), nothing selected, no token, no player. */
    constructor (storage: LocalStorage, initialSets: seq<PracticeSet>, now: int)
      ensures Valid()
      ensures this.storage == storage && practiceSets == initialSets
      ensures selectedPiece == None && accessToken == None && !showSearchModal
      ensures !hasPlayer && activeDeviceId == None
      ensures loopTimeout == None && timers == [] && nextTimerId == 1
      ensures clock == now && log == []
    {
      this.storage := storage;
      practiceSets := initialSets;
      selectedPiece := None;
      accessToken := None;
      showSearchModal := false;
      hasPlayer := false;
      activeDeviceId := None;
      loopTimeout := None;
      timers := [];
      nextTimerId := 1;
      clock := now;
      log := [];
    }

    /** `handleAuth()` on mount. With a `code` in the URL the exchange's
        result, `null` included, becomes the token; otherwise a stored token
        that has not expired is adopted. No refresh is attempted. */
    method HandleAuth(urlCode: Option<string>, response: TokenResponse)
      requires Valid()
      modifies this, storage
      ensures Valid() && LibraryUnchanged() && PlaybackUnchanged()
      ensures Truthy(urlCode) ==>
        && (if Truthy(Get(old(storage.items), VerifierKey))
            then storage.items == AfterExchange(old(storage.items), response, clock)
                 && log == old(log) + [TokenRequest(ExchangeForm(urlCode.value, old(storage.items)[VerifierKey]))]
                 && accessToken == (if response.Granted? then Some(response.accessToken) else None)
            else storage.items == old(storage.items) && log == old(log) && accessToken == None)
      ensures !Truthy(urlCode) ==>
        && storage.items == old(storage.items) && log == old(log)
        && accessToken == (if StoredAccessToken(old(storage.items), clock).Some?
                           then StoredAccessToken(old(storage.items), clock) else old(accessToken))
    {
      if Truthy(urlCode) {
        var token, request := GetAccessToken(storage, urlCode.value, response, clock);
        if request.Some? {
          ExchangeIsNotRefresh(urlCode.value, old(storage.items)[VerifierKey]);
          log := log + [TokenRequest(request.value)];
        }
        accessToken := token;
      } else {
        var stored := StoredAccessToken(storage.items, clock);
        if Truthy(stored) {
          accessToken := stored;
        }
      }
    }

    /** `onSpotifyWebPlaybackSDKReady`: with a token, a player is created and
        connected; without one nothing happens. */
    method SdkReady()
      requires Valid()
      modifies this
      ensures Valid() && LibraryUnchanged()
      ensures accessToken == old(accessToken) && activeDeviceId == old(activeDeviceId)
      ensures loopTimeout == old(loopTimeout) && timers == old(timers)
      ensures nextTimerId == old(nextTimerId) && clock == old(clock)
      ensures Truthy(accessToken) ==> hasPlayer && log == old(log) + [PlayerConnect]
      ensures !Truthy(accessToken) ==> hasPlayer == old(hasPlayer) && log == old(log)
    {
      if Truthy(accessToken) {
        hasPlayer := true;
        log := log + [PlayerConnect];
      }
    }

    /** The player's listeners: `ready` records the device, an
        authentication error drops the token (the stored one stays), and
        `not_ready` and the other errors change nothing. */
    method OnPlayerEvent(e: PlayerEvent)
      requires Valid()
      modifies this
      ensures Valid() && LibraryUnchanged()
      ensures hasPlayer == old(hasPlayer) && log == old(log)
      ensures loopTimeout == old(loopTimeout) && timers == old(timers)
      ensures nextTimerId == old(nextTimerId) && clock == old(clock)
      ensures activeDeviceId == (if e.Ready? then Some(e.deviceId) else old(activeDeviceId))
      ensures accessToken == (if e.AuthenticationError? then None else old(accessToken))
    {
      match e {
        case Ready(deviceId) =>
          activeDeviceId := Some(deviceId);
        case NotReady(_) =>
        case InitializationError(_) =>
        case AuthenticationError(_) =>
          accessToken := None;
        case AccountError(_) =>
      }
    }

    /** `handleAddPiece()`: a non-empty name from the prompt appends an empty
        set with id `p<now>`; a cancelled or empty prompt changes nothing. */
    method HandleAddPiece(name: Option<string>)
      requires Valid()
      modifies this
      ensures Valid() && PlaybackUnchanged()
      ensures selectedPiece == old(selectedPiece) && showSearchModal == old(showSearchModal)
      ensures accessToken == old(accessToken) && log == old(log)
      ensures practiceSets == if Truthy(name)
        then old(practiceSets) + [PracticeSet("p" + IntToDecimal(clock), name.value, [])]
        else old(practiceSets)
    {
      if Truthy(name) {
        practiceSets := practiceSets + [PracticeSet("p" + IntToDecimal(clock), name.value, [])];
      }
    }

    /** `handleAddSegmentClick()`: the search opens only with a token and a
        selected set. */
    method HandleAddSegmentClick()
      requires Valid()
      modifies this
      ensures Valid() && PlaybackUnchanged()
      ensures practiceSets == old(practiceSets) && selectedPiece == old(selectedPiece)
      ensures accessToken == old(accessToken) && log == old(log)
      ensures showSearchModal == if Truthy(accessToken) && selectedPiece.Some? then true else old(showSearchModal)
    {
      if !Truthy(accessToken) {
        return;
      }
      if selectedPiece.None? {
        return;
      }
      showSearchModal := true;
    }

    /** `handleSelectTrack(track, start_ms, end_ms)`: the search closes; with
        a selected set, the new segment is appended to every listed set with
        the selected id and to the selected copy. */
    method HandleSelectTrack(track: Track, startMs: int, endMs: int)
      requires Valid()
      modifies this
      ensures Valid() && PlaybackUnchanged()
      ensures accessToken == old(accessToken) && log == old(log) && !showSearchModal
      ensures old(selectedPiece).None? ==> practiceSets == old(practiceSets) && selectedPiece == None
      ensures old(selectedPiece).Some? ==>
        var segment := NewSegment(track, startMs, endMs, clock);
        && segment.name == track.name + " - " + Join(track.artists, ", ")
        && practiceSets == AppendSegment(old(practiceSets), old(selectedPiece).value.id, segment)
        && selectedPiece == Some(old(selectedPiece).value.(segments := old(selectedPiece).value.segments + [segment]))
    {
      showSearchModal := false;
      if selectedPiece.None? {
        return;
      }
      var segment := NewSegment(track, startMs, endMs, clock);
      practiceSets := AppendSegment(practiceSets, selectedPiece.value.id, segment);
      selectedPiece := Some(selectedPiece.value.(segments := selectedPiece.value.segments + [segment]));
    }

    /** Clicking a listed set selects (a copy of) it. */
    method OpenPracticeSet(i: nat)
      requires Valid() && i < |practiceSets|
      modifies this
      ensures Valid() && PlaybackUnchanged()
      ensures practiceSets == old(practiceSets) && showSearchModal == old(showSearchModal)
      ensures accessToken == old(accessToken) && log == old(log)
      ensures selectedPiece == Some(practiceSets[i])
    {
      selectedPiece := Some(practiceSets[i]);
    }

    /** "Back to Practice Sets". */
    method BackToPracticeSets()
      requires Valid()
      modifies this
      ensures Valid() && PlaybackUnchanged()
      ensures practiceSets == old(practiceSets) && showSearchModal == old(showSearchModal)
      ensures accessToken == old(accessToken) && log == old(log)
      ensures selectedPiece == None
    {
      selectedPiece := None;
    }

    /** `handlePlaySegment(segment)`. Without player, device or token nothing
        is sent and the stop slot is left alone. Otherwise the transfer and
        then the play request are sent; only when both awaits complete is the
        previous stop cleared and a new one set to pause the player
        `end_ms - start_ms` after now. If either throws, the previous stop
        stays pending. */
    method HandlePlaySegment(segment: Segment, transfer: FetchOutcome, play: FetchOutcome)
      requires Valid()
      modifies this
      ensures Valid() && LibraryUnchanged()
      ensures accessToken == old(accessToken) && hasPlayer == old(hasPlayer)
      ensures activeDeviceId == old(activeDeviceId) && clock == old(clock)
      ensures !old(CanPlay()) ==>
        log == old(log) && timers == old(timers) && loopTimeout == old(loopTimeout)
        && nextTimerId == old(nextTimerId)
      ensures old(CanPlay()) ==>
        log == old(log) + SegmentRequests(accessToken.value, activeDeviceId.value,
                                          segment.spotifyUri, segment.startMs, transfer)
      ensures old(CanPlay()) && transfer.Responded? && play.Responded? ==>
        && timers == [Timer(old(nextTimerId), clock + TimeoutDelay(segment.endMs - segment.startMs))]
        && loopTimeout == Some(old(nextTimerId)) && nextTimerId == old(nextTimerId) + 1
      ensures old(CanPlay()) && !(transfer.Responded? && play.Responded?) ==>
        timers == old(timers) && loopTimeout == old(loopTimeout) && nextTimerId == old(nextTimerId)
    {
      if !hasPlayer || !Truthy(activeDeviceId) || !Truthy(accessToken) {
        return;
      }
      var newLog, completed := TransferThenPlay(log, accessToken.value, activeDeviceId.value,
                                                segment.spotifyUri, segment.startMs, transfer, play);
      assert forall i :: 0 <= i < |newLog| - |log| ==>
        !IsRefreshRequest(SegmentRequests(accessToken.value, activeDeviceId.value,
                                          segment.spotifyUri, segment.startMs, transfer)[i]);
      log := newLog;
      if !completed {
        return;
      }
      var duration := segment.endMs - segment.startMs;
      if loopTimeout.Some? {
        CancelPending(timers, loopTimeout.value);
        timers := Cancel(timers, loopTimeout.value);
      }
      timers := timers + [Timer(nextTimerId, clock + TimeoutDelay(duration))];
      loopTimeout := Some(nextTimerId);
      nextTimerId := nextTimerId + 1;
    }

    /** `dt` milliseconds pass: a stop that falls due pauses the player (its
        callback captured a non-null player) and is no longer pending;
        `loopTimeoutRef` keeps its handle. */
    method Advance(dt: nat)
      requires Valid()
      modifies this
      ensures Valid() && LibraryUnchanged()
      ensures accessToken == old(accessToken) && hasPlayer == old(hasPlayer)
      ensures activeDeviceId == old(activeDeviceId) && loopTimeout == old(loopTimeout)
      ensures nextTimerId == old(nextTimerId) && clock == old(clock) + dt
      ensures old(|timers| == 1 && timers[0].fireAt <= clock + dt) ==>
        log == old(log) + [PlayerPause(old(timers[0].fireAt))] && timers == []
      ensures !old(|timers| == 1 && timers[0].fireAt <= clock + dt) ==>
        log == old(log) && timers == old(timers)
    {
      clock := clock + dt;
      if |timers| == 1 && timers[0].fireAt <= clock {
        log := log + [PlayerPause(timers[0].fireAt)];
        timers := [];
      }
    }

    /** `handleLogout()`: the four token keys are removed, the token is
        dropped and an existing player is disconnected (it stays the player,
        and its device stays recorded). */
    method HandleLogout()
      requires Valid()
      modifies this, storage
      ensures Valid() && LibraryUnchanged() && PlaybackUnchanged()
      ensures storage.items == WithoutTokens(old(storage.items))
      ensures accessToken == None
      ensures log == old(log) + (if hasPlayer then [PlayerDisconnect] else [])
    {
      storage.RemoveItem(AccessTokenKey);
      storage.RemoveItem(RefreshTokenKey);
      storage.RemoveItem(VerifierKey);
      storage.RemoveItem(ExpiresAtKey);
      RemoveEach(old(storage.items));
      accessToken := None;
      if hasPlayer {
        log := log + [PlayerDisconnect];
      }
    }
  }

  lemma ScenarioPauses(requests: seq<Event>)
    requires Pauses(requests) == []
    ensures Pauses([PlayerConnect] + requests + requests + [PlayerPause(6000)]) == [PlayerPause(6000)]
  {
    PausesAppend([PlayerConnect], requests);
    PausesAppend([PlayerConnect] + requests, requests);
    PausesAppend([PlayerConnect] + requests + requests, [PlayerPause(6000)]);
    assert Pauses([PlayerConnect]) == [] by { assert [PlayerConnect][1..] == []; }
    assert Pauses([PlayerPause(6000)]) == [PlayerPause(6000)] by { assert [PlayerPause(6000)][1..] == []; }
  }

  /** A session opened at instant 0 with a stored token valid for an hour,
      after the SDK loaded and the player reported device `device`. */
  method ReadySession() returns (session: Session)
    ensures fresh(session) && session.Valid() && session.CanPlay()
    ensures session.accessToken == Some("token") && session.activeDeviceId == Some("device")
    ensures session.log == [PlayerConnect] && session.timers == []
    ensures session.clock == 0 && session.nextTimerId == 1
  {
    var storage := new LocalStorage(map[AccessTokenKey := "token", ExpiresAtKey := IntToDecimal(3600000)]);
    session := new Session(storage, [], 0);
    StoredTokenExpiry(storage.items, "token", 3600000, 0);
    session.HandleAuth(None, Failed);
    assert session.accessToken == Some("token") && session.log == [];
    session.SdkReady();
    session.OnPlayerEvent(Ready("device"));
  }

  /** Two segments of 5000 ms, the second started 1000 ms after the first:
      the first one's stop never fires, and the only pause comes 5000 ms
      after the second start, 6000 ms after the first. */
  method TwoSegmentsScenario() returns (pauses: seq<Event>)
    ensures pauses == [PlayerPause(6000)]
  {
    var session := ReadySession();
    var segment := Segment("s1", "A", "B", "spotify:track:t1", 300000, 0, 5000);
    var requests := SegmentRequests("token", "device", "spotify:track:t1", 0, Responded(204));
    session.HandlePlaySegment(segment, Responded(204), Responded(204));
    assert session.log == [PlayerConnect] + requests;
    assert session.timers == [Timer(1, 5000)];
    session.Advance(1000);
    assert session.timers == [Timer(1, 5000)] && session.clock == 1000;
    session.HandlePlaySegment(segment, Responded(204), Responded(204));
    var second := session.log;
    assert second == [PlayerConnect] + requests + requests;
    assert session.timers == [Timer(2, 6000)];
    session.Advance(10000);
    assert session.log == second + [PlayerPause(6000)];
    SegmentRequestsHaveNoPause("token", "device", "spotify:track:t1", 0, Responded(204));
    ScenarioPauses(requests);
    pauses := Pauses(session.log);
  }
}
