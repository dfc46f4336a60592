/** The segment editor dialog: it holds a start and an end instant within a
    track, lets the user edit either one minute or second field at a time,
    previews the range on the player and saves it.

    The repository has two versions of the dialog, and one class models
    both: `Clamping` is `src/components/SegmentDefinitionModal.jsx`, which
    normalises the seconds and clamps each endpoint against the other;
    `Unclamped` is `src/SegmentDefinitionModal.jsx`, which does neither and
    has two range sliders besides. The rest of the two files is the same.

    The player, its device and the token are the dialog's props and are
    passed to `Preview`; so is the current instant. */
module SegmentEditor {
  import opened Util
  import opened App
  import opened Playback
  import opened TimeFields

  datatype EditorVersion = Clamping | Unclamped

  class SegmentEditor {
    const version: EditorVersion
    var track: Track
    var startMs: int
    var endMs: int
    var log: seq<Event>
    /** Pause timers set by previews; none is ever cleared. */
    var previewTimers: seq<Timer>
    var nextTimerId: nat

    twostate predicate PlaybackUnchanged()
      reads this
    {
      log == old(log) && previewTimers == old(previewTimers) && nextTimerId == old(nextTimerId)
    }

    /** The dialog opens on `track`: the range is the whole track. */
    constructor (version: EditorVersion, track: Track)
      ensures this.version == version && this.track == track
      ensures startMs == 0 && endMs == track.durationMs
      ensures log == [] && previewTimers == [] && nextTimerId == 1
    {
      this.version := version;
      this.track := track;
      startMs := 0;
      endMs := track.durationMs;
      log := [];
      previewTimers := [];
      nextTimerId := 1;
    }

    /** The effect on a new `track`: the range is reset to the whole track. */
    method TrackChanged(newTrack: Track)
      modifies this
      ensures track == newTrack && startMs == 0 && endMs == newTrack.durationMs
      ensures PlaybackUnchanged()
    {
      track := newTrack;
      startMs := 0;
      endMs := newTrack.durationMs;
    }

    /** `handleStartTimeChange(unit, value)`. The clamping version carries
        the seconds and never lets the start pass the end; the unclamped one
        stores the edited instant as it is. */
    method StartTimeChange(unit: TimeUnit, value: int)
      modifies this
      ensures track == old(track) && endMs == old(endMs) && PlaybackUnchanged()
      ensures version == Clamping ==>
        startMs == Min(EditedMs(old(startMs), unit, value), endMs) && startMs <= endMs
      ensures version == Unclamped ==> startMs == EditedMs(old(startMs), unit, value)
    {
      if version == Clamping {
        var newMinutes := MinutesField(startMs);
        var newSeconds := SecondsField(startMs);
        if unit == Minutes {
          newMinutes := Reparse(value);
        } else {
          newSeconds := Reparse(value);
          newMinutes, newSeconds := CarrySeconds(newMinutes, newSeconds);
        }
        var newTotalMs := Recombine(newMinutes, newSeconds);
        startMs := Min(newTotalMs, endMs);
      } else {
        var newMs := 0;
        if unit == Minutes {
          newMs := Recombine(value, SecondsField(startMs));
        } else {
          newMs := Recombine(MinutesField(startMs), value);
        }
        startMs := newMs;
      }
    }

    /** `handleEndTimeChange(unit, value)`: as for the start, with the end
        never falling below the start in the clamping version. */
    method EndTimeChange(unit: TimeUnit, value: int)
      modifies this
      ensures track == old(track) && startMs == old(startMs) && PlaybackUnchanged()
      ensures version == Clamping ==>
        endMs == Max(EditedMs(old(endMs), unit, value), startMs) && startMs <= endMs
      ensures version == Unclamped ==> endMs == EditedMs(old(endMs), unit, value)
    {
      if version == Clamping {
        var newMinutes := MinutesField(endMs);
        var newSeconds := SecondsField(endMs);
        if unit == Minutes {
          newMinutes := Reparse(value);
        } else {
          newSeconds := Reparse(value);
          newMinutes, newSeconds := CarrySeconds(newMinutes, newSeconds);
        }
        var newTotalMs := Recombine(newMinutes, newSeconds);
        endMs := Max(newTotalMs, startMs);
      } else {
        var newMs := 0;
        if unit == Minutes {
          newMs := Recombine(value, SecondsField(endMs));
        } else {
          newMs := Recombine(MinutesField(endMs), value);
        }
        endMs := newMs;
      }
    }

    /** The start slider of the unclamped version: the start becomes the
        slider's position, whatever the end is. */
    method StartSliderChange(position: int)
      requires version == Unclamped
      modifies this
      ensures startMs == position && track == old(track) && endMs == old(endMs) && PlaybackUnchanged()
    {
      startMs := position;
    }

    /** The end slider of the unclamped version. */
    method EndSliderChange(position: int)
      requires version == Unclamped
      modifies this
      ensures endMs == position && track == old(track) && startMs == old(startMs) && PlaybackUnchanged()
    {
      endMs := position;
    }

    /** `handleSave()`: `Saved` means `onSaveSegment(track, startMs, endMs)`
        and then `onClose()` were called; a rejection calls neither. */
    method Save() returns (outcome: SaveOutcome)
      ensures outcome == CheckSave(startMs, endMs, track.durationMs)
      ensures outcome.Saved? <==> startMs < endMs <= track.durationMs
    {
      outcome := CheckSave(startMs, endMs, track.durationMs);
    }

    /** `handlePreviewSegment()`. Without player, device or token, or with an
        empty or reversed range, nothing is sent. Otherwise transfer then
        play at the start; once both complete a pause timer is added for
        `endMs - startMs` from `now`, as `setTimeout` converts that delay,
        and earlier ones stay pending. */
    method Preview(hasPlayer: bool, activeDeviceId: Option<string>, accessToken: Option<string>,
                   now: int, transfer: FetchOutcome, play: FetchOutcome)
      modifies this
      ensures track == old(track) && startMs == old(startMs) && endMs == old(endMs)
      ensures !(hasPlayer && Truthy(activeDeviceId) && Truthy(accessToken)) || startMs >= endMs ==>
        PlaybackUnchanged()
      ensures hasPlayer && Truthy(activeDeviceId) && Truthy(accessToken) && startMs < endMs ==>
        && log == old(log) + SegmentRequests(accessToken.value, activeDeviceId.value, track.uri, startMs, transfer)
        && (if transfer.Responded? && play.Responded?
            then previewTimers == old(previewTimers) + [Timer(old(nextTimerId), now + TimeoutDelay(endMs - startMs))]
                 && nextTimerId == old(nextTimerId) + 1
            else previewTimers == old(previewTimers) && nextTimerId == old(nextTimerId))
    {
      if !hasPlayer || !Truthy(activeDeviceId) || !Truthy(accessToken) {
        return;
      }
      if startMs >= endMs {
        return;
      }
      var newLog, completed := TransferThenPlay(log, accessToken.value, activeDeviceId.value,
                                                track.uri, startMs, transfer, play);
      log := newLog;
      if completed {
        var duration := endMs - startMs;
        previewTimers := previewTimers + [Timer(nextTimerId, now + TimeoutDelay(duration))];
        nextTimerId := nextTimerId + 1;
      }
    }
  }

  /** The two versions on the same edit: a 30-second range at the start of
      a track, and the start's minutes set to 1. The clamping version stops
      the start at the end; the unclamped one puts it after the end. */
  method VersionsDiffer() returns (clamped: int, unclamped: int)
    ensures clamped == 30000 && unclamped == 60000
  {
    var track := Track("t", ["a"], "spotify:track:t", 30000);
    var a := new SegmentEditor(Clamping, track);
    var b := new SegmentEditor(Unclamped, track);
    a.StartTimeChange(Minutes, 1);
    b.StartTimeChange(Minutes, 1);
    FieldsOfInstant(0);
    clamped, unclamped := a.startMs, b.startMs;
  }
}
