# Messa di Voce: a verified model of its sign-in, playback and editor logic

Messa di Voce is a small React app for practising music against Spotify
recordings. A user signs in with Spotify, keeps practice sets of segments
(each segment is a start and an end instant within a track), plays a segment
on the browser's Web Playback SDK device and has it stopped automatically,
and defines segments in an editor dialog that works in minutes and seconds.

This Dafny project models the logic under that:

- **Sign-in and the token store** (`src/spotifyAuth.js`).
  - The authorization-code grant with PKCE: the verifier drawn from a
    62-character alphabet, and the S256 challenge, which is the base64url
    of SHA-256 without padding (section 4.2 of RFC 7636).
  - The authorization request, the code exchange (section 4.1.3 of RFC
    6749) and the refresh (section 6 of RFC 6749).
  - The read-back of an unexpired token.
  - The store is `localStorage`, modelled as a class over a string map.
  - The base64 alphabet, the `btoa` padding and the `+ / =` rewrite are
    modelled with the exact characters of sections 4 and 5 of RFC 4648.
    The rewrite is proved equal to unpadded base64url, and that encoding is
    proved to decode back.
- **The app component** (`src/App.jsx`).
  - One `Session` object holds the component's state.
  - Handlers:
    - signing in on mount;
    - the SDK listeners;
    - adding a practice set;
    - opening the search;
    - adding a segment;
    - playing a segment;
    - logging out.
  - Requests and player calls are recorded as events.
  - Time is a virtual clock, and the single stop slot is `loopTimeout` with
    its pending `Timer`.
- **The segment editor**, in both of its versions.
  - `src/components/SegmentDefinitionModal.jsx` normalises seconds and
    clamps each endpoint against the other.
  - `src/SegmentDefinitionModal.jsx` does neither and has two sliders.
  - One class models both, with a `version` constant. The integer
    arithmetic of the fields, the save check and `M:SS` formatting is in
    `TimeFields`.
- **The piece list** (`src/app/components/PieceList.tsx`): counter-numbered
  append, delete by id and a toggled selection. The counter is module
  state shared by every mount of the list, so it is an object of its own.

Modules, in dependency order:

| module | what it holds |
|---|---|
| `Util` | `Option`, JavaScript truthiness of a nullable string, `Math.floor` of a quotient, JavaScript's truncating `%` |
| `Decimal` | `String(n)` and `parseInt(s, 10)` on integers, and their round trip |
| `Strings` | `replace(/c/g, r)` for one character, `join` |
| `Base64` | RFC 4648 base64 (`btoa`) and base64url, the rewrite chain, decoding |
| `WebEncoding` | `TextEncoder` (UTF-8) and the `URLSearchParams` serializer |
| `BrowserStorage` | `localStorage` |
| `SpotifyAuth` | `src/spotifyAuth.js` |
| `Playback` | request events, the transfer-then-play sequence, timers |
| `App` | `src/App.jsx` |
| `TimeFields` | the editors' time arithmetic, save check and formatting |
| `SegmentEditor` | both editor dialogs |
| `PieceList` | `src/app/components/PieceList.tsx` |

Some things the code calls are not modelled and become inputs instead:

- SHA-256 is a parameter `sha256: seq<byte> -> Digest`, a function to 32
  bytes.
- `Math.random()` is a sequence of alphabet indices in `0..61`.
- `Date.now()` is an explicit instant (`now`, or the session's `clock`).
- Each `fetch` is an outcome passed in:
  - a token response is `Granted` with its fields, `Rejected` with its
    status, or `Failed` when it threw;
  - a player request either `Responded` with some status or `Threw`.

### What the code does not do

The code has none of the following, and the model follows it:

- There is no single-flight refresh. Nothing calls `refreshAccessToken` at
  all: `App.jsx` does not import it, and `Session.Valid` keeps "no refresh
  request logged" as an invariant.
- There is no expiry safety margin. A stored token is returned exactly while
  `now < expires_at`.
- The verifier stays in storage after the exchange.
- A failed refresh clears nothing.
- The transfer and play responses are never checked for status. Only a
  thrown `fetch` stops the sequence.
- The previous stop timer is cleared only after both requests complete. When
  either request throws, the old stop stays pending.
- `not_ready` leaves the device id in place.
- Playing a segment performs no range check, and no stop delay is checked
  against the `setTimeout` limit. `setTimeout` converts its delay as a
  WebIDL `long` and then clamps it at 0:
  - a delay in `-2^31 .. -1` counts as 0, so a reversed range up to 2^31 ms
    long gets a zero-delay stop;
  - a delay in `2^31 .. 2^32 - 1` fires at once;
  - any other delay is reduced modulo 2^32 into the signed 32-bit range and
    then clamped at 0.
  Saving rejects an end beyond the track, so an editor range of 2^31 ms or
  more reaches `setTimeout` only through the preview, or through a saved
  segment of a track that long.
- The clamping editor lets a negative start through `handleSave`.

The 62-character alphabet of `generateRandomString` is written as three
concatenated constants. The string is the same one the source uses.

## Model

| member | source | states |
|---|---|---|
| `SpotifyAuth.PossibleIsAlphanumeric` | src/spotifyAuth.js:8 | the alphabet has 62 characters, each an ASCII letter or digit, so each is an unreserved character of section 4.1 of RFC 7636 |
| `SpotifyAuth.GenerateRandomString` | src/spotifyAuth.js:6-13 | the text has exactly `length` characters; the i-th is the alphabet character at the i-th random index; every one is alphanumeric |
| `SpotifyAuth.GenerateCodeChallenge` | src/spotifyAuth.js:16-22 | the challenge is the unpadded base64url of SHA-256 of the verifier's UTF-8 bytes; it has 43 characters, all URL-safe, and none is `+`, `/` or `=` |
| `Base64.UrlSafeRewrite` | src/spotifyAuth.js:19-21 | after the three replacements no `+`, `/` or `=` is left |
| `Base64.RewriteIsBase64Url` | src/spotifyAuth.js:18-21 | for every byte string, the rewrite of `btoa`'s padded standard base64 is exactly the unpadded base64url of the same bytes (sections 4 and 5 of RFC 4648) |
| `Base64.Base64UrlLength` | src/spotifyAuth.js:18-21 | unpadded base64url of n bytes has `(4n + 2) / 3` characters |
| `Base64.Base64UrlAlphabet` | src/spotifyAuth.js:18-21 | every character of unpadded base64url is in the URL-safe alphabet |
| `Base64.DecodeEncode` | src/spotifyAuth.js:18-21 | decoding unpadded base64url gives back the bytes, so the challenge determines the digest |
| `Base64.ChallengeOfDigest` | src/spotifyAuth.js:17-21 | a 32-byte digest gives 43 URL-safe characters without `+ / =`, which decode back to the digest |
| `WebEncoding.Utf8OfAscii` | src/spotifyAuth.js:17 | `TextEncoder` turns an ASCII verifier into one byte per character, its code |
| `WebEncoding.FormEncodeUrlSafe` | src/spotifyAuth.js:31-39 | the form serializer leaves every URL-safe base64 string unchanged, so the challenge appears verbatim in the authorization URL |
| `SpotifyAuth.RedirectToAuthCodeFlow` | src/spotifyAuth.js:24-42 | stores the verifier under `spotify_code_verifier` and changes no other key; the verifier is 128 characters and a valid RFC 7636 verifier; the query is exactly the six parameters in source order, ending with the verifier's challenge; the URL is the authorize endpoint, `?`, and the serialized query |
| `SpotifyAuth.GetAccessToken` | src/spotifyAuth.js:44-85 | without a truthy stored verifier: no request, `null`, store unchanged; otherwise the exchange form is sent with the stored verifier, a granted response stores access token, refresh token and `now + expires_in * 1000` and returns the access token, a rejected or failed one returns `null` and writes nothing; the verifier is kept |
| `SpotifyAuth.RefreshAccessToken` | src/spotifyAuth.js:87-124 | without a truthy refresh token: no request and `null`; otherwise the refresh form is sent, a granted response overwrites access token and expiry only, a rejected or failed one leaves the store unchanged; the refresh token is never changed |
| `SpotifyAuth.StoredAccessToken` | src/spotifyAuth.js:126-143 | returns `null` when either key is missing or empty; a returned token is the stored non-empty access token and `now` is strictly before the parsed expiry |
| `SpotifyAuth.StoredTokenExpiry` | src/spotifyAuth.js:132-142 | with expiry text `String(x)`, the token is returned at every instant before `x` and at none from `x` on |
| `SpotifyAuth.StoredTokenStaysExpired` | src/spotifyAuth.js:136-141 | once a stored token reads as expired it reads as expired at every later instant |
| `SpotifyAuth.ExchangeThenStored` | src/spotifyAuth.js:76-80 | after a granted exchange at `now`, the stored token is readable exactly while it is non-empty and before `now + expires_in * 1000` |
| `SpotifyAuth.RefreshThenStored` | src/spotifyAuth.js:114-119 | after a granted refresh the refresh token is as before and the new token is readable exactly while non-empty and before `now + expires_in * 1000` |
| `Decimal.ParseIntOfDecimal` | src/spotifyAuth.js:136 | `parseInt(String(i), 10)` is `i` for every integer, so the stored expiry reads back as written |
| `BrowserStorage.Get` | src/spotifyAuth.js:45 | `getItem` gives a value exactly when the key is present, and then its stored value |
| `BrowserStorage.LocalStorage.SetItem` | src/spotifyAuth.js:28 | the key maps to the value and every other key is unchanged |
| `BrowserStorage.LocalStorage.RemoveItem` | src/App.jsx:277-280 | the key is gone and every other key is unchanged |
| `App.Session.constructor` | src/App.jsx:29-63 | the first render: the given practice sets, nothing selected, no token, no player or device, no stop pending, empty log |
| `App.Session.HandleAuth` | src/App.jsx:66-86 | with a truthy URL code the exchange's result, `null` included, becomes the token, and the exchange request is logged only if a verifier was stored; without one a stored unexpired token is adopted and the store is untouched; no refresh is ever requested |
| `App.ExchangeIsNotRefresh` | src/App.jsx:20 | the exchange form carries no refresh-token grant, so mounting keeps the no-refresh invariant |
| `App.Session.SdkReady` | src/App.jsx:90-129 | with a truthy token a player is created and connected; without one nothing changes |
| `App.Session.OnPlayerEvent` | src/App.jsx:99-121 | `ready` records its device id; `authentication_error` drops the in-memory token only; `not_ready` and the other errors change nothing |
| `App.Session.HandleAddPiece` | src/App.jsx:162-167 | a truthy prompt answer appends one empty set with id `p<now>` and that name; `null` or `""` changes nothing |
| `App.Session.HandleAddSegmentClick` | src/App.jsx:173-183 | the search opens exactly when there is a token and a selected set |
| `App.Session.HandleSelectTrack` | src/App.jsx:192-213 | closes the search; without a selection nothing else changes; otherwise the segment named `name - artists joined by ", "` is appended to each listed set with the selected id and to the selected copy |
| `App.AppendSegment` | src/App.jsx:202-206 | same length and order; a set with the id gains the segment at the end of its segments; every other set is unchanged |
| `App.AppendSegmentCount` | src/App.jsx:202-206 | the segment total grows by the number of sets carrying the id |
| `App.Session.OpenPracticeSet` | src/App.jsx:330 | a click selects the listed set |
| `App.Session.BackToPracticeSets` | src/App.jsx:340 | the selection is cleared |
| `App.Session.HandlePlaySegment` | src/App.jsx:220-270 | without player, device or token: nothing is sent and the stop slot is untouched; otherwise transfer then play are logged; if both complete, the only pending stop is a new one `end_ms - start_ms` from now, as `TimeoutDelay` converts it (a delay in `-2^31 .. -1` or `2^31 .. 2^32 - 1` counts as 0; any other is reduced modulo 2^32 into the signed 32-bit range, then clamped at 0) and the slot names it; if either throws, the previous stop and slot stay as they were |
| `Playback.SegmentRequests` | src/App.jsx:228-251 | the transfer `{device_ids: [device], play: false}` always goes first; the play request `{uris: [uri], position_ms}` follows exactly when the transfer did not throw |
| `Playback.TransferThenPlay` | src/App.jsx:226-251 | the log gains those requests, and control reaches the code after the awaits exactly when neither request threw |
| `Playback.TimeoutDelay` | src/App.jsx:258-262 | the WebIDL `long` conversion and the clamp at 0: the waited delay is below 2^31 and agrees with the delay modulo 2^32 unless it is 0; a delay in `0 .. 2^31 - 1` is kept, a negative one down to `-2^31` and one in `2^31 .. 2^32 - 1` count as 0 |
| `App.Cancel` | src/App.jsx:255-257 | `clearTimeout` keeps exactly the pending timers with another handle, and the list never grows |
| `App.CancelAppend` | src/App.jsx:255-257 | `clearTimeout` keeps the other pending timers in their order: cancelling from a concatenation cancels from each part in place |
| `App.CancelPending` | src/App.jsx:255-262 | clearing the slot's handle while at most that timer is pending leaves none pending, so at most one of the session's stops is pending; preview pauses of the editor are separate timers |
| `App.Session.Advance` | src/App.jsx:258-262 | a stop that falls due logs one pause at its instant and stops being pending; the slot keeps its handle |
| `App.Session.HandleLogout` | src/App.jsx:276-285 | removes exactly the four `spotify_*` keys, drops the token and, with a player, logs a disconnect; everything else is unchanged |
| `App.WithoutTokens` | src/App.jsx:277-280 | the four token keys are absent and every other key, `practiceSets` included, keeps its value |
| `App.LogoutIdempotent` | src/App.jsx:276-285 | logging out again leaves the store as it was, and no stored token can be adopted afterwards |
| `App.TwoSegmentsScenario` | src/App.jsx:220-262 | playing two 5000 ms segments 1000 ms apart gives one pause only, at 6000 ms: the first stop never fires (with no editor preview pending) |
| `SegmentEditor.SegmentEditor.constructor` | src/components/SegmentDefinitionModal.jsx:19-33 | the dialog opens with the range `0 .. duration_ms` of its track and nothing sent |
| `SegmentEditor.SegmentEditor.TrackChanged` | src/components/SegmentDefinitionModal.jsx:29-33 | a new track resets the range to `0 .. duration_ms` (the same effect is at src/SegmentDefinitionModal.jsx lines 133-136) |
| `SegmentEditor.SegmentEditor.StartTimeChange` | src/components/SegmentDefinitionModal.jsx:135-156 | clamping: the start becomes the edited instant capped at the end, so it never passes the end; unclamped (src/SegmentDefinitionModal.jsx lines 229-237): the start becomes the edited instant, whatever the end |
| `SegmentEditor.SegmentEditor.EndTimeChange` | src/components/SegmentDefinitionModal.jsx:163-184 | clamping: the end becomes the edited instant raised to the start, so it never falls below the start; unclamped (src/SegmentDefinitionModal.jsx lines 239-247): the edited instant as it is |
| `SegmentEditor.SegmentEditor.StartSliderChange` | src/SegmentDefinitionModal.jsx:218-221 | the start becomes the slider position, with no check against the end |
| `SegmentEditor.SegmentEditor.EndSliderChange` | src/SegmentDefinitionModal.jsx:223-226 | the end becomes the slider position, with no check against the start |
| `SegmentEditor.SegmentEditor.Save` | src/components/SegmentDefinitionModal.jsx:114-126 | saves (and closes) exactly when `start < end <= duration_ms`, passing the exact range; otherwise the first failing check is reported (the same code is at src/SegmentDefinitionModal.jsx lines 204-216) |
| `TimeFields.CheckSave` | src/SegmentDefinitionModal.jsx:204-216 | `Saved` iff `start < end <= duration`, with the exact values; the order rejection iff `start >= end`; the track rejection iff the order is right and `end > duration` |
| `SegmentEditor.SegmentEditor.Preview` | src/components/SegmentDefinitionModal.jsx:58-108 | without player, device or token, or with `start >= end`, nothing is sent; otherwise transfer then play at the start are logged and, when both complete, a pause timer is appended `end - start` from now, as `TimeoutDelay` converts it, with earlier ones still pending (the same code is at src/SegmentDefinitionModal.jsx lines 154-202) |
| `SegmentEditor.VersionsDiffer` | src/SegmentDefinitionModal.jsx:229-237 | on a 30 s range, setting the start's minutes to 1 gives 30000 in the clamping version and 60000, past the end, in the unclamped one |
| `TimeFields.UnclampedStartCanPassEnd` | src/SegmentDefinitionModal.jsx:229-237 | from any valid range, a minutes edit of the start to one more than the end's minutes puts the start after the end |
| `TimeFields.CarrySeconds` | src/components/SegmentDefinitionModal.jsx:141-153 | the seconds end in `0..59`, the minutes gain the floor of `seconds / 60`, and `minutes * 60 + seconds` is unchanged |
| `TimeFields.CarryKeepsInstant` | src/components/SegmentDefinitionModal.jsx:145-154 | the carry never changes the recombined instant, so both versions compute the same instant before clamping |
| `TimeFields.Reparse` | src/components/SegmentDefinitionModal.jsx:142-144 | `parseInt(value, 10)`, with 0 for a falsy result, of an integer already parsed is that integer |
| `TimeFields.EditMinutesKeepsSeconds` | src/components/SegmentDefinitionModal.jsx:136-154 | a minutes edit shows the new minutes and keeps the seconds field; re-entering the current minutes drops the sub-second part of the instant |
| `TimeFields.EditSecondsCarries` | src/components/SegmentDefinitionModal.jsx:143-154 | a seconds edit keeps the minutes plus the carry of the input and shows the input modulo 60 |
| `TimeFields.EditedWholeSecond` | src/components/SegmentDefinitionModal.jsx:154 | every edited instant is a whole number of seconds |
| `TimeFields.FieldsOfInstant` | src/components/SegmentDefinitionModal.jsx:187-190 | for a non-negative instant the fields are whole minutes and the seconds left over, seconds in `0..59`, and they recombine to the instant less its milliseconds (the same fields are at src/SegmentDefinitionModal.jsx lines 249-252) |
| `TimeFields.FieldsOfNegativeInstant` | src/SegmentDefinitionModal.jsx:249-252 | for a negative instant the minutes field is negative and the seconds field lies in `-60..0`, because `%` truncates |
| `TimeFields.FormatDurationShape` | src/components/SegmentDefinitionModal.jsx:48-53 | for a non-negative instant the text is the whole minutes, `:`, and exactly two digits of the remaining seconds (the same function is at src/SegmentDefinitionModal.jsx lines 147-152) |
| `TimeFields.FormatDurationRoundTrip` | src/SegmentDefinitionModal.jsx:147-152 | reading the text back gives the instant's whole seconds |
| `PieceList.PieceCounter.constructor` | src/app/components/PieceList.tsx:10 | the module-level counter starts at the number of built-in pieces, with nothing issued |
| `PieceList.PieceCounter.Next` | src/app/components/PieceList.tsx:17 | `pieceCounter++`: the counter grows by one, the new value is returned and recorded as issued, and the issued values keep increasing |
| `PieceList.PieceList.constructor` | src/app/components/PieceList.tsx:12-14 | a mount starts from the initial pieces with nothing selected and shares the given counter, which it leaves as it is |
| `PieceList.PieceList.AddPiece` | src/app/components/PieceList.tsx:16-24 | the shared counter grows by exactly one, and one piece `piece-<counter>` / `New Piece <counter>` with no performances is appended after the unchanged pieces |
| `PieceList.PieceIdInjective` | src/app/components/PieceList.tsx:19 | different counter values give different ids |
| `PieceList.DistinctIds` | src/app/components/PieceList.tsx:17-19 | strictly increasing counter values give pairwise distinct ids |
| `PieceList.IssuedIdsDistinct` | src/app/components/PieceList.tsx:10-24 | every id `addPiece` has handed out through the shared counter, over all mounts, differs from every other |
| `PieceList.RemountScenario` | src/app/components/PieceList.tsx:10-24 | with three built-in pieces, an add gives `piece-4`; after a remount the list is the built-in pieces again and the next add gives `piece-5` |
| `PieceList.WithoutPiece` | src/app/components/PieceList.tsx:27 | a piece remains exactly when it was listed and has another id |
| `PieceList.WithoutPieceAppend` | src/app/components/PieceList.tsx:27 | the filter keeps the original order |
| `PieceList.WithoutAbsentPiece` | src/app/components/PieceList.tsx:27 | deleting an id no piece has changes nothing |
| `PieceList.PieceList.DeletePiece` | src/app/components/PieceList.tsx:26-31 | the pieces are filtered by id, and the selection is cleared exactly when its id is the deleted one |
| `PieceList.Toggle` | src/app/components/PieceList.tsx:47 | a click on the selected piece selects nothing; a click on any other piece selects it |
| `PieceList.ToggleTwice` | src/app/components/PieceList.tsx:47 | two clicks on a piece that was not selected come back to no selection |
| `PieceList.PieceList.Click` | src/app/components/PieceList.tsx:47 | the selection becomes the toggle of the clicked piece |

## Left out

- Input and output:
  - console logging, `alert`, `prompt`'s dialog (its answer is an input);
  - `window.location` reads and writes, `history.replaceState`;
  - the profile fetch and its rendering.
  - These are effects outside the state modelled here.
- Styles, layout and all JSX rendering, the search modals and
  `messa-di-voce/src/PlayerWidget.jsx`. These are user interface and fetch
  input and output with no further state logic.
- SHA-256, `crypto.subtle` and `Math.random`. These are foreign or
  nondeterministic; they are parameters.
- `String.fromCharCode` of the digest. Characters 0..255 are treated as
  `btoa`'s bytes directly.
- The JSON decoding of token responses and of persisted `practiceSets`, and
  writing `practiceSets` back to storage. Missing or mistyped JSON fields
  (stored as `"undefined"`) are not modelled. The constructor takes the
  practice sets as already read.
- Asynchronous interleavings, request latency and concurrent handlers.
  Handlers run one at a time, to completion, and no time passes during an
  `await`.
- Floating point:
  - the slider percentages of `src/SegmentDefinitionModal.jsx` lines
    254-255;
  - number precision beyond 2^53;
  - exponent notation in `String(n)`;
  - `NaN` delays.
- `parseInt` skipping leading white space. No text the app produces
  starts with white space.
- The slider's `parseInt` of its text. A range input's value is an integer
  numeral, so the slider methods take the integer.
- The SDK player object: the token callback it is given, `pause` and
  `disconnect` effects beyond their record in the log, and whether the
  browser's SDK script is loaded. `SdkReady` is the ready callback being
  invoked.
- `SegmentEditor.SegmentEditor.Preview`: the pause timers it adds are never
  fired in the model. The editor and the session are modelled apart,
  although they share one player (the dialog is given App's player) and
  one clock. A preview's `setTimeout` is never cleared and outlives the
  dialog, so a pending preview pause can land while a played segment is
  running and stop it early. That interaction is not represented. That
  the preview timers are never cancelled is stated.
- `TimeFields.FormatDurationShape`: stated for non-negative instants only.
  A negative instant prints a negative seconds part, for example `-1:0-5`.
- `TimeFields.FormatDurationRoundTrip`: stated for non-negative instants
  only, for the same reason.
- `TimeFields.EditMinutesKeepsSeconds`: stated for a non-negative current
  instant and minutes value. Below zero the truncating `%` makes the
  seconds field negative.
- `TimeFields.EditSecondsCarries`: stated when the current instant and the
  result are not negative, for the same reason.
- `TimeFields.FieldsOfInstant`: stated for non-negative instants; negative
  ones are covered only by the bounds of `FieldsOfNegativeInstant`.
- `App.Session.Advance`: at most one stop is pending, so one step fires at
  most one pause; time only moves forward.
- The mock data of `PieceList.tsx` (`mockPieces`) and its `Piece` type. The
  file defining them is not part of this model, and performances are opaque
  strings.
