# OmniVista 2500 client core, in Dafny

This project models the logic inside class `OV` of `lib/ov2500.js`, a
Node.js client for the Alcatel-Lucent OmniVista 2500 (and OmniVista Cirrus)
REST API. That logic sits between the HTTP transport and the callers:

- **Demux**: `result2JSON` cuts a response body holding several JSON objects
  written back to back at every `}{`. It puts back the brace lost at each
  cut and parses every piece, in order. A body without `}{` is parsed whole.
- **Session**: the `OV` object (cookie, token, info, mode, url), the
  `headers` getter, and `login` with its call to `about`. `login` classifies
  the appliance as `"CIRRUS"` when its product name contains `"Cirrus"` and
  as `"OV"` otherwise. `getWlanClientList(mode)` picks POST for OV, GET for
  Cirrus, and nothing for any other mode.
- **Notifications**: one attempt of `getNotificationsWithRetry` takes
  `response.trapData` from the first frame. It rejects a value whose
  `length` is 0 with "No notifications". When the `length` is more than 1,
  it sorts the value in place, stably, by `instanceId`, which the
  comparator's subtraction converts with JavaScript's `ToNumber`. Any
  exception in between is caught as "JSON Error". `retry(3)` allows at most
  four attempts.
- **Locator**: `getMacAddresses` joins the addresses with `,` and keeps only
  the frames of type `LocatorFwdResponseObject`. It then pushes the elements
  of their `response.ovResponseObject` arrays into one list, frame after
  frame.

Things outside the program's control are parameters:

- `JSON.parse` is `parse: string -> Option<Json>`, where `None` means it
  throws, and `JSON.stringify` is `stringify: Json -> string`.
- Each HTTP exchange is a `Transport` value: either a delivered response
  (its `set-cookie` value and body) or a failure with a cause.
- Each operation returns the request it sends: method, url, headers and
  body.

JavaScript property reads are modelled by `Json.Member`, and the
conversions `ToNumber` and `ToString` by `Json.ToNumber` and `Json.Text`. A read on `null`
throws a TypeError; a missing property is `undefined`. A promise that is
never settled because an exception escapes a callback is an explicit
outcome: `Unsettled` for login and `Uncaught` for the MAC lookup.

Modules: `Wrappers` (Option, Result), `Json`, `Http`, `Demux`, `Session`,
`Notifications`, `Locator`.

Where the code and its documented intent differ, the model follows the
code:

- A failed login resets only the token. The cookie, info and mode keep
  their values.
- `login` has no handler for a failing `about` call or for a missing
  product name, so its promise then never settles. There is no error
  result for these cases.
- `result2JSON` does no check for a `}{` inside a JSON string. It cuts
  there anyway, as `BoundaryInsideString` shows.
- No operation checks that `login` has run before it, or that it
  succeeded.
- The promise in `getNotificationsWithRetry` is created once, before
  `retry` subscribes to it. So each retry re-observes the same settled
  outcome instead of sending the request again (`PollSameOutcome`). When
  every attempt fails, the reported error is the last attempt's.

## Model

| member | source | states |
|---|---|---|
| Json.Member | lib/ov2500.js:307-308 | reading a property of `null` fails with a TypeError; it yields a value exactly when the value is an object holding the key, and that value is the field |
| Json.Read | lib/ov2500.js:308 | reading a property of `undefined` fails with a TypeError; on a value it is Member |
| Json.OrEmpty | lib/ov2500.js:41 | `x \|\| ""` is x when x is defined and truthy, and "" otherwise |
| Json.TrimStart | lib/ov2500.js:313 | the result is a suffix of the text that does not start with white space, and everything dropped is white space |
| Json.TrimEnd | lib/ov2500.js:313 | the result is a prefix of the text that does not end with white space, and everything dropped is white space |
| Json.BlankIsZero | lib/ov2500.js:312-313 | a text made only of white space converts to 0 |
| Json.DecimalRoundTrip | lib/ov2500.js:313 | the text `String(n)` of an integer converts back to n |
| Json.CommaIsNaN | lib/ov2500.js:313 | a text holding a comma converts to NaN |
| Json.Text | lib/ov2500.js:313 | `String(v)` throws only a TypeError, only on an array or an object, and on an object exactly when it has its own `toString` field |
| Json.JoinTexts | lib/ov2500.js:313 | `join(",")` of array elements throws only a TypeError |
| Json.ToNumber | lib/ov2500.js:312-313 | the conversion throws only a TypeError, and only on an array or an object |
| Json.ToNumberShortArray | lib/ov2500.js:313 | `[]` converts to 0 and `[n]` to n |
| Json.ToNumberObject | lib/ov2500.js:313 | an object converts to NaN, or throws a TypeError exactly when it has its own `toString` field |
| Json.ToNumberLongArray | lib/ov2500.js:313 | an array of two or more elements converts to NaN unless the conversion throws |
| Demux.Split | lib/ov2500.js:354 | `split("}{")` always returns at least one piece |
| Demux.Fragments | lib/ov2500.js:354-367 | there is one text to parse per piece of the split |
| Demux.ParseAll | lib/ov2500.js:356-367 | succeeds exactly when every text parses; then frame i is text i parsed, and there are as many frames as texts |
| Demux.Demux | lib/ov2500.js:353-369 | a successful result has one frame per piece, and at least one |
| Demux.Result2Json | lib/ov2500.js:353-369 | the method (the single-document shortcut, then the loop that writes the parse of piece idx at position idx) returns exactly Demux |
| Demux.ParseFragments | lib/ov2500.js:356-367 | the `forEach` with its `switch (idx)` parses the reassembled pieces in order and fails as a whole on the first failure |
| Demux.SplitCount | lib/ov2500.js:354 | the number of pieces is the number of leftmost non-overlapping `}{` occurrences plus one |
| Demux.SplitJoin | lib/ov2500.js:354 | joining the pieces with `}{` gives back the body |
| Demux.CountZeroIff | lib/ov2500.js:354-355 | no cut is made exactly when the body contains no `}{` |
| Demux.NoBoundarySplit | lib/ov2500.js:354-355 | a body without `}{` is one piece, itself |
| Demux.SplitPiecesClean | lib/ov2500.js:354 | no piece contains `}{` |
| Demux.JoinSplit | lib/ov2500.js:354 | splitting pieces free of `}{`, joined by `}{`, gives back those pieces |
| Demux.SplitCharacterization | lib/ov2500.js:354 | the split is the unique list of `}{`-free pieces whose join is the body (both directions) |
| Demux.ReassembleConcat | lib/ov2500.js:356-366 | with two or more pieces, the brace-restored texts concatenate to the pieces joined by `}{` |
| Demux.FragmentsRoundTrip | lib/ov2500.js:354-366 | concatenating the texts handed to JSON.parse gives back the body exactly |
| Demux.DemuxSingleDocument | lib/ov2500.js:354-355 | a body without `}{` becomes exactly one frame, the whole body parsed, or fails when that parse fails |
| Demux.DemuxFrames | lib/ov2500.js:354-368 | on success there are as many frames as `}{` occurrences plus one, and frame i is text i parsed, in body order |
| Demux.DemuxFailure | lib/ov2500.js:359-365 | the call fails, with no partial result, exactly when some reassembled text does not parse |
| Demux.ConcatenatedObjects | lib/ov2500.js:353-369 | objects written back to back, none holding `}{`, are cut back into exactly those objects and each is parsed on its own |
| Demux.BoundaryInsideString | lib/ov2500.js:354 | the single object `{"a":"}{"}` is cut into the texts `{"a":"}` and `{"}`, neither of which is that object |
| Session.IndexOf | lib/ov2500.js:47 | `indexOf` is -1 exactly when the text does not occur, and otherwise is the first position where it occurs |
| Session.Classify | lib/ov2500.js:46-51 | the mode is "CIRRUS" exactly when the product name contains "Cirrus", and "OV" exactly when it does not |
| Session.ProductName | lib/ov2500.js:46-47 | a name is found exactly when the about info is an object whose `productName` is a string |
| Session.About | lib/ov2500.js:59-76 | a transport failure rejects with its error; a delivered body resolves with its parse exactly when it parses, and otherwise rejects with "JSON Error" |
| Session.FirstFrameField | lib/ov2500.js:109-116 | a transport failure rejects with its error; the call resolves exactly when the body demultiplexes and the first frame is not null, and otherwise rejects with "JSON Error"; the value resolved is the first frame's field, or undefined exactly when there is no such field |
| Session.RawBodyToken | lib/ov2500.js:41 | as written, the token read from the raw response text is always the empty string |
| Session.DecodedToken | lib/ov2500.js:41 | the token is the decoded reply's `accessToken` when that is truthy, and the empty string otherwise |
| Session.TokenLost | lib/ov2500.js:41 | for the reply `{"accessToken":"abc"}` the raw read gives "" while the decoded read gives "abc" |
| Session.OV.constructor | lib/ov2500.js:8-15 | token, cookie and mode start empty, info is "", and the url is "https://" followed by the address |
| Session.OV.Headers | lib/ov2500.js:17-24 | exactly four headers, JSON content type and accept, app version 4.2.2.R01, and a Cookie equal to the current cookie |
| Session.OV.AboutRequest | lib/ov2500.js:59-64 | a GET of /api/about with no body, carrying the current headers |
| Session.OV.Login | lib/ov2500.js:26-57 | sends the credentials with the headers as they were. On a transport error: token reset, cookie, info and mode unchanged, rejected with that error. On a reply: the token is the raw-text read of line 41, so "", the cookie is the set-cookie value, and about is asked with the new cookie. If about fails: unsettled, info and mode unchanged. Otherwise info is the about result; if its product name is missing: unsettled, mode unchanged. If the name is present: mode classified from it and login resolves with the info. The mode always stays "", "OV" or "CIRRUS" |
| Session.OV.GetWlanClientList | lib/ov2500.js:98-136 | a request exists exactly for mode "OV" (POST with the client-list filter body) or "CIRRUS" (GET without a body); either goes to the client-list path with the current headers, and settles as `result2JSON(body)[0].data` |
| Session.SetModeDispatches | lib/ov2500.js:46-51 | a mode set by login (the invariant Valid: "", "OV" or "CIRRUS") is one getWlanClientList dispatches on, so asking in that mode sends a request |
| Notifications.NotificationsQuery | lib/ov2500.js:302 | the query object holds the addresses as `ips` and asks for 100 traps |
| Notifications.Key | lib/ov2500.js:313 | `trap.instanceId` through ToNumber: it throws (a TypeError) on a null trap, is NaN when the trap has no `instanceId`, and otherwise is ToNumber of it |
| Notifications.InstanceId | lib/ov2500.js:313 | the key SortById sorts by: the trap's key when it is a number, else 0; SortTrapList sorts by it only when every key is a number |
| Notifications.SortById | lib/ov2500.js:312-314 | the sorted list has as many traps as the input |
| Notifications.InsertPermutes | lib/ov2500.js:312-314 | a stable insertion adds exactly the inserted trap |
| Notifications.InsertSorted | lib/ov2500.js:312-314 | inserting into a list sorted by `instanceId` keeps it sorted |
| Notifications.InsertStable | lib/ov2500.js:312-314 | an inserted trap goes after every trap with the same `instanceId` |
| Notifications.SortPermutes | lib/ov2500.js:312-314 | the sort returns a permutation of the traps |
| Notifications.SortSorted | lib/ov2500.js:312-314 | the sort orders the traps by non-decreasing `instanceId` |
| Notifications.SortStable | lib/ov2500.js:312-314 | traps with the same `instanceId` keep their arrival order |
| Notifications.StableSortUnique | lib/ov2500.js:312-314 | two sorted lists that hold the same traps per `instanceId`, in the same order, are equal |
| Notifications.StableSortIsSortById | lib/ov2500.js:312-314 | any stable sort by `instanceId`, whatever the engine's algorithm, gives SortById |
| Notifications.InsertAt | lib/ov2500.js:312-314 | the position where the right-to-left scan stops is where the stable insertion puts the trap |
| Notifications.MakeRoom | lib/ov2500.js:312-314 | the larger keys before position i move one place right, everything else stays, and the gap is where the key belongs |
| Notifications.InsertStep | lib/ov2500.js:312-314 | one pass of the in-place insertion sort turns the array prefix into the stable insertion of a[i], leaving the rest |
| Notifications.SortTraps | lib/ov2500.js:312-314 | `traps.sort(...)` in place leaves the array holding SortById of its old contents |
| Notifications.TrapData | lib/ov2500.js:307-308 | the read succeeds exactly when the body demultiplexes and the first frame is an object whose `response` is present and not null; otherwise it fails with "JSON Error"; the value is that response's `trapData`, undefined exactly when there is none |
| Notifications.Length | lib/ov2500.js:309 | `traps.length` throws a TypeError exactly on null or undefined |
| Notifications.MoreThanOne | lib/ov2500.js:312 | `length > 1` throws only a TypeError, and for a number n is n > 1 |
| Notifications.SortTrapList | lib/ov2500.js:312-314 | the sort throws (a TypeError) exactly when some trap's key cannot be read |
| Notifications.Settle | lib/ov2500.js:309-315 | the rest of the `try` block after trapData is read (properties in AttemptOutcome, AttemptSortsTraps, AttemptUnsorted) |
| Notifications.Attempt | lib/ov2500.js:304-319 | one attempt, a thrown TypeError being caught as "JSON Error" (properties in AttemptOutcome, AttemptSortsTraps, AttemptUnsorted) |
| Notifications.AttemptOutcome | lib/ov2500.js:304-319 | a transport failure rejects with its error; an unreadable trapData (line 317), an undefined one and a null one reject with "JSON Error"; "No notifications" exactly when trapData has length 0 (an empty array, an empty string, an object whose `length` is 0); no other rejection |
| Notifications.AttemptSortsTraps | lib/ov2500.js:309-317 | for an array of two or more traps: an unreadable key rejects with "JSON Error"; with numeric keys the result is the traps sorted by key, a permutation that keeps equal keys in arrival order, equal to SortById; with a NaN key the arrival order |
| Notifications.SortByKey | lib/ov2500.js:312-314 | with numeric keys, SortById is ordered by the source's key, a permutation, and stable |
| Notifications.NumericKeysSorted | lib/ov2500.js:312-314 | a permutation of traps with numeric keys, sorted by InstanceId, is sorted by those keys |
| Notifications.AttemptUnsorted | lib/ov2500.js:309-317 | resolved unchanged: one trap, a number, a boolean, a one-character string, an object whose `length` is absent, or is not the number 0 and converts to NaN or to at most 1; "JSON Error" for a longer string or an object whose `length` is above 1 or throws |
| Notifications.NotificationAttempt | lib/ov2500.js:304-319 | the request callback computes exactly the attempt's outcome, sorting an array in place only when its length is more than 1 and every key is a number |
| Notifications.Observed | lib/ov2500.js:298-321 | there are 1 + 3 attempts, attempt k seeing outcome k |
| Notifications.Poll | lib/ov2500.js:321 | `retry(3)` from attempt `from`: stop at a success or at the last attempt (properties in PollFrom) |
| Notifications.PollFrom | lib/ov2500.js:321 | from attempt `from`, the poll stops at the first success, makes at most the remaining attempts, and reports the last failure only after all of them |
| Notifications.PollBounds | lib/ov2500.js:321 | at least one and at most 1 + 3 attempts; the result is that of the last attempt made; every earlier attempt failed; a failure is reported only after all four |
| Notifications.PollSameOutcome | lib/ov2500.js:298-321 | when every attempt sees the same outcome, as with the eagerly created promise, the result is that outcome, after one attempt on success and four on failure |
| Notifications.GetNotificationsWithRetry | lib/ov2500.js:297-322 | posts the serialized query to /api/notifications/alarms with the current headers; the bounded retry loop returns exactly the poll's result and attempt count |
| Locator.JoinAddresses | lib/ov2500.js:326-329 | the addresses separated by "," (properties in BuildIpList, JoinAddressesRoundTrip, JoinAddressesSeparators) |
| Locator.BuildIpList | lib/ov2500.js:326-329 | the `forEach` accumulation builds exactly the addresses joined by "," with no trailing separator |
| Locator.JoinAddressesSnoc | lib/ov2500.js:326-329 | appending an address to a non-empty list adds "," and that address |
| Locator.JoinAddressesSeparators | lib/ov2500.js:326-329 | for addresses without commas, an empty list gives "" and n addresses give exactly n-1 commas |
| Locator.JoinAddressesRoundTrip | lib/ov2500.js:326-329 | splitting the list at "," gives back the addresses |
| Locator.IsLocatorFrame | lib/ov2500.js:339 | `entry.type === "LocatorFwdResponseObject"` |
| Locator.LocatorFrames | lib/ov2500.js:338-340 | the filter (properties in LocatorFramesAppend, OtherFrameDropped, LocatorFramesMembers) |
| Locator.Ports | lib/ov2500.js:343 | `entry.response.ovResponseObject` when it is an array, else None, where `forEach` throws |
| Locator.Macs | lib/ov2500.js:336-347 | how the callback settles (properties in MacsContents, TwoFrames) |
| Locator.LocatorFramesAppend | lib/ov2500.js:338-340 | the type filter distributes over concatenation |
| Locator.OtherFrameDropped | lib/ov2500.js:338-340 | a frame of any other type is dropped wherever it stands |
| Locator.LocatorFramesMembers | lib/ov2500.js:338-340 | a frame is in the result exactly when it is in the input and has type LocatorFwdResponseObject |
| Locator.Flatten | lib/ov2500.js:342-346 | the flatten succeeds exactly when every kept frame has a port array |
| Locator.FlattenAppend | lib/ov2500.js:342-346 | flattening distributes over concatenation |
| Locator.FlattenMembers | lib/ov2500.js:342-346 | a port is in the flattened list exactly when some entry lists it |
| Locator.CollectPorts | lib/ov2500.js:341-346 | the nested push loops build exactly the flattened list, or fail where an entry has no port array |
| Locator.GetMacAddresses | lib/ov2500.js:324-350 | posts the comma-joined list to /api/locator/browse with the current headers and settles exactly as Macs: rejected with a transport error, uncaught on a parse failure (a SyntaxError), a null frame or a missing port array (a TypeError), otherwise resolved |
| Locator.MacsContents | lib/ov2500.js:336-347 | a resolved result is the in-order concatenation of the port arrays of just the locator frames; a port is in it exactly when some locator frame lists it |
| Locator.PortsOfLocatorFrames | lib/ov2500.js:337-346 | the flattened ports of the locator frames are exactly the ports some locator frame lists |
| Locator.TwoFrames | lib/ov2500.js:337-347 | one locator frame with ports [m1, m2] and one frame of another type give exactly [m1, m2] |

## Left out

- The HTTP plumbing of the `request` library (TLS options, status codes,
  the `[ipList]` body form, the login payload's serialization): each
  exchange is a `Transport` parameter and `credentials` is the serialized
  login body.
- `JSON.parse` is a parameter. JSON numbers are integers only; floating
  point is not modelled.
- The RxJS runtime around `retry(3)`. Only the bounded-attempt semantics is
  modelled, over the outcomes the attempts observe; the model does not re-issue
  requests.
- Promise scheduling, asynchrony and concurrent logins.
- The endpoint wrappers that only unwrap `[0].data` or `[0].response`
  (`getDevices`, `getWlanAPIntrusionList`, `getAuthRecordList`, `addAccount`,
  `getAllAccountList`, `getAllAccessRoleProfileList`, `getDeviceConfig`,
  `getNotifications`) and the payload classes other than `OV_Notifications`
  (Notifications.NotificationsQuery) and the constant client-list filter
  body (`OV_WlanClientList`). The `moment` and `deep-diff` imports are
  unused.
- Demux.ParseFragments: the source overwrites each string of the split
  array with its parsed value; a Dafny array of strings cannot hold JSON
  values, so the model writes the parse of piece idx at position idx of a
  second array of the same length.
- Notifications.SortTrapList: when some key is NaN the model keeps the
  arrival order. That is the stable sort's result when the numeric keys
  all agree, since every comparison is then 0. When they differ the
  comparator is not consistent, and ECMAScript leaves the order to the
  engine.
- Notifications.SortTrapList: it assumes that the engine's sort compares
  every element at least once when there are two or more, so one trap
  whose key throws always rejects the attempt.
- Notifications.Length: a string's `length` counts UTF-16 code units; the
  model counts the characters of the string.
- Json.StringToNumber: a numeric text with a fraction or an exponent, and
  "Infinity", are numbers in JavaScript but NaN in the model, whose numbers
  are integers only.
- Json.Text: integers are written in plain decimal; JavaScript writes
  numbers of 10^21 and more with an exponent.
- Session.ProductName: a `productName` array (whose `indexOf` looks for an
  element) is treated like any other non-string, as unsettled.
- Session.OV.Login: Node delivers `set-cookie` as an array of strings, or
  leaves it out; the model takes it as one string.
- Json.Member: built-in properties of non-objects are not modelled. The
  one the core reads, `length` of the trap data, is Notifications.Length;
  every other read is of a plain object field.
- Session.OV.GetWlanClientList: when the mode matches no case the source
  returns `undefined`; the model returns None and sends nothing.

## Findings

| source | as written | input that shows it | evidently intended | confidence | as-written member | corrected member |
|---|---|---|---|---|---|---|
| lib/ov2500.js:41 | `this.token = body.accessToken \|\| ""` reads `accessToken` from the raw response text, because the login request does not ask for JSON decoding; a string has no such property, so the token is always "" | a login reply whose body is `{"accessToken":"abc"}` | the token is the `accessToken` of the decoded reply | medium, not executed | Session.RawBodyToken, Session.TokenLost, Session.OV.Login | Session.DecodedToken |
