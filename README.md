# KUMO router client engine in Dafny

This project models the engine of a client for AJA KUMO video routers. The
engine is the `KumoApi` class:

- It logs in and keeps a session with the device.
- It long-polls for parameter changes.
- It classifies each batch of changed parameters into five categories: crosspoint changes (which source feeds which destination), port labels, button colours, destination locks and the device temperature. A mode change (a new port count) is detected separately.
- It raises one notification per non-empty category.
- It rebuilds the full crosspoint matrix on demand.

It also models the two data holders the engine builds:

- `KumoEvent`, the result of one poll;
- `KumoText`, a port label whose line setters raise "changed" flags.

Modules, one per file:

- `Strings` (`strings.dfy`): ordinal `Contains`, ASCII case-insensitive comparisons, the "first run of digits" extraction and its `Convert.ToInt32`, and `int.ToString`.
- `Records` (`records.dfy`): the raw change record, the port type, the colour, lock and label value records, the source→destinations dictionary (as a sequence of entries in enumeration order), the event payload and the notifications.
- `ParamIds` (`param_ids.dfy`): the parameter id builders, the substring tests that sort an id into a category, the LED conversions, and the round trips between them.
- `PortText` (`kumo_text.dfy`): class `KumoText`.
- `KumoEvents` (`kumo_event.dfy`): class `KumoEvent`.
- `Classifier` (`classifier.dfy`): the helpers that classify a batch. Each loop is a method proved equal to a specification function on the batch. Lemmas then state what that function means.
- `Matrix` (`matrix.dfy`): `GetMatrix`. The device's per-destination status is a parameter.
- `PollRules` (`poll_rules.dfy`): the session rules as values. These are one poll cycle, login, and the start and stop switches, with their laws.
- `Engine` (`kumo_api.dfy`): class `KumoApi`. Each method is proved to change the fields and the notification log exactly as the matching `PollRules` function says.

Requests to the device are not modelled as I/O. Each method takes the reply it would receive as a parameter:

- a value or an exception;
- for the events request, the OK batch or a non-OK status;
- for login, the status, whether content is present and the `Set-Cookie` value;
- the converted port count;
- the clock, as `now`.

The subscribers of the C# events are modelled as a log. Raising an event appends a `Notification`, payload included, to the field `notifications`.

## Model

| member | source | states |
|---|---|---|
| Strings.ContainsIff | KumoAJA.API/KumoApi.cs:544 | the recursive substring test holds exactly when the pattern occurs at some position (ordinal `String.Contains`) |
| Strings.FirstDigitRun | KumoAJA.API/KumoApi.cs:550 | the first run of digits (`Regex.Match(id, @"\d+").Value`) is made of digits, and is empty exactly when the id has no digit |
| Strings.ParseDigits | KumoAJA.API/KumoApi.cs:550 | `Convert.ToInt32` of a digit run succeeds exactly when the run is non-empty and at most 2147483647; the value is then within 0..2147483647 |
| Strings.NatToStringValue | KumoAJA.API/KumoApi.cs:298 | reading back the decimal text `int.ToString` writes gives the number |
| Strings.FirstNumber | KumoAJA.API/KumoApi.cs:550 | `Convert.ToInt32(Regex.Match(id, @"\d+").Value)`; `Strings.FirstDigitRun` and `Strings.ParseDigits` prove it fails exactly when the id has no digit or its first run exceeds 2147483647, and `Strings.FirstNumberOfEmbedded` that it recovers a number written into an id |
| Strings.FirstNumberOfEmbedded | KumoAJA.API/KumoApi.cs:550 | a number written between a digit-free prefix and a suffix that does not start with a digit is the number extracted from the id |
| ParamIds.LedValueIsNotItsName | KumoAJA.API/KumoApi.cs:405-407 | the write side sends "1" or "0", distinct for on and off; the read side tests the device's value name against "Blink", and neither "1" nor "0" passes that test (what the device reports after a write is outside the model) |
| ParamIds.LineId | KumoAJA.API/KumoApi.cs:241-293 | the label id builder; `ParamIds.LineIdRoundTrip` proves its number, line and port type are read back by the classifier |
| ParamIds.DestinationStatusId | KumoAJA.API/KumoApi.cs:298 | the status id builder; `ParamIds.StatusIdRoundTrip` proves it is a crosspoint id whose extracted number is the destination |
| ParamIds.ButtonSettingsId | KumoAJA.API/KumoApi.cs:397 | the button id builder; `ParamIds.ButtonSettingsIdRoundTrip` proves it is a colour id whose extracted number is the port |
| ParamIds.DestinationLockedId | KumoAJA.API/KumoApi.cs:401 | the lock id builder; `ParamIds.LockedIdRoundTrip` proves it is a lock id whose extracted number is the destination |
| ParamIds.StatusIdRoundTrip | KumoAJA.API/KumoApi.cs:298 | an id built as `eParamID_XPT_Destination{n}_Status` is a crosspoint id, and the extracted destination is n (its magnitude when negative, since "-" is not a digit) |
| ParamIds.ButtonSettingsIdRoundTrip | KumoAJA.API/KumoApi.cs:397 | `eParamID_Button_Settings_{n}` is a colour id whose extracted port number is n |
| ParamIds.LockedIdRoundTrip | KumoAJA.API/KumoApi.cs:401 | `eParamID_XPT_Destination{n}_Locked` is a lock id whose extracted port number is n |
| ParamIds.LineIdRoundTrip | KumoAJA.API/KumoApi.cs:241-293 | a label id is a text id; its extracted number is the port; it ends with Line_1 (ignoring case) exactly for line 1 and Line_2 exactly for line 2; it mentions "Source" exactly for a source port |
| ParamIds.DestinationLineLacksSource | KumoAJA.API/KumoApi.cs:241 | a destination label id never mentions "Source", so the classifier gives it the Destination port type |
| PortText.KumoText.constructor | KumoAJA.API/KumoText.cs:3-31 | a fresh label has default port type and number, null texts and both flags false |
| PortText.KumoText.SetLine1Text | KumoAJA.API/KumoText.cs:8-16 | the Line1Text setter stores any value, null or unchanged included, and raises Line1Changed; everything else is unchanged |
| PortText.KumoText.SetLine2Text | KumoAJA.API/KumoText.cs:18-26 | the Line2Text setter stores the value and raises Line2Changed; line 1 and its flag are unchanged |
| PortText.KumoText.SetLine1Changed | KumoAJA.API/KumoText.cs:30 | the public flag setter changes only the flag, not the stored text |
| PortText.KumoText.SetLine2Changed | KumoAJA.API/KumoText.cs:31 | the public flag setter changes only the flag, not the stored text |
| PortText.Views | KumoAJA.API/KumoText.cs:3-31 | the values of a list of labels, one per label and in order |
| KumoEvents.KumoEvent.constructor | KumoAJA.API/KumoEvent.cs:14-21 | the "nothing changed" event: temperature -1, empty matrix, no texts, colours or locks |
| KumoEvents.KumoEvent.Of | KumoAJA.API/KumoEvent.cs:22-29 | each argument is stored unchanged in its field |
| Classifier.Where | KumoAJA.API/KumoApi.cs:544 | the filtered list is no longer than the batch |
| Classifier.WhereMembers | KumoAJA.API/KumoApi.cs:544 | the filtered list holds exactly the batch's records whose id passes the category's substring test |
| Classifier.WhereAppend | KumoAJA.API/KumoApi.cs:544 | filtering distributes over concatenation; with `Classifier.WhereSingle` (a one-record batch keeps its record exactly when it passes) this makes the filter keep each passing record once, in batch order |
| Classifier.WhereSingle | KumoAJA.API/KumoApi.cs:544 | a one-record batch keeps its record exactly when its id passes the category's test |
| Classifier.NumberedIff | KumoAJA.API/KumoApi.cs:547-552 | a list converts without exception exactly when every id in it has a convertible first digit run |
| Classifier.PortNumber | KumoAJA.API/KumoApi.cs:550 | an extracted port number lies within 0..2147483647 |
| Classifier.GetColorByClass | KumoAJA.API/KumoApi.cs:783-798 | the nine ordered substring tests and the default; what they give (first hit in order, always a palette colour) is proved in `Classifier.ColorByClassFirstHit` |
| Classifier.ColorByClassFirstHit | KumoAJA.API/KumoApi.cs:783-798 | the tests run in the order color_1..color_9 and the first token the class name contains decides the colour; when none is contained, the default #87b4c8; the result is always one of the nine palette colours |
| Classifier.ColorByClassTenth | KumoAJA.API/KumoApi.cs:787 | "color_10" contains "color_1", so it gives #cb7676 |
| Classifier.ColorByClassEmbedded | KumoAJA.API/KumoApi.cs:789 | "foo_color_3_bar" gives #d9cb7e |
| Classifier.ColorOf | KumoAJA.API/KumoApi.cs:591-605 | the colour record of one change; `Classifier.ColorsOfMeaning` and `Classifier.ButtonSettingsColor` prove its shift by the port count and its colour |
| Classifier.ColorsOfMeaning | KumoAJA.API/KumoApi.cs:589-607 | record k reports record k of the list: its colour is the class name's colour; a raw index above the port count becomes a Destination at index minus the port count, otherwise a Source at the raw index |
| Classifier.ChangedColorsMeaning | KumoAJA.API/KumoApi.cs:581-611 | colours are returned exactly when every Button_Settings_ id converts; there is one record per such id, in batch order, each reporting its id |
| Classifier.GetChangedColor | KumoAJA.API/KumoApi.cs:581-611 | the loop returns exactly the specified colour list, or the conversion failure |
| Classifier.ButtonSettingsColor | KumoAJA.API/KumoApi.cs:594-605 | a single Button_Settings_{n} change gives (Destination, n minus the port count) when n exceeds the port count, else (Source, n), with the class name's colour |
| Classifier.ColorNormalizationExamples | KumoAJA.API/KumoApi.cs:594-602 | with 8 ports, index 10 gives (Destination, 2), index 5 gives (Source, 5) and index 8 gives (Source, 8): the test is strictly greater-than |
| Classifier.LockOf | KumoAJA.API/KumoApi.cs:569-573 | the lock record of one change; `Classifier.LocksOfMeaning` and `Classifier.LockExamples` prove the case-insensitive "Locked" test and the port number |
| Classifier.LocksOfMeaning | KumoAJA.API/KumoApi.cs:567-575 | record k is locked exactly when name k equals "Locked" ignoring case, and carries the port number extracted from id k |
| Classifier.LockedStatusMeaning | KumoAJA.API/KumoApi.cs:557-579 | locks are returned exactly when every _Locked id converts; there is one record per such id, in batch order |
| Classifier.GetLockedStatus | KumoAJA.API/KumoApi.cs:557-579 | the loop returns exactly the specified lock list, or the conversion failure |
| Classifier.LockExamples | KumoAJA.API/KumoApi.cs:570 | the name "LOCKED" gives a locked record and "Unlocked" an unlocked one |
| Classifier.TextOf | KumoAJA.API/KumoApi.cs:623-637 | the label value of one change; `Classifier.TextsOfMeaning` and `Classifier.TextRecordOfLabelId` prove the line choice, the port type and the number |
| Classifier.TextsOfMeaning | KumoAJA.API/KumoApi.cs:621-639 | label k has the number from id k; it is a Source exactly when the id mentions "Source"; Line_1 (ignoring case) sets only line 1; otherwise Line_2 sets only line 2; otherwise neither line is set |
| Classifier.ChangedTextsMeaning | KumoAJA.API/KumoApi.cs:613-644 | labels are returned exactly when every text id converts; there is exactly one label per id containing _XPT_ and _Line_, with no merging, in batch order |
| Classifier.NewText | KumoAJA.API/KumoApi.cs:623-637 | a new label is built exactly when the id converts, and it holds the specified label value |
| Classifier.AddText | KumoAJA.API/KumoApi.cs:623-638 | one iteration adds exactly one new label object, holding the specified label value, at the end of a list of distinct objects, or fails exactly when the conversion throws |
| Classifier.GetChangedText | KumoAJA.API/KumoApi.cs:613-644 | the loop returns pairwise distinct label objects whose values are exactly the specified labels, or the conversion failure |
| Classifier.TextRecordOfLabelId | KumoAJA.API/KumoApi.cs:625-637 | a single label change for (type, n, line) gives one label of that type and number with only that line set and flagged |
| Classifier.Temperature | KumoAJA.API/KumoApi.cs:520-524 | the temperature is the value of the first eParamID_Temperature record, and -1 when there is none |
| Classifier.FindSource | KumoAJA.API/KumoApi.cs:450 | a found key sits at the returned position; when none is found, no entry has that key |
| Classifier.Put | KumoAJA.API/KumoApi.cs:551 | the indexer write `desPortMap[des] = source`; `Classifier.PutMeaning` proves its overwrite-or-append meaning |
| Classifier.PutMeaning | KumoAJA.API/KumoApi.cs:551 | writing desPortMap[des] keeps destinations unique and replaces only that destination's source; an existing destination keeps its position and only its value changes, a new one is appended at the end |
| Classifier.PutColumn | KumoAJA.API/KumoApi.cs:551 | the enumeration order of the destinations is unchanged by a write, except that a new destination is added last |
| Classifier.DestMapOfMeaning | KumoAJA.API/KumoApi.cs:547-552 | the intermediate map pairs each destination with the value of the last record reporting it, and with nothing else |
| Classifier.AddDest | KumoAJA.API/KumoApi.cs:450-459 | one iteration of ConvertDictionary; `Classifier.AddDestMeaning` proves it adds exactly that crosspoint and keeps the dictionary well formed |
| Classifier.AddDestMeaning | KumoAJA.API/KumoApi.cs:450-459 | adding an unplaced destination to its source's list keeps sources unique and lists free of duplicates, and adds exactly that crosspoint |
| Classifier.Invert | KumoAJA.API/KumoApi.cs:441-463 | ConvertDictionary's result; `Classifier.InvertMeaning` proves s feeds d exactly when the map sends d to s, and `Classifier.ConvertDictionary` is proved to compute it |
| Classifier.InvertMeaning | KumoAJA.API/KumoApi.cs:441-463 | the inverted dictionary is well formed, and source s feeds destination d exactly when the map sends d to s; so the keys are exactly the map's values, 0 and negatives included |
| Classifier.FirstsMeaning | KumoAJA.API/KumoApi.cs:441-463 | the first-occurrence list of a sequence holds each of its elements exactly once |
| Classifier.DestsUnderAbsent | KumoAJA.API/KumoApi.cs:441-463 | a value no destination is bound to has no destinations listed under it |
| Classifier.InvertOrder | KumoAJA.API/KumoApi.cs:441-463 | the inverted dictionary lists each source at the point where the enumeration first meets it, and each source's destinations in enumeration order |
| Classifier.InvertExample | KumoAJA.API/KumoApi.cs:441-463 | {3: 5, 1: 5, 2: 4} inverts to {5: [3, 1], 4: [2]}: first-occurrence keys, enumeration-ordered lists, not numeric order |
| Classifier.DestMapOrder | KumoAJA.API/KumoApi.cs:547-552 | the intermediate map enumerates destinations in the order the batch first reports them; a later report overwrites in place |
| Classifier.ConvertDictionary | KumoAJA.API/KumoApi.cs:441-463 | the loop, including its early return on an empty map, computes the specified inversion |
| Classifier.ChangedMatrix | KumoAJA.API/KumoApi.cs:542-555 | the crosspoint diff of a batch; `Classifier.ChangedMatrixMeaning` proves its meaning and `Classifier.GetChangedMatrix` is proved to compute it |
| Classifier.ChangedMatrixMeaning | KumoAJA.API/KumoApi.cs:542-555 | a matrix is returned exactly when every _Status/Destination id converts; then s feeds d exactly when the last status record for d carries s; destinations are enumerated in the order the batch first reports them, each source is listed where that enumeration first meets it, and its destinations follow that enumeration |
| Classifier.GetChangedMatrix | KumoAJA.API/KumoApi.cs:542-555 | the loop computes exactly the specified matrix, or the conversion failure |
| Classifier.OneSourcePerDestination | KumoAJA.API/KumoApi.cs:542-555 | in a reported matrix every destination appears under exactly one source |
| Classifier.SingleCrosspoint | KumoAJA.API/KumoApi.cs:298 | a single status change for destination d carrying any source s, 0 or negative included, gives {s: [d]} |
| Classifier.LaterStatusWins | KumoAJA.API/KumoApi.cs:551 | two status changes for one destination keep only the later source |
| Classifier.NumberedWhere | KumoAJA.API/KumoApi.cs:544-550 | a category converts exactly when every record of the batch in that category has a convertible id |
| Classifier.Classify | KumoAJA.API/KumoApi.cs:503-529 | the classification of an OK batch; `Classifier.ClassifyOutcome` proves when it resets or fails, and the category lemmas above what each category holds |
| Classifier.ClassifyOutcome | KumoAJA.API/KumoApi.cs:503-529 | a batch gives the mode-change reset exactly when some id equals eParamID_SignalSwitching, whatever else it holds; otherwise classification throws exactly when some categorised id has no convertible number |
| Matrix.MatrixOf | KumoAJA.API/KumoApi.cs:413-435 | the full matrix; `Matrix.MatrixMeaning` proves its keys, order and crosspoints, and `Matrix.GetMatrix` is proved to compute it |
| Matrix.GetMatrix | KumoAJA.API/KumoApi.cs:413-435 | the two loops return exactly the specified full matrix, or failure when a status does not convert or names a source above the port count |
| Matrix.FindSourceOfKeys | KumoAJA.API/KumoApi.cs:430 | in a dictionary keyed 1..N in order, key s sits at position s-1, and a key outside 1..N is missing |
| Matrix.FeedersUpToMembers | KumoAJA.API/KumoApi.cs:420-432 | destination d is in the list of source s exactly when d is within 1..n and its status is s |
| Matrix.FeedersUpToIncreasing | KumoAJA.API/KumoApi.cs:420-432 | each list is strictly increasing |
| Matrix.MatrixMeaning | KumoAJA.API/KumoApi.cs:413-435 | a returned matrix has exactly the keys 1..N in order; every list is strictly increasing; source s feeds d exactly when d is a port whose status is s > 0 |
| Matrix.MatrixExample | KumoAJA.API/KumoApi.cs:413-435 | statuses 1, 2, 3, 2 on four ports give {1: [1], 2: [2, 4], 3: [3], 4: []} |
| PollRules.EventsOf | KumoAJA.API/KumoApi.cs:485-540 | GetEvents after its request; `Engine.KumoApi.GetEvents` is proved to return and raise what it gives, and `PollRules.EventsOfRaised` that it raises nothing but the mode change |
| PollRules.EventNotesMeaning | KumoAJA.API/KumoApi.cs:700-725 | a notification is announced exactly when it is one of the five categories, carrying the event's own payload, and that category is non-empty (temperature when above -1); the empty event announces nothing |
| PollRules.EventNotesOrder | KumoAJA.API/KumoApi.cs:700-725 | the announcements follow PollEvents' order (matrix, temperature, labels, colours, locks), so each category is announced at most once and there are at most five |
| PollRules.Cycle | KumoAJA.API/KumoApi.cs:686-761 | one PollEvents call; `PollRules.CycleMeaning`, `PollRules.RunConnectivity`, `PollRules.StoppedCycleIsInert` and `PollRules.ConnectIdRequestedOnlyWhileUnset` prove what it does, and `Engine.KumoApi.PollEvents` is proved to perform it |
| PollRules.AfterFault | KumoAJA.API/KumoApi.cs:735-756 | the two catch blocks; `PollRules.FaultDirection` proves which way each fault moves Connected |
| PollRules.FaultDirection | KumoAJA.API/KumoApi.cs:735-756 | ExpectationFailed connects, announcing true only when disconnected; any other HTTP failure disconnects, announcing false only when connected; any other exception changes nothing |
| PollRules.CycleMeaning | KumoAJA.API/KumoApi.cs:686-761 | a cycle raises a connectivity notification exactly when it changes Connected, with the new value; a successful cycle records the poll instant and connects, any other keeps LastPooling; a set connection id is kept |
| PollRules.ConnectIdRequestedOnlyWhileUnset | KumoAJA.API/KumoApi.cs:692-698 | once the connection id is set, the connection id reply plays no part in a cycle |
| PollRules.RunConnectivity | KumoAJA.API/KumoApi.cs:727-751 | over any run of cycles, the connectivity notifications alternate between true and false, starting opposite the initial state, and the latest one matches Connected |
| PollRules.StoppedCycleIsInert | KumoAJA.API/KumoApi.cs:681-691 | after a stop that acted, or on a cancelled token, a cycle changes nothing and raises nothing; so does the cycle ForcePolling runs after its reset of LastPooling |
| PollRules.EventOnOf | KumoAJA.API/KumoApi.cs:648-679 | EventOn's effect on the fields; its laws are in `PollRules.LifecycleLaws` |
| PollRules.StartOf | KumoAJA.API/KumoApi.cs:763-768 | StartPollingEvents' effect on the fields; its laws are in `PollRules.LifecycleLaws` |
| PollRules.StopOf | KumoAJA.API/KumoApi.cs:770-781 | StopPollingEvents' effect on the fields; its laws are in `PollRules.LifecycleLaws` and `PollRules.StoppedCycleIsInert` |
| PollRules.LifecycleLaws | KumoAJA.API/KumoApi.cs:648-658 | stopping twice is stopping once; EventOn while active changes nothing; start always leaves polling active and uncancelled; a stop after a start always acts and resets the connection id to -1 |
| PollRules.LoginOf | KumoAJA.API/KumoApi.cs:144-189 | the login rule; `PollRules.LoginMeaning` proves what it gives, and `Engine.KumoApi.Login` is proved to perform it |
| PollRules.LoginMeaning | KumoAJA.API/KumoApi.cs:144-189 | one notification per login, carrying the result; success exactly on OK with content, a cookie that is non-empty and lacks "invalid", and a readable port count, which is then stored and the engine connected; a non-OK response or one without content, or an empty or "invalid" cookie, disconnects; a missing cookie header or an unreadable port count throws and leaves Connected as it was; only the cookie, the port count and Connected change, and the cookie is stored whenever the header was read |
| PollRules.LoginThrowKeepsConnection | KumoAJA.API/KumoApi.cs:183-188 | a login that throws while connected announces false but stays connected |
| Engine.KumoApi.constructor | KumoAJA.API/KumoApi.cs:40-47 | ConnectId -1, not active, not connected, LastPooling MinValue, an empty log, and the shared empty event holding its defaults |
| Engine.KumoApi.Login | KumoAJA.API/KumoApi.cs:144-189 | the new fields, the one notification and the result are those of the login rule |
| Engine.KumoApi.GetEvents | KumoAJA.API/KumoApi.cs:485-540 | a non-OK status, an empty batch or a mode change returns the shared empty event, the mode change after refreshing the port count and raising SignalSwitchingModeChanged; any other batch returns a newly allocated event (so not the shared one) holding the classified batch; only the port count and the log change |
| Engine.KumoApi.Categorize | KumoAJA.API/KumoApi.cs:519-529 | a new event holding exactly the classification of the batch, or the conversion failure |
| Engine.KumoApi.Catch | KumoAJA.API/KumoApi.cs:735-756 | the fields and notifications are those of the catch-block rule, whose directions `PollRules.FaultDirection` proves: ExpectationFailed connects (announcing true only if disconnected); any other HTTP failure disconnects (announcing false only if connected); other exceptions change nothing |
| Engine.KumoApi.Announce | KumoAJA.API/KumoApi.cs:700-725 | appends exactly the event's notifications and changes no field |
| Engine.KumoApi.Succeed | KumoAJA.API/KumoApi.cs:700-731 | announces the event, records the poll instant and ends connected, reporting true only when it was disconnected; no other field changes |
| Engine.KumoApi.PollEvents | KumoAJA.API/KumoApi.cs:686-761 | the new fields and the appended notifications are exactly those of one cycle |
| Engine.KumoApi.ForcePolling | KumoAJA.API/KumoApi.cs:681-685 | resets LastPooling to MinValue, then runs exactly one cycle |
| Engine.KumoApi.EventOn | KumoAJA.API/KumoApi.cs:648-679 | does nothing while active; otherwise becomes active and holds a task |
| Engine.KumoApi.StartPollingEvents | KumoAJA.API/KumoApi.cs:763-768 | installs an uncancelled token source, then runs EventOn |
| Engine.KumoApi.StopPollingEvents | KumoAJA.API/KumoApi.cs:770-781 | acts only while active and uncancelled: it cancels, drops the task, clears active and resets ConnectId to -1 |
| Engine.KumoApi.Dispose | KumoAJA.API/KumoApi.cs:801-804 | is StopPollingEvents |

## Left out

- HTTP transport and JSON are left out: `GetCommand`, `SetCommand`, `GetConId`, `GetDeviceInformation`, the request halves of `GetEvents` and `Login`, the RestSharp and Newtonsoft calls, and the headers and cookie sent. Their replies are parameters. The password is only sent in the request, so `Login` takes no password.
- The one-line getters and setters are left out (KumoApi.cs:241-401). They are request wrappers. Only the id strings they build are modelled, to prove the digit-extraction round trips.
- `ToAddr` is left out. Its result depends on the platform byte order of `BitConverter` and on `IPAddress` formatting.
- Concurrency is left out: the `SemaphoreSlim`, `Task.Run`, `Task.Delay` and the background loop body. One `PollEvents` call is one atomic step. The `finally Release()` after a cancelled `WaitAsync` is also left out. `hasReportTask` records only whether a task is held, not its identity or its running state.
- The clock is a parameter. `LastPooling` is `MinValue` or `At(now)`.
- Logging is left out.
- The simulator, the interface, the settings and the device information classes are left out. The first two hold no engine behaviour; the last two are UI and JSON data.
- Strings.UpperAscii: case-insensitive comparisons fold ASCII letters only. The engine compares the ASCII words "Locked", "Line_1" and "Line_2". .NET would also fold other letters under its culture rules.
- Strings.IsDigit: `\d` is modelled as the ASCII digits 0-9. .NET's `\d` also matches other Unicode decimal digits.
- Records.EventData: `NameValue` is never null here. `NameValue` calls `ToString()` on the record's string value, so a record whose `str_value` is null or absent throws as soon as its name is read: in the colour helper for every Button_Settings_ record, in the text helper for a Line_1/Line_2 record, and in the lock helper. The exception reaches PollEvents' general catch. That path is not modelled.
- Classifier.ColorOf: `portNum - NumberOfPorts` (KumoApi.cs:597) is 32-bit arithmetic and wraps when the port count is negative and the id's number is large. Here it is an unbounded `int`, which does not wrap.
- The definitions of `KumoColor` and `KumoLock` are not part of this model. `GetChangedColor` and `GetLockedStatus` reuse one `kC`/`kL` instance across iterations. Here each appended record is a value copied when it is added. This is the behaviour of a struct; with a class, every entry would alias the last one.
- `KumoEvent.Empty` is a static, settable property. Here it is one instance owned by each engine (`emptyEvent`), and nothing reassigns or mutates it.
- Classifier.GetChangedText: states that the returned label objects are pairwise distinct, not that each was allocated during the call. `Classifier.AddText` states that the object each iteration adds is new.
- Engine.KumoApi.GetEvents: the port count read on a mode change is a parameter (`ports`). `None` stands for a value `Convert.ToInt32` rejects. `GetCommand` turns any request failure into an empty string, which makes the conversion throw.
- Matrix.GetMatrix: each destination's status is a parameter (`reply`) that already went through `Convert.ToInt32`. `None` stands for a status that does not convert, which includes a failed request.
- Engine.KumoApi.Announce: subscribers are not modelled. Raising an event appends a notification to the log. Here the five category notifications are appended together; nothing runs between them.
- Sources 0 and below are kept in the crosspoint diff. `GetChangedMatrix` and `ConvertDictionary` (KumoApi.cs:441-463) do not filter them, so a status change carrying 0 gives a key 0 (`Classifier.SingleCrosspoint`, `Classifier.InvertMeaning`). The full rebuild, `GetMatrix` (KumoApi.cs:413-435), skips them.
