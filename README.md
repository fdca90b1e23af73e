# Smart-home dashboard: the logic between the vendor calls

This project is a Dafny model of the deterministic logic in a Next.js
smart-home and family-calendar dashboard. The logic sits between the
dashboard's HTTP calls to device vendors and its database calls. It covers:

- **Device command encoders.** These turn a verb into the request sent to:
  - Shark robot vacuums, through the Ayla datapoint API;
  - AI Dot bulbs on the local network;
  - Spotify's Web API player endpoints;
  - Philips Hue.
- **Vendor-response normalisers.** These turn raw vendor records into the
  dashboard's records:
  - the Shark device list, with its property fold;
  - the AI Dot status record;
  - the Hue light map;
  - Google Calendar events.
- **Unit conversions.**
  - Hue brightness on the 0–254 scale against percent.
  - Spotify track durations.
- **Voice-command phrases.** These are the Google Assistant phrase table and
  its templates.
- **The calendar on the main page.**
  - The 42-cell month grid.
  - Grouping meals and tasks by date.
  - The append-only merge of synced Google events.
  - The event colours.
  - The "first four, then +N more" day cell.
- **The grocery and meal pages.**
  - Grocery items grouped by category.
  - Comma-separated ingredient parsing.
  - The rows those pages insert.
- **The API route handlers.** These are the decision tables for Shark
  control, Spotify control, calendar sync and voice commands: 405, 400 or
  401, the mock answer without credentials, 200 and 500.

Every vendor call is a parameter of type `Reply<T>` (in `Common`). It holds
either a status with an already parsed body, or `Threw`, which covers a
network error, a JSON error or an abort. What is built before a call and
decided after it is modelled exactly; the call itself is not. The loose
values in JSON request bodies are `Value`s with JavaScript truthiness
(`Truthy`) and template-literal rendering (`Render`).

Modules, one per source file:

| module | file |
|---|---|
| `Common` | shared values: `Option`, `Value`, `Reply`, `String.prototype.split`, decimal rendering |
| `Shark` | `src/lib/shark.ts` |
| `AiDot` | `src/lib/aidot.ts` |
| `Spotify` | `src/lib/spotify.ts` |
| `Hue` | `src/lib/philips-hue.ts` |
| `Assistant` | `src/lib/google-assistant.ts` |
| `Calendar` | `src/app/page.tsx`; the page's state is the class `Calendar.Dashboard` |
| `Grocery` | `src/app/grocery/page.tsx` |
| `Meals` | `src/app/meals/page.tsx` |
| `SharkControlApi` | `src/pages/api/shark/control.ts` |
| `SpotifyControlApi` | `src/pages/api/spotify/control.ts` |
| `CalendarSyncApi` | `src/pages/api/google-calendar/sync.ts` |
| `AssistantCommandApi` | `src/pages/api/google-assistant/command.ts` |

The source's loops are methods with loop invariants, each proved against a
recursive specification function:

| method | loop in the source |
|---|---|
| `Shark.GetSharkRobots` | device `forEach` with a property `forEach` |
| `Calendar.Dashboard.MonthGrid` | the 42-step grid loop |
| `Calendar.AppendAll`, `Calendar.GroupSynced` | the date-keyed `push` loops |
| `Calendar.MergeInto` | the copy-and-append merge |
| `Grocery.GroupItems` | the category `reduce` |

The page state of the calendar dashboard is a class. Its methods reassign
the month, the selected day and the event map.

Some behaviour of the code is worth knowing. Each point below is proved in
the model:

- **`dock` reads back as cleaning.** The Shark `dock` verb writes
  `operating_mode` = 3. The device listing reads any non-zero
  `operating_mode` as "cleaning". See `Shark.VerbsReadBack`.
- **Unknown or falsy fields fall back to defaults.** A battery level of 0
  shows as 50. An AI Dot brightness of 0 shows as 50.
- **`clean_room` without a room id always fails when a token is set.** It is
  routed to `controlSharkRobot`, which does not know the verb. See
  `SharkControlApi.CleanRoomNeedsRoom`.
- **The two "cozy" phrases differ.** The phrase table's `scene_cozy` phrase
  is "set mood lighting". The cozy scene template is "set cozy lighting".
  See `Assistant.TemplatesMatchTable`.

## Model

| member | source | states |
|---|---|---|
| Common.OrElse | src/pages/api/google-calendar/sync.ts:25 | `s \|\| default` on an optional string: the string itself when it is non-empty, the default otherwise |
| Common.SplitShape | src/app/meals/page.tsx:49 | `split(',')` yields one more piece than there are commas, and no piece contains a comma |
| Common.JoinSplit | src/app/meals/page.tsx:49 | joining the pieces of `split` with the separator gives back the input |
| Common.SplitJoin | src/app/meals/page.tsx:49 | splitting a join of separator-free pieces gives back the pieces |
| Shark.ModeValue | src/lib/shark.ts:162-164 | `mode` writes 0 exactly for "eco", 2 exactly for "max", 1 for anything else including no value |
| Shark.CommandDatapoint | src/lib/shark.ts:145-168 | a datapoint exists exactly for the five known verbs; start/stop/dock are exactly the verbs writing `operating_mode`; values are numbers |
| Shark.ControlRequest | src/lib/shark.ts:145-182 | a request is sent exactly for a known verb, to the datapoint path of the property it writes |
| Shark.ControlSharkRobot | src/lib/shark.ts:135-194 | the result is true exactly when the verb is known and the vendor answered 2xx; unknown verbs and thrown calls give false |
| Shark.CleanRoomRequest | src/lib/shark.ts:198-215 | room cleaning writes the room id to `room_list` at that property's datapoint path |
| Shark.CleanRoom | src/lib/shark.ts:198-223 | the result is true exactly when the vendor answered 2xx |
| Shark.LastNamed | src/lib/shark.ts:104-118 | the reference meaning of the property fold: the last property with a given name, which is in the list and carries that name |
| Shark.FoldIsLastWriterWins | src/lib/shark.ts:104-118 | after the fold, cleaning, docked and battery each come from the last property with their name (cleaning iff value ≠ 0, docked iff value = 1, battery = value or 50 when falsy); charging and mode never change |
| Shark.LastFour | src/lib/shark.ts:85 | `dsn.slice(-4)` is a suffix of the dsn of length min(4, length) |
| Shark.InitialRobot | src/lib/shark.ts:83-101 | id and serial number are the dsn; name falls back to "Shark Robot " + last four; online iff status "Online"; default status; room cleaning and mapping on; self-empty iff the model contains "IQ" or "Matrix" |
| Shark.GetSharkRobots | src/lib/shark.ts:67-132 | the loop yields the reference list of robots when the vendor answered 2xx, and the empty list otherwise |
| Shark.SharkRobotsAppend | src/lib/shark.ts:81-120 | the device filter distributes over concatenation, so robots keep device order |
| Shark.SharkRobotsMembers | src/lib/shark.ts:81-120 | a robot is listed exactly when some device whose model contains "shark" produced it |
| Shark.SharkRobotsIdentity | src/lib/shark.ts:82-88 | every listed robot has id = serial number and a model containing lower-case "shark" |
| Shark.VerbsReadBack | src/lib/shark.ts:104-118 | after a run of verbs is read back by the listing, the robot is cleaning after a final start or dock, not after a final stop, and docked and battery are unchanged |
| Shark.MockRobotState | src/lib/shark.ts:226-244 | the mock robot is online, docked and charging at 85% with id = serial number |
| AiDot.Clamp | src/lib/aidot.ts:59 | the brightness payload is within [0,100], unchanged when in range, 0 below and 100 above |
| AiDot.ComponentOr255 | src/lib/aidot.ts:64-66 | a missing or zero component becomes 255; any other passes through |
| AiDot.ColorPayload | src/lib/aidot.ts:61-67 | no component of the colour payload is 0 |
| AiDot.ControlRequest | src/lib/aidot.ts:51-75 | power, brightness, color and temperature map to their sub-paths and payloads; an unknown verb sends nothing |
| AiDot.ControlAiDotDevice | src/lib/aidot.ts:43-99 | the result is true exactly when the verb is known and the device answered 2xx |
| AiDot.ReplaceChar | src/lib/aidot.ts:113 | every occurrence of one character becomes another and nothing else changes (used with '.' to '_' for the derived id) |
| AiDot.DerivedIdRoundTrip | src/lib/aidot.ts:113 | an IP without underscores is recovered from its derived id |
| AiDot.DerivedIdInjective | src/lib/aidot.ts:113 | two such IPs with the same derived id are equal |
| AiDot.DeviceFromStatus | src/lib/aidot.ts:112-124 | id falls back to the derived id, name to "AI Dot Light (ip)", model "Unknown", type "bulb"; on iff the state says true; brightness 50 when the state or its brightness is missing and also when it is 0; colour and temperature passed through from the state (absent without one); ip is the queried IP and online is true |
| AiDot.GetAiDotDeviceState | src/lib/aidot.ts:103-132 | a record exactly when the status call answered 2xx, for the queried IP |
| AiDot.DiscoverAiDotDevices | src/lib/aidot.ts:24-40 | discovery finds no device |
| Spotify.DeviceParam | src/lib/spotify.ts:107 | the device query is empty exactly when the device id is falsy, and is otherwise `?device_id=` followed by its rendering |
| Spotify.BuildRequest | src/lib/spotify.ts:96-139 | a request exactly for the six known actions; POST exactly for next/previous; a body exactly for transfer; play/pause/next/previous target /me/player/<action> with the device query; volume targets /me/player/volume; transfer sends the device id exactly as passed and `value \|\| false` |
| Spotify.QueryCarriesParameters | src/lib/spotify.ts:107-129 | parsing the query back gives the rendered device id exactly when it is truthy, and the volume for `volume` |
| Spotify.ControlSpotifyPlayback | src/lib/spotify.ts:96-161 | the result is true exactly when the action is known and the answer was 2xx (204 included) |
| Spotify.GetSpotifyPlaybackState | src/lib/spotify.ts:46-69 | a state exactly for a 2xx answer other than 204, and it is the body |
| Spotify.FormatDuration | src/lib/spotify.ts:214-218 | the text is `<digits>:<two digits>`, seconds below 60, and minutes·60 + seconds = ⌊ms/1000⌋ |
| Spotify.DurationSplit | src/lib/spotify.ts:215-216 | whole minutes and the remaining whole seconds add up to the whole seconds |
| Spotify.ProgressPercentage | src/lib/spotify.ts:221-224 | 0 for a zero duration, never above 100, non-negative for non-negative progress, exactly progress/duration·100 within the track |
| Spotify.MockStateDisplay | src/lib/spotify.ts:227-263 | the mock is playing "Blinding Lights", shown as 3:20 |
| Hue.RoundDiv | src/lib/philips-hue.ts:79 | `Math.round(n/d)`: the nearest integer, halves rounded up |
| Hue.NativeToPercent | src/lib/philips-hue.ts:79 | native 0–254 maps into 0–100, with 0 → 0 and 254 → 100 |
| Hue.PercentToNative | src/lib/philips-hue.ts:101 | percent 0–100 maps into 0–254, with 0 → 0 and 100 → 254 |
| Hue.PercentRoundTrip | src/lib/philips-hue.ts:79-101 | for every percent 0–100, converting to native and back gives the same percent |
| Hue.NormaliseLight | src/lib/philips-hue.ts:69-82 | name defaults to "Light <id>", archetype to "light", on to false, type is "light"; brightness is in 0–100 for native 0–254, and 0 when missing |
| Hue.GetHueDevices | src/lib/philips-hue.ts:59-87 | one record per entry of the light map, in order; a thrown call or a missing body gives no lights |
| Hue.ControlBody | src/lib/philips-hue.ts:96-108 | `on` sends {on: value}; brightness sends `round(p*254/100)` for every percent, which for 0–100 lies in 0–254 and reads back as the requested percent; colour sends the xy body of its RGB components; any other command sends {} |
| Hue.ControlHueDevice | src/lib/philips-hue.ts:89-124 | a thrown call is rethrown; otherwise the parsed body is returned |
| Hue.AuthParams | src/lib/philips-hue.ts:24-33 | the authorisation URL carries the client id, `response_type=code`, scope "read write" and the callback under the base URL |
| Hue.TokenParams | src/lib/philips-hue.ts:35-49 | the token request carries grant type `authorization_code`, the code, the client id and the same callback |
| Hue.ExchangeMatchesAuthorize | src/lib/philips-hue.ts:24-49 | the token request repeats the redirect URI and client id of the authorisation request |
| Hue.AccessToken | src/lib/philips-hue.ts:51-56 | a token exactly when the call answered with a non-empty `access_token`, and it is that string |
| Assistant.CreateVoiceCommand | src/lib/google-assistant.ts:14-27 | turn_on/turn_off/brightness/color phrases around the device; unknown actions fall back to "<action> <device>" |
| Assistant.ScenesIgnoreDevice | src/lib/google-assistant.ts:20-23 | scene phrases are non-empty and do not depend on device or value |
| Assistant.DeviceRecoverable | src/lib/google-assistant.ts:14-27 | outside the scenes, the phrase determines the device |
| Assistant.ExecuteVoiceCommand | src/lib/google-assistant.ts:31-49 | always success, with message `Voice command ready: "<command>"` quoting the command |
| Assistant.ExecutionInjective | src/lib/google-assistant.ts:31-41 | the message determines the command |
| Assistant.TemplatesMatchTable | src/lib/google-assistant.ts:100-115 | turnOn/turnOff/color templates equal the table's phrases for "<room> lights"; bright and off scenes agree with the table; cozy does not |
| Assistant.DimCarriesLevel | src/lib/google-assistant.ts:104 | the dim phrase ends in the level in decimal followed by '%' |
| Calendar.GroupSpec | src/app/page.tsx:292-304 | after grouping, a date key is present iff it was before or some event has it, and its list is the old list followed by those events in input order |
| Calendar.DatedCarriesKey | src/app/page.tsx:292-304 | every event grouped under a date has that date and comes from the input |
| Calendar.AppendAll | src/app/page.tsx:343-366 | the push loop computes the grouping specification |
| Calendar.MealEvent | src/app/page.tsx:343-353 | a meal becomes a meal event titled "<meal_type>: <title>" on its date |
| Calendar.TaskEvent | src/app/page.tsx:355-366 | a task becomes a task event on its due date carrying its priority |
| Calendar.MealEvents | src/app/page.tsx:343-353 | one event per meal in order; none when the query failed |
| Calendar.TaskEvents | src/app/page.tsx:355-366 | one event per task in order; none when the query failed |
| Calendar.FetchedLayout | src/app/page.tsx:341-368 | each date holds its meals, then its tasks, each in input order |
| Calendar.Merge | src/app/page.tsx:307-314 | the merged map has the keys of both, each list the old events followed by the new |
| Calendar.MergeGroup | src/app/page.tsx:292-314 | merging the grouped sync into the events equals grouping the sync straight into them |
| Calendar.MergeAppendsOnly | src/app/page.tsx:307-314 | existing events of a date stay a prefix; dates absent from the sync are unchanged |
| Calendar.SyncedEvent | src/app/page.tsx:296-303 | id "google-" + vendor id, the title, type reminder and person "both" |
| Calendar.SyncedEvents | src/app/page.tsx:292-304 | one synced event per vendor event, in order, under its date key |
| Calendar.SyncAppends | src/app/page.tsx:283-314 | a sync keeps every existing event as a prefix of its date and adds only synced events |
| Calendar.GroupSynced | src/app/page.tsx:292-304 | the loop groups the synced events exactly when every event has a date key |
| Calendar.MergeInto | src/app/page.tsx:307-314 | the copy-and-append loop computes the merge specification |
| Calendar.EventColor | src/app/page.tsx:443-460 | the colour is one of the eight palette classes (green, pink, blue, red, orange, yellow, purple, gray) |
| Calendar.PersonTakesPrecedence | src/app/page.tsx:443-447 | you, girlfriend and both give green, pink and blue whatever the type |
| Calendar.ColorByType | src/app/page.tsx:448-460 | without a person: meals blue, tasks by priority urgent/high/medium else purple, reminders gray |
| Calendar.SyncedAndMealsAreBlue | src/app/page.tsx:443-460 | synced events and meal events are blue |
| Calendar.DayCell | src/app/page.tsx:673-685 | a cell shows the first min(4, n) events and a tag exactly when n > 4 |
| Calendar.DayCellAccounts | src/app/page.tsx:673-685 | the tag reads "+N more" and the shown events plus N make up all of the day's events |
| Calendar.Weekday | src/app/page.tsx:377 | the weekday index of a day number is in 0–6 |
| Calendar.CivilAnchors | src/app/page.tsx:371-386 | 1 January 1970 is day 0, a Thursday; days of a month are consecutive |
| Calendar.GridCoversMonth | src/app/page.tsx:371-386 | 42 consecutive days reaching from the first to the last of the month contain every day of the month |
| Calendar.MonthLength | src/app/page.tsx:371-386 | every month has 28 to 31 days |
| Calendar.NextMonthStart | src/app/page.tsx:371-386 | for every month, February of leap and common years included, the next month starts right after the last day of this one |
| Calendar.FebruaryToMarch | src/app/page.tsx:371-386 | March 1st follows February 1st by 29 days exactly in the years the Gregorian leap rule accepts, and by 28 otherwise |
| Calendar.ShiftMonth | src/app/page.tsx:401-408 | the month moves by the given amount with the year carrying over, the month staying in 0–11 |
| Calendar.ShiftMonthInverse | src/app/page.tsx:401-408 | next then previous, and previous then next, give back the month |
| Calendar.ShiftMonthUnique | src/app/page.tsx:401-408 | a (year, month) pair is fixed by its month count |
| Calendar.Dashboard.constructor | src/app/page.tsx:22-24 | the page opens on the current month with no selected day and no events |
| Calendar.Dashboard.NavigateMonth | src/app/page.tsx:401-408 | the month shifts by exactly ±1, the selected day is cleared and the events are kept |
| Calendar.Dashboard.MonthGrid | src/app/page.tsx:371-386 | 42 consecutive days starting on the Sunday on or before the 1st and reaching past the month's last day |
| Calendar.Dashboard.FetchAllEvents | src/app/page.tsx:321-369 | the events are replaced by the fetched meals and tasks grouped by date; the displayed month and the selection are unchanged and stay valid |
| Calendar.Dashboard.SyncGoogleCalendar | src/app/page.tsx:283-319 | the events become the sync result; nothing changes without a token or a response; the displayed month and the selection are unchanged and stay valid |
| Grocery.GroupKey | src/app/grocery/page.tsx:113 | the key is the category, or "other" when it is null or empty; never empty |
| Grocery.InGroupAppend | src/app/grocery/page.tsx:112-119 | grouping distributes over concatenation, so items keep their input order within a group |
| Grocery.InGroupMembers | src/app/grocery/page.tsx:112-119 | an item is in a group exactly when its key is that group's key, so each item is in exactly one group |
| Grocery.KeyOrderSpec | src/app/grocery/page.tsx:112-119 | the group keys are distinct and listed exactly when their group is non-empty |
| Grocery.GroupSizesSum | src/app/grocery/page.tsx:112-119 | the group sizes add up to the item count |
| Grocery.GroupItems | src/app/grocery/page.tsx:112-119 | the reduce yields the keys in first-appearance order, each mapped to its non-empty group |
| Grocery.NoGroupsIffNoItems | src/app/grocery/page.tsx:221-225 | there are no groups to list exactly when there are no items |
| Grocery.TogglePayload | src/app/grocery/page.tsx:81-84 | the flag written differs from the current one |
| Grocery.InsertPayload | src/app/grocery/page.tsx:62-70 | name, quantity and category are copied, a NaN quantity (an emptied number field) going out as null; an empty meal choice becomes null |
| Grocery.InsertPayloadRoundTrip | src/app/grocery/page.tsx:62-70 | the form can be read back from the inserted row |
| Grocery.FormAfterInsert | src/app/grocery/page.tsx:72-78 | after a successful insert the form is empty with quantity 1 and category "produce"; after an error it is kept |
| Meals.TrimStart | src/app/meals/page.tsx:49 | a suffix of the input whose dropped prefix is all whitespace and which does not start with whitespace |
| Meals.TrimEnd | src/app/meals/page.tsx:49 | a prefix of the input whose dropped suffix is all whitespace and which does not end with whitespace |
| Meals.Trim | src/app/meals/page.tsx:49 | neither end of the result of `trim()` is whitespace |
| Meals.TrimMiddle | src/app/meals/page.tsx:49 | `trim()` keeps a contiguous middle of its input, and what it drops at either end is whitespace |
| Meals.TrimTrimmed | src/app/meals/page.tsx:49 | a string without surrounding whitespace is unchanged |
| Meals.TrimIdempotent | src/app/meals/page.tsx:49 | trimming twice is trimming once |
| Meals.ParseIngredients | src/app/meals/page.tsx:49 | as many ingredients as commas plus one, none with surrounding whitespace or a comma |
| Meals.IngredientOrder | src/app/meals/page.tsx:49 | the i-th ingredient is the i-th piece trimmed, and the pieces joined with "," give back the input |
| Meals.EmptyIngredients | src/app/meals/page.tsx:49 | an empty field gives one empty ingredient |
| Meals.ParseJoin | src/app/meals/page.tsx:49 | a list of clean ingredients written out with commas parses back to itself |
| Meals.MealInsertPayload | src/app/meals/page.tsx:42-51 | text fields copied; the ingredients are exactly the parsed form of the comma list (so the order and join lemmas of `ParseIngredients` apply to the row sent), one per comma-separated piece, each trimmed |
| Meals.MealFormAfterInsert | src/app/meals/page.tsx:53-58 | after a successful insert the form is empty with type "dinner"; after an error it is kept |
| SharkControlApi.Route | src/pages/api/shark/control.ts:32-36 | room cleaning exactly for the verb `clean_room` with a truthy room id; anything else goes to the verb adapter |
| SharkControlApi.Dispatch | src/pages/api/shark/control.ts:5-36 | no vendor call exactly for a rejected request or a missing token |
| SharkControlApi.Perform | src/pages/api/shark/control.ts:32-36 | a routed call succeeds exactly as its adapter does |
| SharkControlApi.Handle | src/pages/api/shark/control.ts:4-56 | 405 for non-POST; 400 without robot id or command; mock 200 without a token; otherwise 200/500 from the adapter with the matching message; 500 for a body that throws |
| SharkControlApi.StatusCodes | src/pages/api/shark/control.ts:4-56 | only 200, 400, 405 and 500 are sent; `success` is absent exactly on 400/405 and true exactly on 200 |
| SharkControlApi.MockIgnoresVendor | src/pages/api/shark/control.ts:19-28 | without a token there is no call and the vendor's answer cannot change the response |
| SharkControlApi.SuccessMeansDispatched | src/pages/api/shark/control.ts:30-48 | with a token, 200 exactly when the routed adapter call succeeds |
| SharkControlApi.CleanRoomNeedsRoom | src/pages/api/shark/control.ts:32-48 | with a token, `clean_room` without a room id always answers 500 |
| SpotifyControlApi.AdapterRequest | src/pages/api/spotify/control.ts:30 | the adapter builds a request exactly for a known action; the body's device id reaches it unchanged, so play/pause/next/previous carry the device query of that value and `transfer` sends that very value in its device list |
| SpotifyControlApi.Handle | src/pages/api/spotify/control.ts:4-50 | 405 for non-POST; 400 without action; mock 200 without a token; otherwise 200/500 from the adapter with the matching message; 500 for a body that throws |
| SpotifyControlApi.StatusCodes | src/pages/api/spotify/control.ts:4-50 | only 200, 400, 405 and 500 are sent; `success` is absent exactly on 400/405 and true exactly on 200 |
| SpotifyControlApi.MockIgnoresVendor | src/pages/api/spotify/control.ts:19-28 | without a token there is no call and the vendor's answer cannot change the response |
| SpotifyControlApi.SuccessMeansRequestSent | src/pages/api/spotify/control.ts:30-42 | with a token, 200 means a request was built and the vendor accepted it |
| CalendarSyncApi.TimeOf | src/pages/api/google-calendar/sync.ts:26-27 | the timed field when non-empty, else the date-only field |
| CalendarSyncApi.Transform | src/pages/api/google-calendar/sync.ts:23-31 | id kept, title the summary or "Untitled Event" (never empty), start/end by `TimeOf`, description and location kept, source "google" |
| CalendarSyncApi.TransformAll | src/pages/api/google-calendar/sync.ts:23-31 | one record per event, in order |
| CalendarSyncApi.TransformAllAppend | src/pages/api/google-calendar/sync.ts:23-31 | the transform works event by event over concatenations |
| CalendarSyncApi.IdsPreserved | src/pages/api/google-calendar/sync.ts:23-31 | the i-th output has the i-th input's id and source "google" |
| CalendarSyncApi.Handle | src/pages/api/google-calendar/sync.ts:5-37 | 405 for non-GET; 500 when the session lookup throws; 401 without an access token; otherwise 200 with the transformed events |
| CalendarSyncApi.UnauthenticatedIgnoresCalendar | src/pages/api/google-calendar/sync.ts:16-18 | without an access token the calendar's contents cannot change the response and no events are sent |
| AssistantCommandApi.Instructions | src/pages/api/google-assistant/command.ts:23 | `Say to your Google Home/Assistant: "<command>"` quoting the command |
| AssistantCommandApi.InstructionsInjective | src/pages/api/google-assistant/command.ts:23 | the instructions determine the command |
| AssistantCommandApi.Handle | src/pages/api/google-assistant/command.ts:4-28 | 405 for non-POST; 500 for a body that throws; 400 without a command; otherwise success and message from the execution of the rendered command, the command echoed as received (a number stays a number) and the instructions quoting the rendered command |
| AssistantCommandApi.AcceptedCommandsSucceed | src/pages/api/google-assistant/command.ts:17-24 | every accepted command succeeds, is echoed as received, and both message and instructions quote its rendering |

## Left out

- HTTP, environment variables, JSON parsing and timeouts. Every vendor call is a `Reply` parameter holding the status and the parsed body, or a throw. The base URLs and headers are not modelled.
- Hue.ControlBody: the colour command's RGB to CIE xy conversion is floating-point arithmetic, so the `XyBody` carries the RGB components it would be computed from.
- AiDot.ControlRequest: the brightness value is a present whole number and the colour value is present. A missing brightness would be clamped to NaN and POSTed as null, a fractional one would pass the clamp unchanged, and a missing colour would throw and make `controlAiDotDevice` return false; none of these is modelled.
- Hue.ControlBody: the brightness percent is a present whole number and the colour value is present. A missing percent would send a NaN (null) `bri`, a fractional one would be rounded, and a missing colour would throw when destructured and be rethrown; none of these is modelled.
- Spotify.ProgressPercentage: computed in exact reals, not IEEE doubles.
- JavaScript coercion of request values that are objects or arrays is not modelled. The fields of the API request bodies and the `on`, `temperature` and assistant values are a `Value` (missing, null, boolean, integer or string); the numeric command values listed below are not. The model covers its truthiness, its rendering in a template literal, and passing it on unchanged (the Spotify device id goes into the transfer body as it arrived; the Assistant command is echoed as it arrived).
- SharkControlApi.Route: a non-string robot id or room id reaches the adapter as its template rendering. The model does not carry the raw JSON value.
- Database queries and inserts. The query results are parameters, and a failed query gives `None`. The inserted rows are modelled as values; the database's answer is not.
- The Google Calendar client and the NextAuth session lookup are not part of this model. They are parameters: the fetched events, and a session lookup that can throw.
- Date keys. The page derives them with `toISOString`, which depends on the time zone, so `Calendar.GroupSynced` takes the date-key function as a parameter. Calendar days are serial day numbers from the proleptic Gregorian calendar.
- Calendar.Dashboard.NavigateMonth: only the month index is modelled. How JavaScript's `setMonth` overflows the day of the month (31 January plus one month) is not.
- The `details` field and the manual add-event form of the calendar page are not part of this model.
- Assistant.ExecuteVoiceCommand: the catch branch cannot be reached, since nothing in the try block throws, so it is not modelled.
- The 500 bodies of the handlers include `error.message` in some files. The model keeps the fixed message only.
- Object keys. JavaScript objects used as dictionaries treat a few keys specially: `Object.entries` lists integer-like keys first, and `__proto__` is inherited. The grouping maps and the phrase table model plain dictionaries with insertion order.
- URL encoding. The Hue authorisation URL is modelled as its parameter list, before `URLSearchParams` encodes it.
- Speech recognition (`VoiceController`), kiosk mode, localStorage, timers and rendering are not part of this model.
- The OAuth bootstrap pages, the pass-through device handlers, the Govee adapter and the backup copy of the main page are not part of this model.
