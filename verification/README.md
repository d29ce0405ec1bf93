# Cloud Functions collector: a Dafny model

This project models the Google Cloud Functions collector of the SpaceONE inventory plugin.
It covers `FunctionManager.collect_cloud_service` and its three helpers:

- **Function listing loop.** `collect_cloud_service` walks the functions listed for one project and builds, for each one:
  - a display block;
  - the function data (the listed record plus `project` and `display`);
  - a `FunctionResource` envelope and a `FunctionResponse`.

  An item that raises at any step becomes an error response instead. That error response carries the group, the type and the `function_id` variable as it stood at that moment.
- **`_make_location_and_id`.** The name is split on `projects/{project_id}/locations/`, then on `/`. Both tuple unpackings raise `ValueError` unless the piece count is exact.
- **`_make_readable_environment`.** A fixed three-entry table. A miss raises `KeyError`; a key that cannot be hashed raises `TypeError`.
- **`_make_last_deployed`.** The update time is split on `.`, and the part before it is read with `strptime('%Y-%m-%dT%H:%M:%S')`. Nine hours are added, which raises `OverflowError` past year 9999. The result is written with `strftime('%m/%d, %Y,%I:%M:%S %p')` in the C locale.

Python's behaviour is modelled as pure Dafny functions. Every exception becomes a `Fault` value, and each helper returns a `Result`.

Modules:

| Module | What it holds |
|---|---|
| `Results` | `Option` and `Result` |
| `Values` | JSON-like listed records, `dict.get` and `d[k]`, the exception kinds |
| `Strings` | `str.find`, `str.split`, `str.join`, fixed-width decimal digits |
| `Identity` | `_make_location_and_id` |
| `Environment` | `_make_readable_environment` |
| `Calendar` | the proleptic Gregorian calendar (`date.toordinal`), `datetime + timedelta(hours=9)` |
| `Formats` | the `strptime` and `strftime` formats used |
| `LastDeployed` | `_make_last_deployed` |
| `FunctionManager` | the per-item body, its reference fold and the loop |

The loop is stated against a reference fold.

- `Steps` applies the per-item body `ProcessItem` to every listed item.
- `Successes`, `Errors`, `Regions` and `LastParsedId` read the responses, the error responses, the region codes registered and the current `function_id` off those steps.
- The loop in `CollectCloudService` is proved to compute exactly these.
- The lemmas relate the fold to the properties the collector promises:
  - one answer per item;
  - batch isolation;
  - the id carried by error responses;
  - every response's region is registered.

Three consequences of the code as written:

- **Name check.** Any text before the marker is accepted, and the middle segment is never checked to be `functions`.
- **Faults.** Faults are Python's own `ValueError`, `KeyError`, `TypeError`, `AttributeError` and `OverflowError`, plus whatever the schema models raise.
- **Batch isolation.** N items with K malformed names give N-K responses and K errors only when every well-named item succeeds, so `FunctionManager.BatchIsolation` requires that.

Idempotence of the per-item normaliser holds by construction: `ProcessItem` is a pure function of the record, the project id and the schema models.

## Model

| member | source | states |
|---|---|---|
| Identity.ParseName | src/spaceone/inventory/manager/cloud_functions/function_manager.py:117-118 | on success the name is the discarded prefix, the marker `projects/{id}/locations/` and three `/`-free segments joined by `/`; the marker does not occur before the prefix ends nor in the tail; any failure is a ValueError of the unpacking |
| Identity.MakeLocationAndId | src/spaceone/inventory/manager/cloud_functions/function_manager.py:116-119 | succeeds exactly when both unpackings succeed; the location and id are `/`-free and the name ends with `/` followed by the id |
| Identity.LocationAndIdAccepted | src/spaceone/inventory/manager/cloud_functions/function_manager.py:116-119 | a name with the marker exactly once, followed by three `/`-free segments, yields its first and third segment, whatever the prefix and the middle segment |
| Identity.LocationAndIdRejectsMissingMarker | src/spaceone/inventory/manager/cloud_functions/function_manager.py:117 | without the marker the first unpacking gets one piece and raises ValueError (expected 2, got 1) |
| Identity.LocationAndIdRejectsRepeatedMarker | src/spaceone/inventory/manager/cloud_functions/function_manager.py:117 | two non-overlapping copies of the marker make the first unpacking fail |
| Identity.LocationAndIdRejectsSegmentCount | src/spaceone/inventory/manager/cloud_functions/function_manager.py:118 | with the marker once, a tail whose `/` count is not two raises ValueError (expected 3, got that count plus one) |
| Identity.LocationAndIdSuccessShape | src/spaceone/inventory/manager/cloud_functions/function_manager.py:117-118 | success implies the marker occurs where the prefix ends and the tail holds exactly two `/` |
| Identity.ScenarioName | src/spaceone/inventory/manager/cloud_functions/function_manager.py:116-119 | `projects/p1/locations/us-central1/functions/f1` with project `p1` gives `("us-central1", "f1")` |
| Strings.FindFrom | src/spaceone/inventory/manager/cloud_functions/function_manager.py:117 | the result is the leftmost occurrence at or after the start, or there is none |
| Strings.Split | src/spaceone/inventory/manager/cloud_functions/function_manager.py:117-118 | `str.split(sep)`: at least one piece; joining the pieces with the separator gives the input back; no piece contains the separator; one piece exactly when the separator does not occur; the first cut is at the leftmost occurrence |
| Strings.SplitCharCount | src/spaceone/inventory/manager/cloud_functions/function_manager.py:118 | splitting on a character gives one more piece than the character has occurrences |
| Strings.SplitCharTwo | src/spaceone/inventory/manager/cloud_functions/function_manager.py:132 | `a + c + b` with `c`-free fields splits into exactly `[a, b]` |
| Strings.SplitCharThree | src/spaceone/inventory/manager/cloud_functions/function_manager.py:118 | `a/b/d` with `/`-free fields splits into exactly `[a, b, d]` |
| Strings.DecimalRoundTrip | src/spaceone/inventory/manager/cloud_functions/function_manager.py:133 | a number written zero-padded in enough digits reads back as itself |
| Strings.DecimalOfValue | src/spaceone/inventory/manager/cloud_functions/function_manager.py:133 | a run of digits is the zero-padded writing of the number it spells |
| Environment.ReadableEnvironment | src/spaceone/inventory/manager/cloud_functions/function_manager.py:121-128 | gives "1st gen", "2nd gen" or "unspecified" exactly for GEN_1, GEN_2 and ENVIRONMENT_UNSPECIFIED; every other value raises KeyError, or TypeError when it cannot be hashed |
| Calendar.NextDay | src/spaceone/inventory/manager/cloud_functions/function_manager.py:134 | the next day is a valid date whose ordinal is one more |
| Calendar.AddDays | src/spaceone/inventory/manager/cloud_functions/function_manager.py:134 | the date n days on is valid and its ordinal is n more |
| Calendar.YearStep | src/spaceone/inventory/manager/cloud_functions/function_manager.py:134 | the days before a year grow by exactly that year's length |
| Calendar.OrdinalMonotone | src/spaceone/inventory/manager/cloud_functions/function_manager.py:134 | an earlier valid date has a smaller ordinal |
| Calendar.OrdinalInjective | src/spaceone/inventory/manager/cloud_functions/function_manager.py:134 | valid dates with the same ordinal are the same date |
| Calendar.AddHours | src/spaceone/inventory/manager/cloud_functions/function_manager.py:134 | adding hours gives a valid datetime whose seconds count is that many hours later, with minutes and seconds unchanged |
| Calendar.AddHoursUnique | src/spaceone/inventory/manager/cloud_functions/function_manager.py:134 | the result of adding hours is the only valid datetime that many hours later |
| Calendar.ShiftedDate | src/spaceone/inventory/manager/cloud_functions/function_manager.py:134 | nine hours on, the date moves to the next day exactly when the hour is 15 or more |
| Calendar.ShiftToDisplayZone | src/spaceone/inventory/manager/cloud_functions/function_manager.py:134 | `+ timedelta(hours=9)` stays within year 9999 and is nine hours later with the same minutes and seconds, and raises OverflowError exactly from 9999-12-31 15:00 on |
| LastDeployed.ShownLocalTime | src/spaceone/inventory/manager/cloud_functions/function_manager.py:133-135 | a parse failure is passed on; otherwise it raises OverflowError exactly from 9999-12-31 15:00, and a produced text reads back as the parsed instant nine hours later, minutes and seconds unchanged |
| Formats.ParseIso | src/spaceone/inventory/manager/cloud_functions/function_manager.py:133 | a parsed datetime lies within years 1-9999; a failure is ValueError, either a layout mismatch or a field out of range |
| Formats.ParseIsoShape | src/spaceone/inventory/manager/cloud_functions/function_manager.py:133 | a text that parses has the layout `YYYY-MM-DDTHH:MM:SS` and spells exactly the parsed fields |
| Formats.ParseIsoAccepts | src/spaceone/inventory/manager/cloud_functions/function_manager.py:133 | every text of that layout spelling an in-range datetime parses to that datetime |
| Formats.ParseIsoRoundTrip | src/spaceone/inventory/manager/cloud_functions/function_manager.py:133 | parsing the ISO text of a datetime gives the datetime back |
| Formats.ParseIsoRejectsMissingDay | src/spaceone/inventory/manager/cloud_functions/function_manager.py:133 | a well-laid-out text whose day does not exist in its month fails |
| Formats.ClockHour | src/spaceone/inventory/manager/cloud_functions/function_manager.py:135 | `%I` and `%p`: 0 is 12 AM, 1-11 AM, 12 is 12 PM, 13-23 are 1-11 PM, and the pair determines the hour |
| Formats.ClockOfHourOfClock | src/spaceone/inventory/manager/cloud_functions/function_manager.py:135 | every 12-hour clock reading is the reading of exactly one hour |
| Formats.DisplayText | src/spaceone/inventory/manager/cloud_functions/function_manager.py:135 | `strftime('%m/%d, %Y,%I:%M:%S %p')`: the 23-character text has the layout `MM/DD, YYYY,hh:mm:ss AM` or `PM`, each field zero-padded and spelling the datetime's month, day, year, 12-hour clock, minute, second and half of the day |
| Formats.ParseDisplay | src/spaceone/inventory/manager/cloud_functions/function_manager.py:135 | a display text that reads back gives an in-range datetime it spells |
| Formats.DisplayRoundTrip | src/spaceone/inventory/manager/cloud_functions/function_manager.py:135 | reading back the display text of a datetime gives the datetime: the format loses nothing |
| LastDeployed.MakeLastDeployed | src/spaceone/inventory/manager/cloud_functions/function_manager.py:130-135 | succeeds only when the update time holds exactly one `.` |
| LastDeployed.LastDeployedNeedsOneDot | src/spaceone/inventory/manager/cloud_functions/function_manager.py:132 | with any other number of dots the unpacking raises ValueError (expected 2, got dots plus one) |
| LastDeployed.LastDeployedWithoutDot | src/spaceone/inventory/manager/cloud_functions/function_manager.py:132 | a time without a fractional part fails with ValueError (expected 2, got 1) |
| LastDeployed.LastDeployedIgnoresFraction | src/spaceone/inventory/manager/cloud_functions/function_manager.py:132 | the text after the dot never changes the result |
| LastDeployed.LastDeployedShowsShiftedInstant | src/spaceone/inventory/manager/cloud_functions/function_manager.py:132-135 | with one dot, a parse failure is passed on; otherwise the text shows the parsed instant nine hours later, minutes and seconds unchanged, and it raises OverflowError exactly past year 9999 |
| LastDeployed.LastDeployedExample | src/spaceone/inventory/manager/cloud_functions/function_manager.py:131-135 | `2023-05-01T10:00:00.123456` is shown as `05/01, 2023,07:00:00 PM` |
| LastDeployed.LastDeployedExampleWithoutFraction | src/spaceone/inventory/manager/cloud_functions/function_manager.py:132 | `2023-05-01T10:00:00` fails with ValueError (expected 2, got 1) |
| LastDeployed.ScenarioUpdateTime | src/spaceone/inventory/manager/cloud_functions/function_manager.py:131-135 | `2023-01-01T00:00:00.000000` is shown as 2023-01-01 09:00:00 |
| FunctionManager.ProjectIdOf | src/spaceone/inventory/manager/cloud_functions/function_manager.py:46-47 | succeeds exactly when `secret_data` is a dict holding a string `project_id`, and gives that string; a missing `secret_data` raises KeyError("secret_data"), a `secret_data` that is not a dict raises TypeError, and a dict without `project_id` raises KeyError("project_id") |
| FunctionManager.NameOf | src/spaceone/inventory/manager/cloud_functions/function_manager.py:63-64 | `function.get('name')` used as a string: succeeds exactly when `name` is a string and gives its text; otherwise the `split` call raises AttributeError |
| FunctionManager.Identify | src/spaceone/inventory/manager/cloud_functions/function_manager.py:63-64 | a missing or non-string name raises AttributeError; otherwise the result is `_make_location_and_id` of the name's text |
| FunctionManager.EnvironmentOf | src/spaceone/inventory/manager/cloud_functions/function_manager.py:71 | a missing `environment` raises KeyError("environment"); otherwise the result is the label lookup of the stored value, which succeeds exactly for the three table keys |
| FunctionManager.LastDeployedOf | src/spaceone/inventory/manager/cloud_functions/function_manager.py:73 | a missing `updateTime` raises KeyError("updateTime"), a non-string one AttributeError from `split`; a string is formatted by `_make_last_deployed` |
| FunctionManager.FunctionData | src/spaceone/inventory/manager/cloud_functions/function_manager.py:80-84 | `function.update`: the keys are the record's plus `project` and `display`, every other field is unchanged, and the two new fields hold the project id and the display dict |
| FunctionManager.BuildResource | src/spaceone/inventory/manager/cloud_functions/function_manager.py:70-99 | the environment fault comes first, then the last-deployed fault; once both translate, the result is exactly the validated resource for the translated display; a built resource means both translated, and it carries the name, the project as account, the labels as tags, the location as region, an empty type, size 0, the function data with the translated display, and its reference |
| FunctionManager.CheckedResource | src/spaceone/inventory/manager/cloud_functions/function_manager.py:80-99 | a fault of `Function(...)` is raised before the resource is built; once the function data is accepted, the result succeeds exactly when `FunctionResource` accepts the resource, and otherwise carries its fault; a built resource holds `project` and `display` in its data, the name, the account, the labels as tags, the display region, and was accepted by `FunctionResource` |
| FunctionManager.ProcessItem | src/spaceone/inventory/manager/cloud_functions/function_manager.py:63-104 | the id is assigned exactly when the name parses; a name failure is the item's fault; a region is registered only for a parsed name and is its location; every success registers one |
| FunctionManager.ItemFaultOrder | src/spaceone/inventory/manager/cloud_functions/function_manager.py:70-100 | after the name parses, an environment fault comes first, then a last-deployed fault; neither registers a region |
| FunctionManager.ItemSchemaFaultOrder | src/spaceone/inventory/manager/cloud_functions/function_manager.py:85-104 | once both display fields translate, a `Function` fault, then a `FunctionResource` fault, is the item's fault with no region registered; a `FunctionResponse` fault is the item's fault with the location already registered; when all three accept, the item succeeds with the built resource and its location |
| FunctionManager.SuccessIsEnvelope | src/spaceone/inventory/manager/cloud_functions/function_manager.py:80-104 | a succeeding item's resource has the name, project id, labels and location, an empty type, size 0, the function data and its reference |
| FunctionManager.AcceptedItem | src/spaceone/inventory/manager/cloud_functions/function_manager.py:63-104 | an item whose name and fields translate, under accepting schema models, succeeds with its location, its labels as tags and the display dict built from the translations |
| FunctionManager.TypicalRecord | src/spaceone/inventory/manager/cloud_functions/function_manager.py:63-104 | a GEN_2 record named `projects/p1/locations/us-central1/functions/f1` with labels `{env: prod}` gives region `us-central1`, those tags, and "2nd gen" and "f1" on display |
| FunctionManager.LastParsedId | src/spaceone/inventory/manager/cloud_functions/function_manager.py:44-64 | `function_id` is "" or the id some item parsed |
| FunctionManager.Successes | src/spaceone/inventory/manager/cloud_functions/function_manager.py:104 | no more responses than items; a response is collected exactly when some item's outcome was that response |
| FunctionManager.Errors | src/spaceone/inventory/manager/cloud_functions/function_manager.py:106-110 | no more error responses than items; every one carries the manager's group and type and the fault some item raised |
| FunctionManager.Regions | src/spaceone/inventory/manager/cloud_functions/function_manager.py:100 | a location is registered exactly when some item registered it |
| FunctionManager.CollectCloudService | src/spaceone/inventory/manager/cloud_functions/function_manager.py:42-113 | a project id fault and a listing fault escape; otherwise the responses, error responses and registered regions are those of the reference fold over the listed items, and their counts add up to the number of items |
| FunctionManager.StepsExtend | src/spaceone/inventory/manager/cloud_functions/function_manager.py:57-110 | one more item adds its response or one error response carrying the current id, adds its region if any, and updates the id when its name parsed |
| FunctionManager.EveryStepAnswered | src/spaceone/inventory/manager/cloud_functions/function_manager.py:57-110 | every item yields exactly one response or one error response |
| FunctionManager.LastParsedIdIsLatest | src/spaceone/inventory/manager/cloud_functions/function_manager.py:64 | `function_id` holds the id parsed by the latest item whose name parsed |
| FunctionManager.LastParsedIdInitial | src/spaceone/inventory/manager/cloud_functions/function_manager.py:44 | until a name parses, `function_id` is still "" |
| FunctionManager.ErrorCarriesLatestId | src/spaceone/inventory/manager/cloud_functions/function_manager.py:106-110 | a failing item's error response carries its own id when its name parsed, and otherwise the id left by earlier items |
| FunctionManager.MalformedNameReportsPreviousId | src/spaceone/inventory/manager/cloud_functions/function_manager.py:106-110 | an item with a malformed name right after a well-named one is reported under the earlier item's id |
| FunctionManager.RegionsRegistered | src/spaceone/inventory/manager/cloud_functions/function_manager.py:100-104 | the region of every collected response has been registered, and there are at least as many registrations as responses |
| FunctionManager.BatchIsolation | src/spaceone/inventory/manager/cloud_functions/function_manager.py:57-110 | when every well-named item goes on to succeed, the responses are those of the well-named items in listing order, and the error count is the number of malformed names |

## Left out

- Logging, the `print` calls and the `time.time` measurement (lines 38, 40, 58, 76, 105, 107, 112) do not affect the result and are not modelled.
- The connector lookup and `list_functions()` (lines 49, 55) are not modelled. Their result, a list or a fault, is the `listing` parameter of `FunctionManager.CollectCloudService`.
- The schematics models `Function`, `FunctionResource`, `FunctionResponse` and `ReferenceModel` are not part of this model. They are the `Models` hooks: validators that accept or raise, and the reference builder.
- `set_region_code` and `generate_resource_error_response` belong to the base manager, which is not part of this model. The registered regions are returned as a sequence, and the error response is the tuple of its arguments.
- The listed record is mutated in place by `function.update`; the model builds a new record, because nothing reads the old one afterwards.
- Numbers in listed records are integers; floating-point JSON values are not modelled.
- The unused `pytz` import has no effect.
- `strftime` is modelled in the C locale (`AM`/`PM`). Other locales are not modelled.
- Formats.ParseIso: only the fixed-width fields `strftime` writes are accepted. Python's `strptime` also accepts one-digit months, days, hours, minutes and seconds, a day written as a space and one digit (`2023-05- 1T10:00:00`), and non-ASCII digits; the model reports these as a layout mismatch.
- Formats.DisplayText: years below 1000 are written with four digits. The padding `%Y` gives such years in Python's `strftime` depends on the platform.
- FunctionManager.ProjectIdOf: a `project_id` that is not a string is a TypeError in the model. Python would convert it with `str()` inside the f-string and compare against that text.
- FunctionManager.TypicalRecord: states the environment, function id and region display fields, not the full `last_deployed` text; that text is the subject of LastDeployed.ScenarioUpdateTime.
