# The Villages Events — a Dafny model

This project models the core of the Home Assistant integration
`villages_events`, which shows the entertainment schedule of The Villages
(Florida) in Home Assistant. Its core has five parts:

- **The update coordinator** (`Coordinator`, `Venues`, `Favorites`, `Backoff`).
  It normalises the configured favorite performers. It sorts the records the
  events library returns into a per-venue dictionary of `today` and `tomorrow`
  lists. It finds the events whose performer contains a favorite. It counts
  consecutive failures, backs the update interval off to 15, 30 and then 60
  minutes, and marks the entities unavailable after three failures.
- **The sensor platform** (`Sensor`, `VenueSlug`). It sets up two event-count
  sensors per venue. It derives their entity ids and unique ids from a slug of
  the venue name. It computes their state and attributes.
- **The binary sensor platform** (`BinarySensor`). It sets up the two
  "favorite performer today/tomorrow" sensors, with their state and
  attributes.
- **The config flow and options flow** (`ConfigFlow`). They validate the
  update interval (15 to 1440 minutes, default 60). They parse the
  comma-separated favorites field. The options form is pre-filled by joining
  the stored favorites with `", "`.
- **The supporting modules.** `Text` holds the Python string operations the
  source uses, on ASCII: `lower`, `strip`, `split`, `join` and
  substring `in`. `Sequences` holds the sequence vocabulary. `Constants`
  holds the constants of `const.py`. `Optional` holds the Option and Result
  types.

Everything is pure. A Python dictionary becomes a sequence of entries in
insertion order. A key a record does not carry becomes `None`. Today's date
and the clock are parameters. The events library's answer is an input: the
records, or the exception it raised.

Each operation is paired with an independent reference definition or an
invariant, and lemmas relate the two:

- Bucketing is a fold over the records. The lemmas tie it to plain filters
  over the record sequence (`InRange`, `VenueNames`, `Pick`).
- Favorite matching is tied to "tag every event with its venue, then keep
  the favorites".
- The failure bookkeeping carries a reachability invariant.
- The favorites parser has its round trip through the options form's join.
- The end-to-end lemmas state what each entity shows after a successful
  refresh, in terms of the raw records alone.

## Model

All source paths are under `custom_components/villages_events/`.

| member | source | states |
|---|---|---|
| Venues.Classify | custom_components/villages_events/coordinator.py:161-170 | a record belongs to today exactly when its date is today, to tomorrow exactly when it is the day after, and is skipped otherwise (including a record without a date) |
| Venues.PeriodNamed | custom_components/villages_events/sensor.py:211 | a period key names the period whose key it is; any other key names no period, so `.get(period, [])` gives the empty list |
| Venues.FormatTime | custom_components/villages_events/sensor.py:265-283 | a time is shown exactly when it is truthy, and then as the value itself; a missing or falsy time shows as None |
| Venues.Bucket | custom_components/villages_events/coordinator.py:158-189 | the bucketing loop over the records, first to last; what it builds is stated by Venues.BucketKeys, Venues.BucketFind, Venues.BucketTotal and Venues.BucketOccupied against filters over the records |
| Venues.FindKeys | custom_components/villages_events/coordinator.py:173 | a venue is found in the dictionary exactly when it is one of its keys |
| Venues.AddKeys | custom_components/villages_events/coordinator.py:173-189 | adding an event keeps the keys when the venue is present and appends the venue as the last key when it is new |
| Venues.FindAdd | custom_components/villages_events/coordinator.py:173-189 | adding an event appends it to the chosen list of that venue only (a new venue starts with two empty lists); every other venue is unchanged |
| Venues.TotalAdd | custom_components/villages_events/coordinator.py:189 | each addition stores exactly one more event |
| Venues.BucketKeys | custom_components/villages_events/coordinator.py:158-189 | the venue keys are the venue names of the records dated today or tomorrow, without repeats, in order of first appearance (a record without a venue counts as `Unknown Venue`) |
| Venues.BucketKeysDistinct | custom_components/villages_events/coordinator.py:173-177 | no venue appears twice among the keys |
| Venues.BucketFind | custom_components/villages_events/coordinator.py:158-189 | a venue is present exactly when some in-range record names it, and then its two lists are exactly that venue's records of each day, in record order and in stored form |
| Venues.BucketTotal | custom_components/villages_events/coordinator.py:158-189 | every record dated today or tomorrow is stored exactly once, and no other record is stored |
| Venues.BucketOccupied | custom_components/villages_events/coordinator.py:173-189 | a venue is only created together with an event, so no venue has both lists empty |
| Venues.PickAbsent | custom_components/villages_events/coordinator.py:173-189 | a venue named by no in-range record has no events of either day |
| Venues.PickInOrder | custom_components/villages_events/coordinator.py:160-189 | each venue list keeps the records' relative order |
| Venues.PickMembers | custom_components/villages_events/coordinator.py:180-189 | an event is in a venue's list of a day exactly when some record of that venue and day stores as it: performer defaulting to `Unknown`, event type to `Event`, times copied |
| Favorites.Normalise | custom_components/villages_events/coordinator.py:85-97 | the coordinator's favorites: none when the key is absent, the stripped non-blank lowercased pieces of a string, or a list lowercased name by name; the names kept from a string are stated by ConfigFlow.NormaliseParsed with ConfigFlow.ParsedMembers, their shape by Favorites.NormaliseTextClean, and a list by Favorites.NormaliseNamesKeepsWhitespace and Coordinator.Init |
| Favorites.NormaliseTextClean | custom_components/villages_events/coordinator.py:90-95 | favorites given as one string become comma-separated pieces that are each non-empty, stripped, lowercase and comma-free |
| Favorites.NormaliseNamesKeepsWhitespace | custom_components/villages_events/coordinator.py:96-97 | favorites given as a list are only lowercased: same length, each name lowercased in place, nothing stripped or dropped |
| Favorites.IsFavorite | custom_components/villages_events/coordinator.py:343-344 | the `any(fav in performer)` test on the lowercased performer; its meaning is stated by Favorites.IsFavoriteIff |
| Favorites.IsFavoriteIff | custom_components/villages_events/coordinator.py:340-344 | an event matches exactly when some favorite occurs as a substring of the lowercased performer name (an empty favorite matches everything) |
| Favorites.MatchFavorites | custom_components/villages_events/coordinator.py:327-371 | each day's flag is true exactly when that day's list of matches is non-empty; with no favorites both flags are false and both lists empty |
| Favorites.MatchVenueIsFilter | custom_components/villages_events/coordinator.py:341-347 | one venue's matches are its events tagged with the venue and filtered by the favorite test |
| Favorites.MatchPeriodIsFilter | custom_components/villages_events/coordinator.py:339-356 | a day's matches are all that day's events, venue by venue in dictionary order and tagged with their venue, filtered by the favorite test |
| Favorites.KeepFavoritesMembers | custom_components/villages_events/coordinator.py:344 | the filter keeps exactly the events whose performer matches |
| Favorites.TaggedMembers | custom_components/villages_events/coordinator.py:339-347 | a tagged event is exactly an event of that day in the list of a venue of that name |
| Favorites.MatchedMembers | custom_components/villages_events/coordinator.py:339-356 | a tagged event is a match of a day exactly when it is an event of that day under its venue and its performer matches a favorite |
| Favorites.MatchedInOrder | custom_components/villages_events/coordinator.py:339-356 | the matches keep the order of the venue dictionary and of each venue's list |
| Backoff.IsUnavailable | custom_components/villages_events/coordinator.py:374-391 | unavailable exactly when the counter has reached 3; Backoff.UnavailableAfterThreeFailures and Backoff.SuccessRecovers say when that holds |
| Backoff.Step | custom_components/villages_events/coordinator.py:199-281 | a success clears the counter, and restores the configured interval only when there had been failures; a network error adds one failure and sets the interval to the 15/30/60 entry of that failure number while there is one, otherwise keeps it; any other error adds one failure and changes nothing else; a missing library changes nothing |
| Backoff.RunWithoutSuccess | custom_components/villages_events/coordinator.py:226-281 | over updates without a success the counter grows by exactly the number of network and other errors |
| Backoff.UnavailableAfterThreeFailures | custom_components/villages_events/coordinator.py:236-281 | three or more counted failures without a success in between make the entities unavailable |
| Backoff.NetworkStreak | custom_components/villages_events/coordinator.py:236-252 | after k network errors in a row from a clean state the counter is k and the interval is 15, 30, then 60 minutes from the third error on |
| Backoff.SuccessRecovers | custom_components/villages_events/coordinator.py:199-217 | a success always clears the counter, so the entities become available again |
| Backoff.StepReachable | custom_components/villages_events/coordinator.py:199-281 | every update keeps the interval at the configured value or a backoff entry, and at the configured value whenever the counter is zero |
| Backoff.RunReachable | custom_components/villages_events/coordinator.py:199-281 | any sequence of updates keeps that invariant |
| Backoff.SuccessRestoresInterval | custom_components/villages_events/coordinator.py:199-217 | from any history since construction, a success leaves zero failures and the configured interval, even when the counter was already zero |
| Coordinator.Init | custom_components/villages_events/coordinator.py:79-100 | the coordinator starts available with no failures and the entry's interval (60 when it has none), a reachable backoff state; no favorites when unset, clean (non-empty, stripped, lowercase, comma-free) names from a string, and a list lowercased name by name |
| Coordinator.Reshape | custom_components/villages_events/coordinator.py:158-197 | one batch's venue view has no venue twice and none without an event, its favorite flags agree with its favorite lists, and no favorites give no matches |
| Coordinator.Update | custom_components/villages_events/coordinator.py:134-281 | an update succeeds exactly when the library returns records, with the reshaped data and a cleared counter; the failure bookkeeping moves by Backoff.Step of the outcome; a missing library fails with nothing changed; network and other errors fail with one more failure; the favorites never change |
| Coordinator.Unavailable | custom_components/villages_events/coordinator.py:374-391 | `is_unavailable` of the coordinator: its failure counter has reached the threshold |
| Coordinator.UpdateVenues | custom_components/villages_events/coordinator.py:158-189 | after a successful update a venue is present exactly when an in-range record names it, with that venue's records of each day as its lists |
| Coordinator.UpdateFavorites | custom_components/villages_events/coordinator.py:196-197 | after a successful update an event with a venue is a match of a day exactly when a record of that venue and day stores as it and its performer contains a favorite |
| Coordinator.Start | custom_components/villages_events/coordinator.py:79-107 | before its first refresh the coordinator is available, has no failures, runs at the configured interval and has no data yet |
| Coordinator.Refresh | custom_components/villages_events/coordinator.py:224-281 | a refresh takes the update's state; a success replaces the data with the reshaped records, a failure keeps the previous data |
| Coordinator.RefreshAvailable | custom_components/villages_events/coordinator.py:199-217 | a successful refresh always leaves the entities available |
| Coordinator.RefreshConsistent | custom_components/villages_events/coordinator.py:364-371 | from setup on, the data's favorite flags always agree with its favorite lists |
| VenueSlug.Collapse | custom_components/villages_events/sensor.py:183 | `re.sub(r'[^a-z0-9]+', '_', s)`; VenueSlug.CollapseKeepsSlugChars and the slug lemmas state what it keeps and how it shapes the result |
| VenueSlug.Slug | custom_components/villages_events/sensor.py:180-186 | `_create_slug`: lowercase, collapse, strip underscores; its properties are stated by the VenueSlug.Slug* lemmas below |
| VenueSlug.SlugShape | custom_components/villages_events/sensor.py:180-186 | a slug has only lowercase letters, digits and underscores, never two underscores in a row, and none at either end |
| VenueSlug.SlugKeepsLettersAndDigits | custom_components/villages_events/sensor.py:180-186 | a slug keeps exactly the letters and digits of the lowercased name, in order |
| VenueSlug.SlugEmptyIff | custom_components/villages_events/sensor.py:180-186 | a slug is empty exactly when the lowercased name has no ASCII letter or digit |
| VenueSlug.SlugOfSlugShaped | custom_components/villages_events/sensor.py:180-186 | a string already shaped like a slug is its own slug |
| VenueSlug.SlugIdempotent | custom_components/villages_events/sensor.py:180-186 | slugging a slug changes nothing |
| VenueSlug.SlugOfLower | custom_components/villages_events/sensor.py:181 | the slug ignores letter case |
| VenueSlug.SlugOfSpacedWords | custom_components/villages_events/sensor.py:180-186 | lowercase words joined by single spaces slug to the same words joined by underscores |
| VenueSlug.SlugExampleLakeSumter | custom_components/villages_events/sensor.py:173-174 | "Lake Sumter Landing" slugs to "lake_sumter_landing" |
| VenueSlug.SlugExampleBrownwood | custom_components/villages_events/sensor.py:176-177 | "Brownwood Paddock Square" slugs to "brownwood_paddock_square" |
| VenueSlug.SlugExampleSpanishSprings | custom_components/villages_events/sensor.py:166-169 | "Spanish Springs Town Square" slugs to "spanish_springs_town_square" |
| Sensor.EntityId | custom_components/villages_events/sensor.py:142-143 | `sensor.villages_events_{slug}_{period}`; related to the unique id by Sensor.EntityIdIsDomainOfUniqueId |
| Sensor.UniqueId | custom_components/villages_events/sensor.py:145-146 | `{DOMAIN}_{slug}_{period}`; Sensor.UniqueIdInjective and Sensor.UniqueIdIgnoresCase say when two coincide |
| Sensor.Available | custom_components/villages_events/sensor.py:216-223 | a venue sensor is available exactly while the coordinator is not unavailable |
| Sensor.SensorsFor | custom_components/villages_events/sensor.py:66-85 | the sensors are today's then tomorrow's for each venue in dictionary order, two per venue |
| Sensor.SensorsForMembers | custom_components/villages_events/sensor.py:66-85 | a sensor is set up exactly for a listed venue and one of the two period keys |
| Sensor.SensorAt | custom_components/villages_events/sensor.py:66-85 | the sensor at position i belongs to venue i/2, for today when i is even and for tomorrow when it is odd |
| Sensor.SetupSensors | custom_components/villages_events/sensor.py:61-85 | there are no sensors before the first successful update, and two per venue after it |
| Sensor.UniqueIdInjective | custom_components/villages_events/sensor.py:145-146 | two sensors of the known periods share a unique id only when their venues have the same slug and their periods agree |
| Sensor.SetupIdsDistinct | custom_components/villages_events/sensor.py:66-85 | when the venues' slugs differ, all sensors set up have different unique ids |
| Sensor.EntityIdIsDomainOfUniqueId | custom_components/villages_events/sensor.py:142-146 | the entity id is `sensor.` followed by the unique id |
| Sensor.UniqueIdIgnoresCase | custom_components/villages_events/sensor.py:142-146 | venue names that differ only in letter case give the same unique id |
| Sensor.NativeValue | custom_components/villages_events/sensor.py:196-213 | the state is None exactly when the coordinator is unavailable; otherwise 0 without data or when the venue is not in it, and the length of the venue's list for the sensor's period key when it is |
| Sensor.ShowEvent | custom_components/villages_events/sensor.py:260-283 | a shown event keeps the performer and event type and shows each time exactly when it is truthy |
| Sensor.ShowEvents | custom_components/villages_events/sensor.py:258-287 | every event of the list is shown, one for one and in order |
| Sensor.Attributes | custom_components/villages_events/sensor.py:235-292 | the attributes always name the venue and period; while unavailable they list no events and no update time; otherwise they carry the current time; without data, or when the venue is missing, no events; otherwise one shown event per stored event of the period key, in order |
| Sensor.StartShowsNothing | custom_components/villages_events/sensor.py:63-85 | before the first refresh (no data) setup builds no venue sensor, and any venue sensor shows 0 with no events and the current time |
| Sensor.FailedRefreshKeepsView | custom_components/villages_events/sensor.py:196-292 | a failed refresh that leaves the coordinator available changes neither the state, the attributes nor the set of sensors |
| Sensor.ValueCountsAttributes | custom_components/villages_events/sensor.py:196-213 | while available, the state is exactly the number of events the attributes list |
| Sensor.ValueAfterRefresh | custom_components/villages_events/sensor.py:204-213 | after a successful refresh the state is the number of the venue's records dated in the sensor's period |
| Sensor.EventsAfterRefresh | custom_components/villages_events/sensor.py:248-287 | after a successful refresh the attributes list exactly the venue's records of the period, in record order |
| Sensor.SetupAfterRefresh | custom_components/villages_events/sensor.py:64-85 | after a successful refresh a sensor is set up exactly for each venue named by a record of today or tomorrow and each of the two periods |
| Sensor.ShownPerformers | custom_components/villages_events/sensor.py:260-263 | each shown performer and event type come from a record of that venue and period, defaulting to `Unknown` and `Event` |
| BinarySensor.EntityId | custom_components/villages_events/binary_sensor.py:132-138 | the today entity id for the `today` key and the tomorrow one for any other key; BinarySensor.IdsByPeriod relates it to the unique id |
| BinarySensor.UniqueId | custom_components/villages_events/binary_sensor.py:132-139 | `villages_events_favorite_today` for the `today` key, `villages_events_favorite_tomorrow` otherwise; stated by BinarySensor.IdsByPeriod |
| BinarySensor.SetupFavoriteSensors | custom_components/villages_events/binary_sensor.py:61-77 | setup always creates two sensors, today's first, with the today and tomorrow entity ids |
| BinarySensor.IdsByPeriod | custom_components/villages_events/binary_sensor.py:132-140 | for any period keys, the entity id is `binary_sensor.` followed by the unique id, and two sensors share their ids exactly when both or neither are built for `today` |
| BinarySensor.SetupIdsDistinct | custom_components/villages_events/binary_sensor.py:133-140 | the two sensors have different entity ids and different unique ids |
| BinarySensor.FlagFor | custom_components/villages_events/binary_sensor.py:165-169 | `today` reads the today flag and any other key the tomorrow flag; used by BinarySensor.IsOn and stated by BinarySensor.OtherPeriodKey |
| BinarySensor.IsOn | custom_components/villages_events/binary_sensor.py:157-169 | the state is None exactly when the coordinator is unavailable, off when there is no data, and otherwise the favorite flag of the sensor's period key |
| BinarySensor.Available | custom_components/villages_events/binary_sensor.py:172-179 | a favorite sensor is available exactly while the coordinator is not unavailable |
| BinarySensor.ShowMatch | custom_components/villages_events/binary_sensor.py:213-236 | a shown match keeps the performer and venue and shows each time exactly when it is truthy |
| BinarySensor.ShowMatches | custom_components/villages_events/binary_sensor.py:211-238 | every match of the list is shown, one for one and in order |
| BinarySensor.MatchesFor | custom_components/villages_events/binary_sensor.py:207-208 | a period key reads that period's match list; any other key reads the empty list |
| BinarySensor.Attributes | custom_components/villages_events/binary_sensor.py:190-243 | the count is always the number of listed matches; while unavailable everything is empty; otherwise the coordinator's favorites are listed; without data no matches; with data one shown match per stored match of the period key, in order |
| BinarySensor.StartIsOff | custom_components/villages_events/binary_sensor.py:157-206 | before the first refresh (no data) both sensors are off and list the favorites with no matches |
| BinarySensor.FailedRefreshKeepsView | custom_components/villages_events/binary_sensor.py:157-243 | a failed refresh that leaves the coordinator available changes neither the state nor the attributes |
| BinarySensor.OnIffCounted | custom_components/villages_events/binary_sensor.py:166-169 | with consistent data, a sensor of either period is on exactly when its attributes count at least one match |
| BinarySensor.OtherPeriodKey | custom_components/villages_events/binary_sensor.py:136-169 | a sensor built with a key other than the two periods reads tomorrow's flag but lists no matches |
| BinarySensor.MatchedOnlyIfFavoriteRecord | custom_components/villages_events/binary_sensor.py:166-169 | a non-empty list of matches after a refresh implies a record of that day whose performer contains a favorite |
| BinarySensor.MatchedIfFavoriteRecord | custom_components/villages_events/binary_sensor.py:166-169 | a record of that day whose performer contains a favorite makes the list of matches after a refresh non-empty |
| BinarySensor.OnAfterRefresh | custom_components/villages_events/binary_sensor.py:166-169 | after a successful refresh a sensor is on exactly when some record dated in its period has a performer containing a favorite |
| BinarySensor.MatchesAfterRefresh | custom_components/villages_events/binary_sensor.py:207-241 | after a successful refresh the listed matches are the period's favorite events, in the coordinator's order |
| ConfigFlow.ParseFavorites | custom_components/villages_events/config_flow.py:92-101 | every parsed favorite is non-empty, stripped and comma-free; an empty field gives no favorites |
| ConfigFlow.ParsedMembers | custom_components/villages_events/config_flow.py:97-101 | a name is parsed exactly when it is non-empty and is the stripped form of one of the comma-separated pieces |
| ConfigFlow.Validate | custom_components/villages_events/config_flow.py:84-111 | a submission is accepted exactly when the interval is left out or is a whole number in 15..1440; a rejection carries exactly the `invalid_update_interval` error on the interval field; an accepted entry stores the interval (60 when left out) and the parsed favorites |
| ConfigFlow.StepUser | custom_components/villages_events/config_flow.py:81-131 | without input the empty form with default 60; an accepted submission creates the entry titled "The Villages Events"; a rejected one shows the form again with the error |
| ConfigFlow.Prefill | custom_components/villages_events/config_flow.py:215-224 | the options form's favorites text: the stored names joined by ", " (a stored string joined character by character, none as ""); ConfigFlow.ParseJoin states that parsing it gives back a list of parsed names, and ConfigFlow.OptionsFormResubmitted that resubmitting the pre-filled form recreates an entry the flow made |
| ConfigFlow.StepInit | custom_components/villages_events/config_flow.py:183-244 | without input the form pre-filled with the entry's interval and its favorites joined by ", "; an accepted submission creates an entry with an empty title; a rejected one shows the pre-filled form with the error |
| ConfigFlow.StepsAgree | custom_components/villages_events/config_flow.py:185-213 | both flows accept the same submissions, store the same data and report the same errors |
| ConfigFlow.EmptyFavoritesText | custom_components/villages_events/config_flow.py:92-95 | an empty favorites field parses to no favorites, and the coordinator reads an empty string as no favorites |
| ConfigFlow.NormaliseParsed | custom_components/villages_events/config_flow.py:97-101 | the coordinator normalises the parsed list to what it would get from the raw comma-separated text |
| ConfigFlow.ParsedEntryNormalises | custom_components/villages_events/config_flow.py:104-111 | the coordinator built from an accepted entry holds the lowercased, stripped, non-blank pieces of the submitted text |
| ConfigFlow.ParseJoin | custom_components/villages_events/config_flow.py:215-224 | joining stored favorites with ", " and parsing the text again gives back the same list |
| ConfigFlow.ParseRoundTrip | custom_components/villages_events/config_flow.py:194-224 | parsing is stable: parse, join with ", " and parse again gives the first parse |
| ConfigFlow.OptionsFormResubmitted | custom_components/villages_events/config_flow.py:215-244 | submitting the options form unchanged, with its pre-filled defaults, recreates the entry's data |
| Text.Split | custom_components/villages_events/config_flow.py:99 | joining the pieces of a split with the separator gives back the string |
| Text.ContainsIffOccurs | custom_components/villages_events/coordinator.py:344 | substring `in` holds exactly when the needle occurs at some position of the haystack |
| Text.StripResult | custom_components/villages_events/config_flow.py:98-100 | a stripped string has no whitespace at either end and only characters of the input |

## Left out

- Home Assistant plumbing is not modelled: `hass.data`, entity registration, `async_add_entities`, executor jobs, unload and reload, scheduling, and concurrency between refreshes.
- The first-refresh gate of `async_setup_entry` (`__init__.py`:64-68 and 81) is not modelled: setup raises `ConfigEntryNotReady` when the first fetch fails and forwards the platforms only after a success, so entities never see the no-data state that Coordinator.Start, Sensor.StartShowsNothing and BinarySensor.StartIsOff describe; those members state the code's `not self.coordinator.data` branches.
- Coordinator.Refresh: the coordinator keeping its last data when an update raises `UpdateFailed` is Home Assistant framework behaviour; the model assumes it rather than taking it from this repository.
- The clock and time zone are parameters: `dt_util.now()` is `today` (a day number) and `now` (an integer), and tomorrow is `today + 1`.
- `isoformat()` and `str()` of a time are kept opaque: a shown time is the value itself, and only its truthiness is modelled.
- Logging, icons, units of measurement, the device class, the entity descriptions and the entity display names (`Villages Events {venue} {Period}`, `Villages Events Favorite Today`) are left out; they do not affect any state.
- Text.Lower, Text.Strip: only ASCII case mapping and the ASCII whitespace set of `str.isspace` are modelled, not Unicode.
- Records whose fields hold an explicit `None` or a non-string value are not modelled; a field is either absent (`None` in the model) or holds a value of the expected type. A favorites list with non-string members, which would crash `.lower()`, is left out for the same reason.
- A favorites field that is not a string is not modelled in the flows.
- The options flow stores its result as the entry's options, but the coordinator and the options form read only the entry's data. No update listener is registered either, so a changed option has no effect on the coordinator in this code. The model follows this: StepInit returns the new data, and nothing feeds it back into ConfigEntryData.
- Matching is substring search of each favorite in the lowercased performer name, not an exact comparison of trimmed names; the performer name is not trimmed. The model follows the code.
- Records are assigned to a day by equality of their `date` field with today or tomorrow, not by converting a start time into a time zone.
- Events keep the order of the records; nothing is sorted by start time or performer.
- A venue exists in the data only once one of its records falls today or tomorrow; venues with no events are not represented, and a sensor whose venue has left the data shows 0 and no events.
- Records are not validated one by one: a missing field takes its default and a record outside the two days is skipped, with no count of skipped records.
- Only network errors back the interval off; another error adds a failure but keeps the interval; a missing library adds no failure. Any counted failure, of either kind, brings the entities closer to unavailable. The model follows the code.
- No staleness flag and no single-flight guard for concurrent refreshes exist in the code, so none is modelled.
- The docstring at sensor.py:103 gives the entity id `sensor.villages_events_spanish_springs_today` while its example venue (line 106) is "Spanish Springs Town Square", whose slug is `spanish_springs_town_square` (VenueSlug.SlugExampleSpanishSprings); the id in the docstring fits a venue named "Spanish Springs" instead. Only the code is modelled.
- The `VillagesEvents` events library is not part of this model; its answer (records or one of its exceptions) is an input.
