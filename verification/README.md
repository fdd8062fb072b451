# The client side of the location service, in Dafny

This project models the stateful parts of the location client and proves what they keep over whole
runs. `dafny verify dfyconfig.toml` checks all of it.

| file | what it models |
|---|---|
| `LocatorCallback.dfy`, `LocatingProtocol.dfy`, `LocatingAnswers.dfy` | one single-location request: the callback object and its latch, the waiter thread interleaved statement by statement with any number of event handlers, and what it answers |
| `CallStatistics.dfy`, `CallReports.dfy` | the per-API call statistics and the report that is handed over at most once a minute, and what the reports say of the calls |
| `Parcel.dfy`, `ScanRecord.dfy`, `ScanRecordObjects.dfy`, `LocationCodec.dfy`, `SatelliteCodec.dfy`, `ScanConfigCodec.dfy` | the parcel codecs: a writer and a reader function for every type, and the objects whose methods implement them |
| `SubscriptionRegistry.dfy` | the `On…`, `Off…` and `Off…All` lists of the CJ front end against the service's own registrations |
| `CallbackManager.dfy`, `BluetoothSearch.dfy`, `BluetoothMaps.dfy`, `BluetoothCalls.dfy` | the nested callback map of the script front end, bluetooth searches whose results are queued for script threads, the nested map through every run of them, and what a single call does |
| `GeofenceTasks.dfy`, `GeofenceAnswers.dfy`, `GeofenceRuns.dfy`, `GeofenceRemoves.dfy` | adding and removing GNSS geofences: tasks waiting for reports that are stored field by field; why they fail; particular runs of them; removes that share a callback object |
| `Javascript.dfy`, `FusionFence.dfy`, `FusionRequests.dfy` | the parser of fusion-fence requests against a description of what it accepts and returns, and requests written as script objects |
| `Wrappers.dfy`, `Integers.dfy`, `ErrorCodes.dfy`, `Latches.dfy`, `Ordering.dfy` | the option type, integer widths, error codes, the count of a latch, and the iteration order of ordered maps |

Three kinds of model are used. Code that changes objects is a class whose methods are proved against a
function of the old state; the properties are then lemmas about that function and its folds over runs.
Threads that overlap are a state machine whose steps are single statements; its lemmas hold for every
sequence of steps. Parsers are methods with the source's loops, proved equal to a description.

What is taken for granted:

- Services, clocks, sizes of memory and the script engine are outside. Their answers are parameters of
  methods and steps, so every lemma holds for all of them. A failed registration or unregistration
  leaves the service's registrations as they were.
- The body of `CountDownLatch` (interfaces/inner_api/include/common_utils.h:223) is not shown: `CountDown`
  lowers a positive count by one, and `Wait` returns when the count is 0 or time has run out.
- A parcel is a sequence of typed cells. A read of another type than the next cell's gives the default
  value and leaves the cursor where it is. A vector is one cell. The conversions between UTF-8 and
  UTF-16 are inverse to each other, and doubles are opaque values.
- `HaEventInfo` is declared without an initialiser (frameworks/js/napi/source/location_hiappevent.cpp:117);
  the comparisons with 0 that follow show that it is meant to start at zero, and so it does here.
- Integers are unbounded except where a width matters: parcel cells, narrowings and counts are cut to
  their widths, and so are `napi` conversions of script numbers (32 bits wrap around, 64 bits stop at the
  ends of the range). Sums of times in the statistics are unbounded.
- A geofence callback object gets at most one report for each call of the service that uses it; the report
  may come late, early or not at all (`GeofenceTasks.Arrive`).
- A new script reference differs from every earlier one.
- Script numbers are reals, a string's characters are its bytes, and reading a property fails only on
  undefined and null.

Where the code does something that its surroundings do not suggest, the model follows the code:

- `CjIsRequestConfigValid` rejects the scenarios 0x0405 to 0x0409 (`IsRequestConfigValid`).
- An addition without a colon becomes a map entry whose value is the text without its last character
  (`LocationCodec.ValueOf`).
- A report at time 0 counts as no report, so it can be followed by another one at once
  (`ReportAtTimeZeroBreaksTheBound`). With a clock that is never negative the rate bound holds exactly
  unless the first counted call of an API ends at time 0 and the second one before time 60000
  (`FewReportsExactlyUnlessBegunAtTimeZero`).
- A cell record with more than 200 additions, or a batch with more than 20 points of interest in one
  location, is written whole but read in part; the round trips hold exactly up to the caps.
- A geofence result code outside the declared range passes for success, and then the id -1 is told
  (`UndeclaredCodeTellsNoFence`).
- Two removes of one geofence share a callback object and its latch. A refused call opens the latch, and
  then another remove can take a half-stored report for its own (`RefusedRemoveDisturbsAnother`); a
  reported success that is not about a delete does the same (`StraySuccessDisturbsRemove`). So a fence
  leaves the map only with a granting report exactly when the service refuses no call and reports success
  for deletes only, or never reports about deletes (`AlwaysGrantedExactlyWhenTrustworthy`).
- A cell fence whose properties cannot be read is kept without cells (`CellFenceOf`), and a cell info
  without `tac` leaves that field unset.

## Model

| member | source | states |
|---|---|---|
| LocatingProtocol.NeverReadsAnAbsentFix | frameworks/cj/source/geolocationmanager_impl.cpp:209-275 | In every interleaving of the waiter with any number of report and error handlers no absent fix is dereferenced; a request that succeeds returns a location the service reported or had cached; an open latch means a stored fix as long as the request runs |
| LocatingProtocol.StepKeepsInv | frameworks/cj/source/locator_callback.cpp:69-101 | Every single statement of a handler or of the waiter keeps the invariant behind this, and never takes a stored fix away |
| LocatingProtocol.HandlerStepIsSafe | frameworks/cj/source/locator_callback.cpp:161-188 | A handler statement only lowers the latch when a fix is stored, stores only delivered locations, and comes closer to the end of the handler |
| LocatingProtocol.StoredFixIsReturned | frameworks/cj/source/geolocationmanager_impl.cpp:209-275 | A fix stored before the waiter last looks for one is never lost: the request can only end with a location |
| LocatingProtocol.DeliveredComesFromOutside | frameworks/cj/source/geolocationmanager_impl.cpp:225-275 | Every location the request can return was brought by a report to a handler that was not there before, or was the cached answer at the step that asks the cache |
| LocatingProtocol.UninterruptedHandlerIsOneCall | frameworks/cj/source/locator_callback.cpp:61-109 | The statements of a handler that is not interrupted have together the effect of one call of `OnRemoteRequest` |
| LocatingProtocol.Wait | frameworks/cj/source/locator_callback.cpp:139-144 | The wait takes in events until the latch is open or no more come in time; the object is then as all of them in order leave it, and it stops early only with an open latch |
| LocatingProtocol.StartLocating | frameworks/cj/source/geolocationmanager_impl.cpp:209-241 | A refused start returns its code, opens the latch and leaves the rest of the object as it was; otherwise the object holds the fix that the events waited for describe, or else the cached one, and the code says whether there is one; the wait ends early only when an event has opened the latch; the latch is closed again at the end |
| LocatingProtocol.IsRequestConfigValid | frameworks/cj/source/geolocationmanager_impl.cpp:56-100 | Exactly which scenarios, priorities, time-outs and intervals a request may carry |
| LocatingAnswers.TraceDecidesTheAnswer | frameworks/cj/source/geolocationmanager_impl.cpp:209-275 | In every interleaving the calls that were made of the service decide the answer: an invalid request makes none and gets the parameter error; a valid one fails with the code of the switch, with the code of the start, or with the locating failure after the cache was asked in vain; one that succeeds has started and stopped the service once |
| LocatingAnswers.AnsweredRequestNeverFails | frameworks/cj/source/geolocationmanager_impl.cpp:209-275 | A valid request to a service that accepts its calls and has a location cached never fails |
| LocatingAnswers.RequestEnds | frameworks/cj/source/geolocationmanager_impl.cpp:209-275 | When time runs out in twelve steps of the waiter at the latest, the request is over, whatever the handlers do |
| LocatingAnswers.AnsweredRequestReturnsALocation | frameworks/cj/source/geolocationmanager_impl.cpp:209-275 | So such a request returns a location |
| LocatingAnswers.WaitsForTheTimeOut | frameworks/cj/source/geolocationmanager_impl.cpp:220-227 | A request waits no longer than its time-out in all, and exactly that long when it comes to ask the cache in vain |
| LocatingAnswers.QuietRequestReturnsTheCached | frameworks/cj/source/geolocationmanager_impl.cpp:229-241 | A request that nobody reports to can only return the cached location, and the latch is closed at its end unless the start was refused |
| LocatingAnswers.OneReportIsReturned | frameworks/cj/source/geolocationmanager_impl.cpp:243-275 | A report that is handled before the waiter moves is what the request returns, with the latch closed; with a service that answers it does return |
| LocatingAnswers.FirstReportOpensExactly | frameworks/cj/source/geolocationmanager_impl.cpp:102-118 | The first report opens the latch of a request except in the listed scenarios and priorities, where a network or satellite location is kept back |
| LocatorCallbacks.LatchClosedExactlyWhen | frameworks/cj/source/locator_callback.cpp:70-101 | The latch of a single-location request is closed after a history exactly when no event of it opened the latch: no internet failure with a fix stored, no report whose resulting fix is not kept back |
| LocatorCallbacks.SpeedModeClosedExactlyWithoutReport | frameworks/cj/source/locator_callback.cpp:172-182 | Outside accuracy mode the latch is closed exactly until the first report |
| LocatorCallbacks.StoredFixOfHistory | frameworks/cj/source/locator_callback.cpp:161-188 | The stored fix is, in accuracy mode, the last report not from the network or else the first report, and otherwise the last report; there is one exactly when there was a report |
| LocatorCallbacks.StoredFixIsUnique | frameworks/cj/source/locator_callback.cpp:161-188 | That description leaves one possibility |
| LocatorCallbacks.HdFlagOfHistory | frameworks/cj/source/locator_callback.cpp:70-101 | The HD-area flag is what the latest tagged network report or internet failure said, and true before any |
| LocatorCallbacks.ReportOpensExactly | frameworks/cj/source/locator_callback.cpp:161-188 | By source of the location: which fix a report leaves, and whether it opens the latch, in accuracy mode and outside |
| LocatorCallbacks.ContinuousRequestKeepsTheLatch | frameworks/cj/source/locator_callback.cpp:132-137 | No event of a request for more than one location opens the latch |
| LocatorCallbacks.LocatorCallback.OnRemoteRequest | frameworks/cj/source/locator_callback.cpp:61-109 | The whole new state of the callback after each kind of event, for any request |
| LocatorCallbacks.LocatorCallback.CountDown | frameworks/cj/source/locator_callback.cpp:132-137 | Lowers the latch for single-location requests only |
| LocatorCallbacks.LocatorCallback.GetCount | frameworks/cj/source/locator_callback.cpp:146-152 | For a single-location request the count tells what has come in: it is 1 exactly as long as no event has opened the latch |
| CallStatistics.StatisticsAreConserved | frameworks/js/napi/source/location_hiappevent.cpp:110-184 | For every run and API: calls, successes, each error code and total time recorded equal what was handed over plus what is pending |
| CallStatistics.QuantityIsConserved | frameworks/js/napi/source/location_hiappevent.cpp:110-153 | The same for any quantity that each call adds to and a report clears |
| CallStatistics.EverySnapshotIsFaithful | frameworks/js/napi/source/location_hiappevent.cpp:155-184 | Every report of every run, however many calls it has: there are n > 0 calls in it; n = successes + the sum of the error counts; the error arrays list exactly the codes that occurred with their counts; n * min <= total <= n * max; the field callTimes is n narrowed to 32 bits |
| CallReports.EveryReportTellsItsGroup | frameworks/js/napi/source/location_hiappevent.cpp:110-184 | Told from the calls alone: the k-th report of an API carries its name, the begin of its group of calls, their number, the successes, the least, greatest and total cost, and each error code with its count |
| CallReports.ReportsAreOfTheGroups | frameworks/js/napi/source/location_hiappevent.cpp:110-153 | The reports of an API are one for each group and in order, and what is pending is the group still open |
| CallReports.GroupsHoldTheCalls | frameworks/js/napi/source/location_hiappevent.cpp:138-151 | The groups are the calls of the API that end no earlier than they begin, each once and in order |
| CallStatistics.HandedExactlyWhenDue | frameworks/js/napi/source/location_hiappevent.cpp:138-151 | A call is reported exactly when the API has no report at a time other than 0 yet or the latest is a minute old |
| CallStatistics.ReportsAreSpaced | frameworks/js/napi/source/location_hiappevent.cpp:138-151 | Neighbouring reports of an API are at least 60000 ms apart, except after one at time 0 |
| CallStatistics.SoonerExactlyAfterTimeZero | frameworks/js/napi/source/location_hiappevent.cpp:138-151 | A report follows another one sooner than that exactly when that one was at time 0 |
| CallStatistics.FewReportsInAnySpan | frameworks/js/napi/source/location_hiappevent.cpp:138-151 | Any span of length T holds at most T/60000 + 1 reports of an API, for any clock, as long as no report at time 0 is followed by one before time 60000 |
| CallStatistics.FewReportsExactlyUnlessBegunAtTimeZero | frameworks/js/napi/source/location_hiappevent.cpp:138-151 | The exact condition, told from the calls alone, with a clock that is never negative: the bound holds in every span if and only if it is not so that the first counted call of the API ends at time 0 and the second one before time 60000 |
| CallStatistics.NoReportWithoutCallAtTimeZero | frameworks/js/napi/source/location_hiappevent.cpp:138-151 | When no counted call of the API ends at time 0, no report of it is at time 0 |
| CallStatistics.ReportAtTimeZeroBreaksTheBound | frameworks/js/napi/source/location_hiappevent.cpp:138-151 | Three reports within two milliseconds, after one at time 0 |
| CallStatistics.LocationHiAppEvent.CountEventTimeAndNum | frameworks/js/napi/source/location_hiappevent.cpp:110-153 | The effect of one call on the accumulators, and that what is handed over is also written to the log unless the processor says it is not supported |
| CallStatistics.LocationHiAppEvent.WriteCallStatusEvent | frameworks/js/napi/source/location_hiappevent.cpp:155-184 | What a report contains |
| CallStatistics.FillErrorArrays | frameworks/js/napi/source/location_hiappevent.cpp:165-168 | The error arrays are the codes in ascending order and their counts, index by index |
| CallStatistics.AddCall | frameworks/js/napi/source/location_hiappevent.cpp:123-137 | The statements that add a call amount to one accumulation, and the result has a call in it |
| CallStatistics.LocationHiAppEvent.AddProcessor | frameworks/js/napi/source/location_hiappevent.cpp:43-85 | The processor is asked for once, and an absent application id leaves it unknown |
| CallStatistics.ProcessorIsTheFirstAnswer | frameworks/js/napi/source/location_hiappevent.cpp:43-85 | Over a run the processor is the first answer that gives one |
| ScanRecords.RecordRoundTripExactlyWhenItFits | interfaces/inner_api/include/locating_required_data.h:100-125 | A scan record is read back whole, with the following stream untouched, exactly when it has at most 1000 neighbours and every cell has an additions map of at most 200 entries |
| ScanRecords.CellIsReadBack | interfaces/inner_api/include/cell_info.h:143-192 | A lone cell of any size comes back with its first 200 additions in key order; exactly the texts of the others stay unread, and then what followed the cell |
| ScanRecords.CellIsReadOnto | interfaces/inner_api/include/cell_info.h:143-192 | Read into an object with any map or none, the first 200 entries of a written cell overlay what it held; without entries nothing changes |
| ScanRecords.CellsRoundTripExactlyWhenTheyFit | interfaces/inner_api/include/cell_info.h:143-192 | A list of cells comes back unchanged with exact framing if and only if each of them fits |
| ScanRecords.ExtraNeighborsStayUnread | interfaces/inner_api/include/locating_required_data.h:100-125 | With more than 1000 neighbours the first 1000 are read and the others stay in the stream |
| ScanRecords.WifiIsReadBack | interfaces/inner_api/include/wifi_scan_info.h:108-127 | The wifi part of a record is read back with exact framing |
| ScanRecords.BluetoothIsReadBack | interfaces/inner_api/include/bluetooth_scan_info.h:85-99 | The bluetooth part of a record is read back with exact framing |
| ScanRecords.WifiLayout | interfaces/inner_api/include/wifi_scan_info.h:118-126 | The order of the fields on the wire |
| ScanRecords.BluetoothLayout | interfaces/inner_api/include/bluetooth_scan_info.h:93-99 | The order of the fields on the wire |
| ScanRecords.IdsLayout | interfaces/inner_api/include/cell_info.h:168-178 | The order of the fields of a cell on the wire |
| ScanRecordObjects.WifiScanInfo.ReadFromParcel | interfaces/inner_api/include/wifi_scan_info.h:108-116 | The fields and the cursor after reading, from any parcel |
| ScanRecordObjects.WifiScanInfo.Marshalling | interfaces/inner_api/include/wifi_scan_info.h:118-126 | The cells that are appended |
| ScanRecordObjects.BluetoothScanInfo.ReadFromParcel | interfaces/inner_api/include/bluetooth_scan_info.h:85-91 | The fields and the cursor after reading, from any parcel |
| ScanRecordObjects.BluetoothScanInfo.Marshalling | interfaces/inner_api/include/bluetooth_scan_info.h:93-99 | The cells that are appended |
| ScanRecordObjects.CellularInfo.ReadFromParcel | interfaces/inner_api/include/cell_info.h:143-166 | The fields after reading: the entries read, at most 200, are put on top of the map already there; where there is no map, the first entry makes one |
| ScanRecordObjects.CellularInfo.Marshalling | interfaces/inner_api/include/cell_info.h:168-192 | The cells that are appended, in the key order of the map, and the answer false when there is no map |
| ScanRecordObjects.LocatingRequiredData.ReadFromParcel | interfaces/inner_api/include/locating_required_data.h:100-111 | The record after reading: new parts, and the neighbours read appended to those already there |
| ScanRecordObjects.ReadNewRecord | interfaces/inner_api/include/locating_required_data.h:127-132 | A record read into a new object is what the reader function finds in the stream, with the cursor after it |
| ScanRecordObjects.LocatingRequiredData.Marshalling | interfaces/inner_api/include/locating_required_data.h:113-125 | The cells that are appended for the whole record |
| LocationCodec.BatchRoundTripExactlyWhenItFits | frameworks/js/napi/source/cached_locations_callback_napi.cpp:54-63 | A written batch is read back in order with the rest of the stream untouched exactly when it has more than 0 and fewer than 1000 locations, each with at most 20 points of interest and no empty addition |
| LocationCodec.LocationIsReadBack | frameworks/base_module/source/location.cpp:90-185 | Any location comes back without its empty additions and with its first 20 points of interest; the others stay unread |
| LocationCodec.LocationsRoundTripExactlyWhenTheyFit | frameworks/base_module/source/location.cpp:90-231 | A list of locations comes back unchanged with exact framing if and only if each of them fits |
| LocationCodec.PoiInfoIsReadBack | frameworks/base_module/source/location.cpp:187-231 | The timestamp and the first 20 points come back; the other points stay unread |
| LocationCodec.MotionLayout | frameworks/base_module/source/location.cpp:152-164 | The order of the first fields of a location on the wire |
| LocationCodec.OriginLayout | frameworks/base_module/source/location.cpp:165-174 | The order of its other fields |
| LocationCodec.PoiLayout | frameworks/base_module/source/location.cpp:187-206 | The order of the fields of a point of interest |
| LocationCodec.WrittenAddition | frameworks/base_module/source/location.cpp:116-129 | An addition is split at its first colon: the text before is the key, the text after is the value |
| LocationCodec.AdditionWithoutColon | frameworks/base_module/source/location.cpp:116-129 | Without a colon the whole text is the key and the value lacks its last character |
| LocationCodec.LastAdditionWins | frameworks/base_module/source/location.cpp:116-129 | The last addition written with a key gives the value written there, whatever the map held before |
| LocationCodec.MapHasTheKeys | frameworks/base_module/source/location.cpp:116-129 | The map has exactly the keys it had and those of the additions, and keeps the values of keys that no addition has |
| LocationCodec.Location.VectorString16ToVectorString8 | frameworks/base_module/source/location.cpp:116-129 | The additions without the empty ones, appended in order, and the map with all of them put on top of what it held |
| LocationCodec.Location.ReadFromParcel | frameworks/base_module/source/location.cpp:90-114 | The fields, the additions and their map, the points of interest and the cursor after reading from any parcel, onto whatever the object held: the additions are appended, their map is overlaid, and the rest is replaced |
| LocationCodec.Location.Marshalling | frameworks/base_module/source/location.cpp:152-185 | The cells that are appended |
| LocationCodec.ReadPoiInfoFromParcel | frameworks/base_module/source/location.cpp:208-231 | Reads at most 20 points, however many are announced |
| LocationCodec.WritePoiInfoToParcel | frameworks/base_module/source/location.cpp:187-206 | Writes all points |
| LocationCodec.ReceiveCachedLocations | frameworks/js/napi/source/cached_locations_callback_napi.cpp:54-63 | What the callback hands on: nothing for a count outside 1 to 999, else that many locations in order, all of them new and different objects, each with its additions map |
| SatelliteCodec.StatusIsReadBack | frameworks/base_module/source/satellite_status.cpp:39-105 | A status of any length comes back with its first 100 rows, and the cells of the others stay unread |
| SatelliteCodec.StatusIsReadBehind | frameworks/base_module/source/satellite_status.cpp:39-105 | Read into an object with any columns, the first 100 rows are appended to each column, and the number is theirs alone |
| SatelliteCodec.RowLayout | frameworks/base_module/source/satellite_status.cpp:55-105 | The order of the seven cells of a row on the wire |
| SatelliteCodec.StatusRoundTripExactlyUpTo100 | frameworks/base_module/source/satellite_status.cpp:39-105 | It comes back whole, with exact framing, exactly up to 100 rows |
| SatelliteCodec.ReadingIsValidExactlyIntoEmptyColumns | frameworks/base_module/source/satellite_status.cpp:39-105 | From any stream: the result passes the length check exactly when the columns were empty before |
| SatelliteCodec.ReadStatusIsStable | frameworks/base_module/source/satellite_status.cpp:39-72 | What was read into a new object from any stream can be written and is read back the same |
| SatelliteCodec.SatelliteStatus.ReadFromParcel | frameworks/base_module/source/satellite_status.cpp:39-53 | The columns and the cursor after reading into an object with any columns |
| SatelliteCodec.SatelliteStatus.Marshalling | frameworks/base_module/source/satellite_status.cpp:55-105 | Writes all rows when the columns fit the number, and nothing otherwise |
| ScanConfigCodec.ConfigIsReadBack | interfaces/inner_api/include/locating_required_data_config.h:152-202 | Every configuration comes back with its BSSIDs cut to the first 1000, and exactly what was written is consumed |
| ScanConfigCodec.SettingsLayout | interfaces/inner_api/include/locating_required_data_config.h:188-202 | The order of the settings on the wire |
| ScanConfigCodec.ReadConfigIsStable | interfaces/inner_api/include/locating_required_data_config.h:152-202 | What was read from any stream survives a second trip unchanged |
| ScanConfigCodec.LocatingRequiredDataConfig.ReadFromParcel | interfaces/inner_api/include/locating_required_data_config.h:152-172 | The fields and the cursor after reading from any parcel, onto whatever the object held: the BSSIDs read, at most 1000, are appended and the rest is replaced |
| ScanConfigCodec.LocatingRequiredDataConfig.Marshalling | interfaces/inner_api/include/locating_required_data_config.h:188-202 | The cells that are appended |
| ScanConfigCodec.MarshallingWlanBssidArray | interfaces/inner_api/include/locating_required_data_config.h:174-186 | The count and at most 1000 BSSIDs |
| SubscriptionRegistry.EveryRunAgrees | frameworks/cj/source/geolocationmanager_impl.cpp:380-582 | Through any run of On, Off and Off-all with the service refusing anywhere, the hosts in the list are exactly those registered at the service, each once |
| SubscriptionRegistry.OffRemovesExactly | frameworks/cj/source/geolocationmanager_impl.cpp:419-461 | A successful Off has removed exactly the selected hosts; a failed one returns the code of the first refusal and has removed exactly the selected hosts before it; it succeeds exactly when no selected host is refused |
| SubscriptionRegistry.OffComesFromBefore | frameworks/cj/source/geolocationmanager_impl.cpp:654-715 | What is left keeps its order |
| SubscriptionRegistry.RetryingEndsAsOneSuccess | frameworks/cj/source/geolocationmanager_impl.cpp:717-838 | However many attempts fail, the first that succeeds ends in the same lists as one success |
| SubscriptionRegistry.RegisteredExactly | frameworks/cj/source/geolocationmanager_impl.cpp:380-582 | Told from the calls alone, for any run whose Off calls succeed: the host of an On call is registered at the end if and only if that call succeeded and no later Off means its callback id |
| SubscriptionRegistry.SubscriptionIsFoundById | frameworks/cj/source/geolocationmanager_impl.cpp:380-441 | A new subscription is registered, and a later Off that succeeds lets it go exactly when it means its callback id |
| SubscriptionRegistry.OffLetsGoExactly | frameworks/cj/source/geolocationmanager_impl.cpp:419-461 | A successful Off takes out of list and registrations exactly the hosts whose callback id it means |
| SubscriptionRegistry.KeptKeepsOrder | frameworks/cj/source/geolocationmanager_impl.cpp:419-441 | The kept entries are hosts that were not selected, at ascending positions |
| SubscriptionRegistry.KeptKeepsAll | frameworks/cj/source/geolocationmanager_impl.cpp:419-441 | Every host that was not selected is kept |
| SubscriptionRegistry.Callbacks.Subscribe | frameworks/cj/source/geolocationmanager_impl.cpp:380-403 | A host enters the list exactly when its checks and its registration succeed |
| SubscriptionRegistry.Callbacks.Unsubscribe | frameworks/cj/source/geolocationmanager_impl.cpp:419-441 | The erase loop over the list has the effect described by Off for one callback id, and returns its code |
| SubscriptionRegistry.Callbacks.UnsubscribeAll | frameworks/cj/source/geolocationmanager_impl.cpp:443-461 | The erase loop over the list has the effect described by Off for all, and returns its code |
| CallbackManagers.InsertRefines | frameworks/js/napi/include/callback_manager.h:79-91 | A checked registration adds one entry to the flat map from environment and handler to callback |
| CallbackManagers.InsertOfKnownBreaks | frameworks/js/napi/include/callback_manager.h:79-91 | An insertion of a handler that is registered already, or of a dead reference, spoils the map: it stands for no such flat map any more |
| CallbackManagers.EraseRefines | frameworks/js/napi/include/callback_manager.h:93-111 | Erasing a reference, with its inner map when that becomes empty, takes exactly one entry out of the flat map |
| CallbackManagers.EraseEnvRefines | frameworks/js/napi/include/callback_manager.h:50-60 | Dropping an environment takes exactly its entries out of the flat map |
| CallbackManagers.OneFlatMap | frameworks/js/napi/include/callback_manager.h:50-158 | The nested map stands for one flat map only |
| CallbackManagers.CallbackManager.FindReference | frameworks/js/napi/include/callback_manager.h:62-77 | The walk over the inner map finds the one reference behind the handler, or there is none |
| CallbackManagers.CallbackManager.IsCallbackInMap | frameworks/js/napi/include/callback_manager.h:62-77 | True exactly for registered handlers |
| CallbackManagers.CallbackManager.GetCallbackPtr | frameworks/js/napi/include/callback_manager.h:113-128 | The callback of the flat map, or none |
| CallbackManagers.CallbackManager.AddCallback | frameworks/js/napi/include/callback_manager.h:79-91 | The entry is inserted unless the reference is there already; afterwards the map stands for a flat one exactly when the handler was new to the environment or nothing was inserted |
| CallbackManagers.CallbackManager.DeleteCallback | frameworks/js/napi/include/callback_manager.h:93-111 | The flat map loses exactly the matching entry |
| CallbackManagers.CallbackManager.DeleteCallbackByEnv | frameworks/js/napi/include/callback_manager.h:50-60 | The flat map loses exactly the entries of the environment, also when its references have been deleted before the call |
| CallbackManagers.CallbackManager.RegCallback | frameworks/js/napi/include/callback_manager.h:130-158 | Registers exactly when the arguments are right, the handler is new and the subscription succeeds |
| BluetoothSearch.BetweenCalls | frameworks/js/napi/source/location_napi_adapter.cpp:2272-2585 | After any interleaving of starts, stops and stop-alls of any script threads with service failures anywhere: when no call is under way the live list equals, as a multiset, the references held; each leads to its own handler; no other reference is undeleted; the service has exactly the held hosts and those it refused to let go in a stop-all |
| BluetoothSearch.AcceptedStopIsFinal | frameworks/js/napi/source/location_napi_adapter.cpp:2542-2563 | From the moment the service accepts a stop, the handler is never called again, whatever is queued or still reported; when the call ends its reference is no longer live; no deleted reference is ever used |
| BluetoothSearch.StopAllIsFinal | frameworks/js/napi/source/location_napi_adapter.cpp:2283-2300 | The same for every search of an environment from the moment its stop-all begins, even where the service refuses |
| BluetoothSearch.StoppedIsNeverCalledAgain | frameworks/js/napi/source/bluetooth_scan_result_callback_napi.cpp:114-163 | The same for any reachable state and any continuation |
| BluetoothSearch.DeliveredExactlyWhenHeld | frameworks/js/napi/source/bluetooth_scan_result_callback_napi.cpp:133-158 | A queued result is passed to its handler exactly when the reference is still held |
| BluetoothSearch.StatementKeeps | frameworks/js/napi/source/location_napi_adapter.cpp:2493-2563 | Every statement of a start, stop or stop-all keeps the invariant of its environment and leaves the others alone |
| BluetoothSearch.OthersKeepTheirInvariant | frameworks/js/napi/source/location_napi_adapter.cpp:2283-2300 | What one script thread does cannot break another environment |
| BluetoothCalls.StartBegins | frameworks/js/napi/source/location_napi_adapter.cpp:2493-2540 | A start of a new handler with good arguments, once its statements succeed, ends with the handler held, its host registered and its reference live, and everything else as it was |
| BluetoothCalls.IgnoredStartChangesNothing | frameworks/js/napi/source/location_napi_adapter.cpp:2242-2270 | A start with bad arguments, of a handler that searches already, or without a reference changes nothing |
| BluetoothCalls.RefusedStartLeavesNothing | frameworks/js/napi/source/location_napi_adapter.cpp:2272-2281 | A start that the service refuses leaves no reference, no live entry, no held handler and no registration |
| BluetoothCalls.StopEnds | frameworks/js/napi/source/location_napi_adapter.cpp:2542-2563 | A stop of a held handler that the service accepts ends with the handler not held, its host not registered and its reference deleted and not live, and everything else as it was |
| BluetoothCalls.RefusedStopChangesNothing | frameworks/js/napi/source/location_napi_adapter.cpp:2542-2563 | A stop that the service refuses, or of a handler that is not held, changes nothing |
| BluetoothCalls.StopAllEnds | frameworks/js/napi/source/location_napi_adapter.cpp:2283-2300 | From every reachable state a stop-all ends, whatever the service answers for each host: nothing of the environment is held, no reference of it is left, and exactly the hosts that were let go are no longer registered |
| BluetoothCalls.ReportReachesTheHandler | frameworks/js/napi/source/bluetooth_scan_result_callback_napi.cpp:114-203 | A result for a held search is queued, and its delivery calls the handler of that search |
| BluetoothSearch.LiveReferences.DeleteBlueToothCallback | frameworks/js/napi/source/bluetooth_scan_result_callback_napi.cpp:103-112 | The erase loop takes out the first occurrence |
| BluetoothSearch.WithoutDropsOnlyIt | frameworks/js/napi/source/bluetooth_scan_result_callback_napi.cpp:103-112 | From a list without repetitions that is exactly the removal of the reference |
| BluetoothSearch.LiveReferences.FindBlueToothCallback | frameworks/js/napi/source/bluetooth_scan_result_callback_napi.cpp:93-101 | True exactly for references in the list |
| BluetoothSearch.ScanResultCallback.SetHandleCb | frameworks/js/napi/source/bluetooth_scan_result_callback_napi.cpp:83-91 | Sets the reference and appends it to the live list |
| BluetoothSearch.ScanResultCallback.DeleteHandler | frameworks/js/napi/source/bluetooth_scan_result_callback_napi.cpp:205-218 | Takes the reference out of the live list, deletes it and forgets it; without an environment nothing happens |
| BluetoothSearch.SetHandleCbIsTwoStatements | frameworks/js/napi/source/bluetooth_scan_result_callback_napi.cpp:83-91 | The two statements of a start that set a handler have together the effect of `SetHandleCb` on the object and the live list |
| BluetoothSearch.DeleteHandlerIsTwoStatements | frameworks/js/napi/source/bluetooth_scan_result_callback_napi.cpp:205-218 | The two statements of a stop that delete a handler have together the effect of `DeleteHandler` on the object, the live list and the references |
| BluetoothSearch.BluetoothSearches.StopAllBluetoothSearchCallbacks | frameworks/js/napi/source/location_napi_adapter.cpp:2283-2300 | After a stop-all the environment has no entry, its references are deleted and no longer live, its objects have no handler, the service has let go exactly those it accepted, and all other environments are as before |
| BluetoothMaps.CallsSeeTheHeld | frameworks/js/napi/source/location_napi_adapter.cpp:2493-2585 | Through every run of starts, stops and stop-alls, with the nested map changed by reference at each of them: a call sees in it exactly the held handlers, each with its callback object, and a stop-all walks over exactly the held callback objects of its environment |
| BluetoothMaps.MapRefinesTheHeld | frameworks/js/napi/include/callback_manager.h:50-158 | When no stop-all is under way the whole nested map stands for the whole flat one |
| BluetoothMaps.AddStands | frameworks/js/napi/source/location_napi_adapter.cpp:2535 | The entry of a start keeps that relation: its reference is undeleted and its handler new |
| BluetoothMaps.DeleteStands | frameworks/js/napi/source/location_napi_adapter.cpp:2552-2555 | The look-up of a stop finds its entry, and erasing it keeps the relation |
| BluetoothMaps.DeadReferenceLosesTheEntry | frameworks/js/napi/source/location_napi_adapter.cpp:2552-2555 | With the two statements of a stop the other way round, the entry would not be found, and the map would stand for no flat one |
| BluetoothSearch.ScanResultCallback.OnBluetoothScanResultChange | frameworks/js/napi/source/bluetooth_scan_result_callback_napi.cpp:165-203 | Queues a delivery exactly when environment and reference are set, which is what the machine of all threads does with a result for this object |
| GeofenceTasks.AddTellsTheReport | frameworks/js/napi/source/location_napi_adapter.cpp:1753-1800 | In every interleaving an add tells a fence id only after a report that an add succeeded has been stored whole; for declared result codes the id is the reported one, for others it is -1 |
| GeofenceTasks.MapHoldsWhatIsTold | frameworks/js/napi/source/location_napi_adapter.cpp:2140-2158 | Adds and removes enter the map in the order they are told: an id is in it exactly when some add of it counts, that is no remove of it follows and each earlier add of it was removed before, and it is held under the callback object of that add |
| GeofenceTasks.MapIsTheFold | frameworks/js/napi/source/location_napi_adapter.cpp:2140-2158 | The map is the fold of what the run has told, in that order |
| GeofenceTasks.FoldHoldsWhatCounts | frameworks/js/napi/source/location_napi_adapter.cpp:2140-2158 | Such a fold has an id exactly when some add of it counts, with the object of that add |
| GeofenceTasks.LoneRemoveObeysItsReport | frameworks/js/napi/source/location_napi_adapter.cpp:1851-1898 | For a remove that met no other task and no stray report on its callback object more holds: it takes the fence out only after its own report has been stored whole and says that a delete succeeded |
| GeofenceAnswers.FailedTaskSaysWhy | frameworks/js/napi/source/location_napi_adapter.cpp:1753-1898 | In every run, a lone task that tells no fence was refused and reports that code, or ran out of time, or reports the code of its own whole report, or was answered about something else; one that tells a fence was accepted and granted |
| GeofenceAnswers.TaskEnds | frameworks/js/napi/source/location_napi_adapter.cpp:1753-1898 | When time runs out in nine of its steps at the latest, a task has ended, whatever the others do |
| GeofenceRemoves.AlwaysGrantedExactlyWhenTrustworthy | frameworks/js/napi/source/location_napi_adapter.cpp:1851-1898 | The exact condition on any set of codes the service may answer with and any set of reports it may send after the add: a fence leaves the map only with a stored report that a delete succeeded, in every run, if and only if the service refuses no call and reports success for deletes only, or never reports about deletes at all |
| GeofenceRemoves.AlwaysGrantedExactlyWithoutRefusals | frameworks/js/napi/source/location_napi_adapter.cpp:1851-1898 | For a service whose reports after the add are about deletes, this is exactly when it refuses no call |
| GeofenceRemoves.UngrantedRemoveMeansRefusal | frameworks/js/napi/source/location_napi_adapter.cpp:1851-1898 | In any run, on the callback object of a fence that was taken out without a stored granting report, some report about a delete has come, and a remove was refused or a success was reported that is not about a delete |
| GeofenceRemoves.RefusalTakesTheFenceOut | frameworks/js/napi/source/location_napi_adapter.cpp:1862-1866 | From every reachable state with a waiting accepted remove, a refused remove and a stored result that passes for success on the same object, the fence can leave the map before the result of its report is stored, whatever that report says |
| GeofenceRemoves.TwoRemovesCanMeet | frameworks/js/napi/source/location_napi_adapter.cpp:1851-1898 | Such a state can be reached for every fence in the map whose object holds a result that passes for success, as its add leaves it |
| GeofenceRemoves.StrayReportTakesTheFenceOut | frameworks/js/napi/source/location_napi_adapter.cpp:1851-1898 | Without any refusal: from every reachable state with a waiting accepted remove and two reports to come, a report that passes for success, whatever it is about, and the type of one about a delete are enough to take the fence out |
| GeofenceRemoves.StrayReportCanMeetRemoves | frameworks/js/napi/source/location_napi_adapter.cpp:1851-1898 | Such a state can be reached for every fence in the map, with two accepted removes |
| GeofenceRemoves.RefusedRemoveDisturbsAnother | frameworks/js/napi/source/location_napi_adapter.cpp:1851-1898 | A run, for each refusal code and each report about a delete, one that says that the id is unknown included, in which a fence is taken out before the result of that report is stored |
| GeofenceRemoves.StraySuccessDisturbsRemove | frameworks/js/napi/source/location_napi_adapter.cpp:1851-1898 | A run without a refusal, for each success that is not about a delete, in which a fence is taken out without a granting report |
| GeofenceRemoves.GrantedRemoveSucceeds | frameworks/js/napi/source/location_napi_adapter.cpp:1851-1898 | From every reachable state, a remove of a fence in the map that is accepted and answered in time with a granting report takes out that fence and no other |
| GeofenceRemoves.UnknownRemoveSucceeds | frameworks/js/napi/source/location_napi_adapter.cpp:1824-1832 | A remove of an id that is not in the map, answered in time with a granting report on its own callback object, succeeds and leaves the map as it is |
| GeofenceRuns.UndeclaredCodeTellsNoFence | frameworks/js/napi/source/location_gnss_geofence_callback_napi.cpp:364-398 | A run in which a result code outside the declared range makes an add tell the id -1 |
| GeofenceRuns.GrantedAddSucceeds | frameworks/js/napi/source/location_napi_adapter.cpp:1753-1800 | An add that is answered in time with a granting report tells the id and enters it into the map |
| GeofenceTasks.TaskStepKeeps | frameworks/js/napi/source/location_napi_adapter.cpp:1753-1800 | Every statement of a task keeps the invariant of its callback object |
| GeofenceTasks.AnswerStepKeeps | frameworks/js/napi/source/location_gnss_geofence_callback_napi.cpp:186-196 | Every statement of a report handler keeps it too |
| GeofenceTasks.SucceedsExactly | frameworks/js/napi/source/location_gnss_geofence_callback_napi.cpp:364-398 | A result code passes for success exactly when it is 0 or not declared |
| GeofenceTasks.FailsExactly | frameworks/js/napi/source/location_gnss_geofence_callback_napi.cpp:364-398 | Exactly which results give which error code |
| GeofenceRuns.HandlerRuns | frameworks/js/napi/source/location_gnss_geofence_callback_napi.cpp:83-90 | A handler that is not interrupted stores the report whole and lowers the latch |
| GeofenceTasks.GnssGeofenceCallback.OnReportOperationResult | frameworks/js/napi/source/location_gnss_geofence_callback_napi.cpp:186-196 | Stores type and result, and the id only for a successful add |
| GeofenceTasks.GnssGeofenceCallback.OnRemoteRequest | frameworks/js/napi/source/location_gnss_geofence_callback_napi.cpp:83-90 | The same, then the latch is lowered |
| FusionFence.ParseFusionFenceRequest | frameworks/js/napi/source/fusion_fence_napi.cpp:826-864 | The parser accepts exactly the objects described by `Accepts` and returns what they stand for: valid fences among the first 30 of each kind the mask selects, at least one of each, no list for other kinds |
| FusionRequests.RequestIsReadBack | frameworks/js/napi/source/fusion_fence_napi.cpp:826-864 | Every request in the ranges of its fields, written as a script object, is accepted and parsed back to itself, each field from the property of its name |
| FusionRequests.AcceptedIsRequest | frameworks/js/napi/source/fusion_fence_napi.cpp:826-864 | The parser returns no other requests |
| FusionRequests.GnssParsesExactly | frameworks/js/napi/source/fusion_fence_napi.cpp:220-266 | The GNSS fences that are returned are exactly the polygons and circles described, each parsed from its object |
| FusionRequests.CellInfoParsesExactly | frameworks/js/napi/source/fusion_fence_napi.cpp:40-123 | The cell infos that are returned are exactly those with fields in range, each parsed from its object |
| FusionRequests.CellFenceParsesExactly | frameworks/js/napi/source/fusion_fence_napi.cpp:400-464 | The same for cell fences of up to 1000 infos, also an empty one |
| FusionRequests.FeatureParsesExactly | frameworks/js/napi/source/fusion_fence_napi.cpp:268-361 | The same for wifi features with at least one address |
| FusionRequests.WifiParsesExactly | frameworks/js/napi/source/fusion_fence_napi.cpp:312-398 | The same for wifi fences of the two types with 1 to 150 features |
| FusionRequests.CellInfoNeedsExactly | frameworks/js/napi/source/fusion_fence_napi.cpp:40-123 | A cell info is parsed exactly when its nine required properties are numbers |
| FusionRequests.CircleNeedsExactly | frameworks/js/napi/source/fusion_fence_napi.cpp:172-218 | A circle is parsed exactly from four numbers with a positive expiration |
| FusionRequests.FeatureNeedsExactly | frameworks/js/napi/source/fusion_fence_napi.cpp:268-361 | A feature is parsed exactly from two numbers and a non-empty list of addresses |
| FusionRequests.MacIsSixPairs | frameworks/js/napi/source/fusion_fence_napi.cpp:268-310 | An address is six pairs of hexadecimal digits joined by colons |
| FusionRequests.RequestReparses | frameworks/js/napi/source/fusion_fence_napi.cpp:826-864 | An accepted request written back as a script object is accepted again and stands for the same request |
| FusionFence.PolygonAcceptedExactly | frameworks/js/napi/source/fusion_fence_napi.cpp:125-170 | A polygon is accepted exactly with three different valid points among the first ten elements, and consists of exactly these points, each once |
| FusionFence.DistinctKeepsTheOrder | frameworks/js/napi/source/fusion_fence_napi.cpp:147-163 | The points come in the order of their first occurrences |
| FusionRequests.PolygonIsReadBack | frameworks/js/napi/source/fusion_fence_napi.cpp:125-170 | Every polygon, written as a script array, is parsed to itself |
| FusionFence.ParsePolygonPoints | frameworks/js/napi/source/fusion_fence_napi.cpp:125-170 | The index loop with its search for duplicates computes this polygon |
| FusionFence.NativeMaskIsExact | frameworks/js/napi/source/fusion_fence_napi.cpp:734-756 | For every script mask: the native mask has the bit of an event exactly when the script asked for it, has no other bits, and gives back the six event bits of the script mask |
| FusionFence.ConvertJsTransitionEventsToNative | frameworks/js/napi/source/fusion_fence_napi.cpp:734-756 | The accumulated mask is the sum of the bits of the requested events, for every 32-bit mask, negative ones included |
| FusionFence.ParseTimingFields | frameworks/js/napi/source/fusion_fence_napi.cpp:758-800 | Accepts exactly non-empty masks of the six events, a loiter time of at least 0 and a positive expiration |
| FusionFence.ParseGnssFences | frameworks/js/napi/source/fusion_fence_napi.cpp:466-504 | Invalid fences are skipped, only the first 30 elements count, and at least one fence is needed |
| FusionFence.ParseCellFences | frameworks/js/napi/source/fusion_fence_napi.cpp:506-545 | The same for cell fences |
| FusionFence.ParseWifiFences | frameworks/js/napi/source/fusion_fence_napi.cpp:547-586 | The same for wifi fences |
| FusionFence.ParseGnssFence | frameworks/js/napi/source/fusion_fence_napi.cpp:220-266 | A polygon or a circle, by its declared type |
| FusionFence.ParseCellFence | frameworks/js/napi/source/fusion_fence_napi.cpp:444-464 | The cell infos, or an empty fence when the property cannot be read |
| FusionFence.ParseCellInfos | frameworks/js/napi/source/fusion_fence_napi.cpp:400-442 | Invalid cell infos are skipped, only the first 1000 elements count, and at least one is needed |
| FusionFence.ParseWifiFence | frameworks/js/napi/source/fusion_fence_napi.cpp:363-398 | A declared fingerprint type with its features |
| FusionFence.ParseWifiFeatures | frameworks/js/napi/source/fusion_fence_napi.cpp:312-361 | All of the first 150 features must be valid, and there must be one |
| FusionFence.ParseWifiMacAddresses | frameworks/js/napi/source/fusion_fence_napi.cpp:268-310 | All addresses must match the pattern, and there must be one |
| FusionFence.HasFenceExactly | frameworks/js/napi/source/fusion_fence_napi.cpp:611-690 | A list has a fence among its first 30 elements exactly when the collected fences are not empty |
| Javascript.CollectIsInOrder | frameworks/js/napi/source/fusion_fence_napi.cpp:494-503 | What skipping invalid elements keeps: values of elements that parse, in order |
| Javascript.CollectTakesAll | frameworks/js/napi/source/fusion_fence_napi.cpp:494-503 | And every element that parses |
| Javascript.WholeNumbersStay | frameworks/js/napi/source/napi_util.cpp:908-924 | A whole number in the 32-bit range is read as itself |
| Javascript.TruncateDropsTheFraction | frameworks/js/napi/source/napi_util.cpp:908-924 | Any other number loses its fraction, towards 0 |
| Javascript.NumberToInt32 | frameworks/js/napi/source/napi_util.cpp:908-924 | The conversion of a script number lies in the 32-bit range and differs from the truncated number by a multiple of its size |
| Javascript.Text | frameworks/js/napi/source/napi_util.cpp:859-888 | A string is cut to 512 characters and at the first NUL, and otherwise unchanged |

## Left out

- `GetDistanceBetweenLocations`: trigonometry in floating point.
- The cached-location pair in frameworks/cj/source/geolocationmanager_impl.cpp:608-652: it reports "not supported" after unregistering its first match and does not erase it, so list and service do not agree there.
- The batch decoder in frameworks/cj/source/cached_locations_callback.cpp:58-61: it sizes its list beforehand and then appends, which gives twice as many entries; the script front end's decoder is modelled instead.
- The completion of fusion-fence calls in frameworks/js/napi/source/location_napi_adapter.cpp:2364-2381: it does not look at the latch.
- The callback of a fusion-fence request, and the transitions that fences report to scripts.
- Beacon fences and their comparison.
- Script engine, event loop and IPC calls, logging, permissions, system-ability loading, memory that runs out.
- Country-code manager, freeze manager and request manager: only their headers are shown.
- The other subscription callbacks of the script front end: they repeat the registration lists modelled here.
- Floor fields of a location, which no parcel carries, and the comparison of locations.
- NaN and infinite coordinates; multi-byte characters at the 512-byte limit of a string.
- Deleting the script handler of a removed geofence; in `GeofenceTasks` the map is what changes.
- LoneRemoveObeysItsReport: speaks about the remove's own report, so it is for a remove that is alone on its callback object; what holds for removes that share one, and exactly when, is in AlwaysGrantedExactlyWhenTrustworthy.
- FewReportsInAnySpan: requires that no report at time 0 has an early follower, because one breaks the bound, as ReportAtTimeZeroBreaksTheBound shows; FewReportsExactlyUnlessBegunAtTimeZero has the exact condition on the calls.
