# Verification of the BlueZ media binding

A Dafny model of the stateful parts of the binding between BlueZ (over D-Bus) and Dart: the native
object cache and its Dart mirror, cover-art sessions and downloads, ownership of acquired transport
descriptors, the worker queues, the wire codec between the two sides, and the refresh protocol of the
Dart proxies. `dafny verify dfyconfig.toml` checks everything.

The shape is the same throughout. What an object of the source does to its fields is a class whose
methods are proved equal to specification functions on a plain value; runs of these functions, in any
interleaving with the environment, are a transition system; and the theorems are about every run.

| file | content |
|---|---|
| `ObjectCache.dfy` | the native cache as functions on a flat map from (path, interface) |
| `MediaObjectManager.dfy` | the class with its three nested maps, proved against `ObjectCache` |
| `CacheSignals.dfy` | what each signal and reply does to the cache, said of its contents |
| `CacheConvergence.dfy`, `CacheRuns.dfy`, `StaleKeys.dfy` | service, queue of signals, calls in flight and cache as one system; convergence and its exact exceptions, staleness, draining |
| `ObjectMirror.dfy`, `Availability.dfy`, `BluezMediaClient.dfy` | the Dart dispatcher fed with the posted bytes, its flags, and the class |
| `CoverArtSteps.dfy` | what each critical section does to the two maps |
| `CoverArtSessions.dfy`, `CoverArtCounts.dfy` | session ownership and user counts in every run, and how far the counts can be off |
| `CoverArtService.dfy`, `CoverArtSharing.dfy` | the class, and its use by many threads |
| `CoverArtDownload.dfy`, `CoverArtFile.dfy` | fetching cover art into a file; reading a file whole |
| `FdOwnership.dfy`, `FdClaims.dfy`, `FdRegistry.dfy` | tokens, pending sets and reused descriptor numbers, what can be claimed, and the classes |
| `OperationQueues.dfy`, `ContextTeardown.dfy` | the worker queue and the two-queue teardown, and the classes |
| `WireCodec.dfy`, `WireBuffer.dfy`, `Messages.dfy`, `WireLayout.dfy` | the format by schema, the encoder and reader in place, the ten messages, and their bytes written out |
| `ProxyRefresh.dfy`, `ProxyFields.dfy`, `MediaProxy.dfy` | the revision protocol of the five proxies, what they announce field by field, and the class |
| `Orders.dfy`, `Wrappers.dfy` | sets listed in some order; `Option` |

## Assumptions

- Signals and owner changes reach the cache in the order in which the service sent them. Replies do
  not have to: a GetAll or GetManagedObjects reply, for the latest owner or an earlier one, may show any
  state the service has had since the call, and may arrive before or after any signal.
- A PropertiesChanged signal names an interface that exists, with the new values; an invalidated key
  may have any value. A property changes only with a signal that reports it, as changed or invalidated:
  one that BlueZ changes without PropertiesChanged is not covered. An owner that goes takes its objects
  with it.
- Posting to a Dart port succeeds for events. For acquired descriptors it may fail.
- Every critical section is one step. The unlocked device lookup of `register_player` lies between
  two steps, so anything may happen there.
- RemoveSession is taken as effective. Sessions that the daemon reports gone, or that go with it, are
  counted as lost, not removed. A CreateSession call that reports an error may nevertheless have made
  a session; it is counted as unheard.
- Removing a file is effective, and only obexd writes the target. A transfer that is over, gone or
  successfully cancelled writes no more. A request that reports an error may nevertheless have started
  a transfer, and Cancel may fail; such a transfer is an orphan, and the contracts of `Download` say
  exactly what it can spoil.
- Whether a target exists is asked as `std::filesystem::exists` does, which follows links: a symbolic
  link to nothing does not exist, and is removed by a download that fails. The test itself succeeds.
- Nobody outside the library closes a descriptor that is tabled or held by an operation in progress.
  `FdOwnership.OutsideCloseMisdirects` shows what happens otherwise.

## Results that are negative

- A GetAll that fails can leave stale keys: keys invalidated after the state their cached value was
  read from. `CacheRuns.Convergence` gives agreement off the stale keys, and on a stale key the cache
  decides nothing: `StaleKeys.StaleKeyTellsNothing` reaches the same cache with any value in the
  service. "The same" is up to the events already posted, which show what was cached earlier.
  `CacheRuns.FailedRefreshKeepsOldValue` is a run with such a key.
- A snapshot that fails loses the locations that are not added or removed afterwards: the cache is
  right there exactly if they do not exist (`CacheRuns.Convergence`; a run in
  `CacheRuns.FailedSnapshotLosesObjects`). The client then goes on saying that the service is
  unavailable until the next owner (`Availability.AvailableIffListed`).
- After obexd restarts or removes a session, users can be counted too low. The count at an address is
  exact if and only if no other player was registered there when its session last entered the table
  (`CoverArtCounts.CountExactIffEnteredAlone`, for every run): a player that comes back alone and is
  joined by others later is counted right, one that comes back, or arrives, while others are still
  registered leaves these uncounted for as long as the session stays.
- Therefore a session can be dropped, and removed if owned, while a player still uses it: exactly when
  one of its players unregisters while the session counts one user and some player goes uncounted
  (`CoverArtCounts.DroppedInUse`; a run in `CoverArtCounts.SharedSessionRemoved`).
- A session that obexd made for a CreateSession call that reported an error is never removed
  (`CoverArtSessions.ResetRemovesAll` and `CoverArtSessions.StepUnheard`, both directions; a run in
  `CoverArtSessions.UnheardSession`).
- A removal that hops through the first queue can be overtaken by an addition that was reported later
  and posted to the second queue directly. It is carried out first if and only if its hop was posted
  first (`OperationQueues.PostingOrderDecides`; a run in `OperationQueues.AdditionOvertakesRemoval`).
- A string or list of 2^32 elements or more does not survive the codec
  (`WireCodec.RoundTripsExactlyWhenShort`).
- A refresh that fails still outdates the ones before it: its revision was taken when it was issued
  (`ProxyRefresh.ReplyAppliedIffNothingNewer`, where a request alone counts as newer).

## Model

| member | source | states |
|---|---|---|
| `MediaObjectManagers.MediaObjectManager.OnInterfacesAdded` | native/src/media_object_manager.cpp:205-216 | adding an object gives each of its media interfaces the listed properties and a revision never used before, posts them, and leaves every other location alone; the three nested maps keep one domain |
| `MediaObjectManagers.MediaObjectManager.OnInterfacesRemoved` | native/src/media_object_manager.cpp:218-247 | each known media interface named is dropped and posted once, unknown ones are ignored, and no path is left with an empty set |
| `MediaObjectManagers.MediaObjectManager.OnPropertiesChanged` | native/src/media_object_manager.cpp:63-88 | a known interface takes the changed keys over its old ones under a new revision; it is posted if anything changed and asked for again if anything was invalidated; the two `at` lookups cannot fail |
| `MediaObjectManagers.MediaObjectManager.ApplyUpdate` | native/src/media_object_manager.cpp:186-191 | an update is performed at once, or kept in order while a snapshot is awaited |
| `MediaObjectManagers.MediaObjectManager.OnGetAllReply` | native/src/media_object_manager.cpp:166-183 | a reply replaces the properties only at the revision it was asked for; at another revision it asks again, and for an unknown interface or an error it does nothing |
| `MediaObjectManagers.MediaObjectManager.PostProperties` | native/src/media_object_manager.cpp:249-280 | exactly a known interface is posted, with the properties cached for it |
| `MediaObjectManagers.MediaObjectManager.OnOwnerChanged` | native/src/media_object_manager.cpp:112-149 | the draining loop ends with all three maps empty, one removal posted for each known pair and no other, pending updates forgotten and a new generation, whose snapshot is requested only for a new owner |
| `MediaObjectManagers.MediaObjectManager.OnSnapshot` | native/src/media_object_manager.cpp:132-149 | a snapshot of an earlier generation does nothing; an error ends the waiting; otherwise the objects are added and the kept updates applied in order, before the ready event |
| `MediaObjectManagers.MediaObjectManager.GetManagedObjects` | native/src/media_object_manager.cpp:193-203 | the first listing is added object by object, before the snapshot event |
| `CacheSignals.AddedSignal` | native/src/media_object_manager.cpp:205-216 | after an object is added, each of its media interfaces has the properties listed for it and a new revision, everything else is as before, one event is posted for each and nothing is asked |
| `CacheSignals.RemovedSignal` | native/src/media_object_manager.cpp:218-247 | after a removal the named media interfaces are gone, everything else is as before, and one event is posted for each that was known |
| `CacheSignals.ChangedSignal` | native/src/media_object_manager.cpp:63-88 | key by key, a change of a known location gives the changed keys their new values and leaves the others; it is posted if and only if a key was changed, and asked for at its new revision if and only if one was invalidated; an unknown location changes nothing |
| `CacheSignals.ReplyTaken` | native/src/media_object_manager.cpp:166-183 | a reply is stored and posted if and only if it carries the current revision; at another one the location is asked for again at the current one; a failure or an unknown location changes nothing |
| `CacheSignals.OwnerChangeEmpties` | native/src/media_object_manager.cpp:112-134 | an owner change empties the cache, posts one removal for each known location and then the loss, and calls GetManagedObjects at once, under a new generation, if there is a new owner |
| `MediaObjectManagers.Nested.PathsHaveEntries` | native/src/media_object_manager.cpp:117-123 | the interface map is empty exactly when nothing is cached, and then so are the other two |
| `MediaObjectManagers.RemovingEach` | native/src/media_object_manager.cpp:118-123 | removing all the interfaces of a path drops exactly these locations, each posted once, in order |
| `CacheConvergence.ApplyAt` | native/src/media_object_manager.cpp:69-107 | an update acts on each location as a constant (add, remove), an override (change) or not at all; a location it touches gets a new revision or goes |
| `CacheConvergence.LogNormalForm` | native/src/media_object_manager.cpp:144-147 | at each location any log of updates amounts to one constant or one override |
| `CacheConvergence.ReplayIsHarmless` | native/src/media_object_manager.cpp:132-149 | applying a log to a cache that already includes it changes no value, for every log and every cache |
| `CacheConvergence.ReplayOverSnapshot` | native/src/media_object_manager.cpp:142-148 | a snapshot of any state since the owner change, with all signals since then replayed over it, is the service in its last state, except on keys invalidated after the state listed |
| `CacheConvergence.SeenStep` | native/src/media_object_manager.cpp:69-107 | consuming one more signal leaves every cached key the value of the service state it was read from, with no later signal consumed that speaks of it, unless it has been invalidated since |
| `CacheConvergence.SeenAgrees` | native/src/media_object_manager.cpp:69-107 | once every signal is consumed, such a cache agrees with the service on all keys not invalidated since they were read |
| `CacheConvergence.ReplayAt` | native/src/media_object_manager.cpp:142-148 | the same for the kept signals replayed over a snapshot, which may be ahead of them |
| `CacheConvergence.ReplayAsks` | native/src/media_object_manager.cpp:82-86 | every key a replay leaves invalidated, in a location it knows, has been asked for with a GetAll |
| `CacheRuns.StepKeeps` | native/src/media_object_manager.cpp:60-191 | sending, consuming, answering, failing, and a snapshot arriving or failing all keep, at every location, the cache what it was read as, or empty if it was lost with a snapshot |
| `CacheRuns.Convergence` | native/src/media_object_manager.cpp:49-216 | on every run, once all messages are consumed and all calls answered, the cache agrees with the service at each media location off its stale keys, unless the location was lost; without stale keys it is right exactly if the location was not lost (the latest snapshot failed, and nothing since added or removed it) or does not exist; replies may come in any order |
| `CacheRuns.OwnerChangeAsks` | native/src/media_object_manager.cpp:115-134 | on every run an owner change makes one call if there is a new owner and none otherwise; it carries the new generation, which no other unanswered call does |
| `CacheRuns.SnapshotCallsAreMatched` | native/src/media_object_manager.cpp:115-134 | in every reachable state a snapshot is awaited if and only if the call made at the latest owner change is unanswered; calls carry strictly increasing generations, and that one the current one |
| `CacheRuns.LatestListingIsTaken` | native/src/media_object_manager.cpp:132-149 | in every reachable state the answer to that call makes the cache the listed state with the kept signals played over it; the answer to any earlier call changes nothing |
| `CacheRuns.StaleMeansTainted` | native/src/media_object_manager.cpp:170-171 | in a quiet state only a failed GetAll can have left stale keys |
| `CacheRuns.FaultlessRun` | native/src/media_object_manager.cpp:132-184 | a run in which no snapshot fails, and no failing GetAll leaves stale keys that nobody asks for, leaves no exception |
| `CacheRuns.FailedRefreshKeepsOldValue` | native/src/media_object_manager.cpp:170-171 | a run in which the GetAll for an invalidated key fails and the cache goes quiet on the old value |
| `CacheRuns.FailedSnapshotLosesObjects` | native/src/media_object_manager.cpp:138-141 | a run in which the snapshot of a new owner fails and the cache goes quiet without its object |
| `StaleKeys.StaleKeyTellsNothing` | native/src/media_object_manager.cpp:156-184 | whenever a run goes quiet with a stale key, for every value, or none, another run with the same messages leaves the cache just as it is and the service with that value: a stale key is one whose value the cache cannot know |
| `StaleKeys.StepTold` | native/src/media_object_manager.cpp:60-191 | each step of a run has its twin in the run where the service has another value from the last invalidation on, and the cache differs only while it holds that value |
| `CacheRuns.BoundedDisagreement` | native/src/media_object_manager.cpp:60-149 | at any moment a cached key has the service's value of the last consumed signal or of a later one, or was invalidated and is asked for unless that failed; while a snapshot is awaited, or at locations lost with one, nothing is cached |
| `CacheRuns.NoStaleOverwrite` | native/src/media_object_manager.cpp:156-184 | in every reachable state a reply is stored only if no add, remove, change or owner change was consumed for its location since the call, and no reply brings a location back |
| `CacheRuns.StoredIsFresh` | native/src/media_object_manager.cpp:175-182 | a stored reply is a value of the service no older than the cache, and no key is stale after it |
| `CacheRuns.GoneIsDoomed` | native/src/media_object_manager.cpp:170-171 | if the service answers that a location is gone, its removal or replacement is already on the way |
| `CacheRuns.ReplyReducesWork` | native/src/media_object_manager.cpp:175-180 | every answer or failure strictly lowers the sum over outstanding calls of how far each is behind, plus one |
| `CacheRuns.DrainingEnds` | native/src/media_object_manager.cpp:175-180 | without further signals there are at most that many replies |
| `ObjectMirror.DispatchPosted` | native/src/media_object_manager.cpp:249-280 | the bytes of a properties event make the Dart client show this message at this path and change nothing else |
| `ObjectMirror.DispatchDropped` | lib/src/bluez_media_client.dart:722-760 | the bytes of a removal event make the client forget this proxy and no other |
| `ObjectMirror.MirrorShowsReports` | lib/src/bluez_media_client.dart:678-761 | after any sequence of events the client shows at each location what the last event about it says |
| `ObjectMirror.DispatchAnnounces` | lib/src/bluez_media_client.dart:691-760 | whatever bytes arrive, a location has a proxy exactly when its last announcement was an addition |
| `ObjectMirror.DispatchTellsChanges` | lib/src/bluez_media_client.dart:691-760 | whatever bytes arrive, something is announced about a location if and only if its proxy has come or gone |
| `ObjectMirror.PropertiesByTag` | lib/src/bluez_media_client.dart:689-722 | byte by byte: a message behind 0x01, 0x02, 0x04, 0x05 or 0x06 is put into the map of its kind under its path, and nothing else changes |
| `ObjectMirror.RemovalByName` | lib/src/bluez_media_client.dart:728-761 | a removal behind 0x7E takes the path out of the map of the interface it names, and nothing else changes |
| `ObjectMirror.PostedTags` | native/src/media_object_manager.cpp:249-288 | the bytes that begin each kind of posted event |
| `Availability.ClientFollowsRun` | lib/src/bluez_media_client.dart:678-688 | in every reachable state the client is ready, its availability flag is the last turn of the run (down when an owner change is consumed, up when the listing for the latest owner is taken), and its stream has carried the turns that changed something, false and true in alternation |
| `Availability.AvailableIffListed` | lib/src/bluez_media_client.dart:680-686 | in every reachable state the client says that the service is available if and only if no owner change has been consumed, or the latest one brought an owner whose listing has been taken |
| `ObjectMirror.MirrorShowsCache` | native/src/media_object_manager.cpp:205-288 | in every reachable state, owner losses included, dispatching the posted bytes in order gives exactly the native cache |
| `ObjectMirror.MirrorShowsService` | lib/src/bluez_media_client.dart:665-761 | end to end through the wire format: once a run has gone quiet the client shows at each location exactly what the service exports there, unless a stale key is left there or it was lost |
| `ObjectMirror.FaultlessMirror` | lib/src/bluez_media_client.dart:665-761 | without failures that holds at every location |
| `ObjectMirror.ProjectionExists` | native/src/media_object_manager.cpp:249-280 | there are projections that send each media interface its own message about its own path |
| `BluezMediaClients.BluezMediaClient.OnEvent` | lib/src/bluez_media_client.dart:665-676 | an event changes maps, flags and streams as the dispatcher says; an empty or undecodable one, and any after close, changes nothing |
| `BluezMediaClients.BluezMediaClient.DispatchEvent` | lib/src/bluez_media_client.dart:678-726 | each tag reaches its own map; availability is announced only when it changes |
| `BluezMediaClients.BluezMediaClient.RemoveObject` | lib/src/bluez_media_client.dart:728-761 | the named proxy goes and is announced, once, only if it was there |
| `BluezMediaClients.BluezMediaClient.Close` | lib/src/bluez_media_client.dart:147-179 | closing empties the five maps once |
| `CoverArtServices.CoverArtService.UnregisterPlayer` | native/src/cover_art_service.cpp:650-667 | the player goes, its session loses a user, and a session without users is dropped and removed if owned |
| `CoverArtServices.CoverArtService.InvalidatePlayerSession` | native/src/cover_art_service.cpp:626-648 | every player at the address goes, and the session, removed if owned; nothing else changes |
| `CoverArtServices.CoverArtService.BeginRegistration` | native/src/cover_art_service.cpp:553-572 | incomplete arguments unregister, an up-to-date registration stays, and otherwise nothing is changed before the device lookup |
| `CoverArtServices.CoverArtService.FinishRegistration` | native/src/cover_art_service.cpp:574-618 | from any table it finds after the unlocked lookup, the player joins the session of its address at the port, which is kept, found, created or replaced; a call that throws leaves the player unregistered and the count right |
| `CoverArtServices.CoverArtService.ReplaceSession` | native/src/cover_art_service.cpp:591-615 | the new session takes over the users and the old one is removed if owned; when finding or creating throws, nothing is removed and the table stays |
| `CoverArtServices.CoverArtService.ReconnectPlayers` | native/src/cover_art_service.cpp:532-551 | each player known at the start is registered again once, whatever happens to the others; success means that none threw; nothing else runs in between here |
| `CoverArtServices.CoverArtService.ResetAll` | native/src/cover_art_service.cpp:480-493 | each owned session is removed once, and both maps are empty |
| `CoverArtServices.CoverArtService.OnObexOwnerChanged` | native/src/cover_art_service.cpp:431-441 | all sessions are forgotten without being removed, the players stay |
| `CoverArtServices.CoverArtService.OnSessionRemoved` | native/src/cover_art_service.cpp:446-468 | at most one entry with the path is forgotten, and reconnecting is asked for exactly then |
| `CoverArtSteps.UnregisterResult` | native/src/cover_art_service.cpp:650-667 | the player goes alone; its session loses one user, or goes with its last one and is removed if owned; every other session stays |
| `CoverArtSteps.InvalidateResult` | native/src/cover_art_service.cpp:626-648 | exactly the players at the address go, with its session, which is removed if owned; everything else stays |
| `CoverArtSteps.RegisterResult` | native/src/cover_art_service.cpp:574-618 | a registration changes nothing if and only if the player is known with this device and its session has this port; otherwise it is on the session of its address at the port, the one there, the one found or the one made, with one user more, or out if that failed; every other session stays |
| `CoverArtSteps.DaemonResult` | native/src/cover_art_service.cpp:431-468 | the daemon's signals take sessions out of the table and change nothing else |
| `CoverArtSteps.ResetResult` | native/src/cover_art_service.cpp:480-493 | a reset empties both maps and removes each owned session once |
| `CoverArtSteps.RunComplete` | native/src/cover_art_service.cpp:553-580 | no player is ever known without device, address or port |
| `CoverArtSessions.StepCounts` | native/src/cover_art_service.cpp:553-667 | every critical section keeps 1 <= users <= players at the address, and, without daemon signals, equality |
| `CoverArtSessions.SessionCounts` | native/src/cover_art_service.cpp:553-667 | in every run, exceptions included, each session has at least one user and no more than its address has players; without daemon signals exactly as many, and the sessions are those of the players' addresses |
| `CoverArtSessions.SessionsConserved` | native/src/cover_art_service.cpp:589-667 | in every run each session path obexd made for the service was made as often as it was removed, lost to the daemon, is owned by the table, or was made by a call that then reported an error |
| `CoverArtSessions.OnlyOwnedAreRemoved` | native/src/cover_art_service.cpp:480-667 | a step removes a session at most as often as the table owns it, however it was found |
| `CoverArtSessions.FoundSessionsAreKept` | native/src/cover_art_service.cpp:201-237 | no session is removed more often than it was created and heard of; one that was only found, never |
| `CoverArtSessions.ResetRemovesAll` | native/src/cover_art_service.cpp:480-493 | without daemon signals, after reset every session heard of has been removed exactly as often as created; nothing is left behind if and only if no registration of the run needed a session, found none, and had its creation fail after obexd made one |
| `CoverArtSessions.StepUnheard` | native/src/cover_art_service.cpp:565-615 | a step leaves an unheard session behind if and only if it is a registration that is not up to date, finds no session with its port in the table after the player is out, finds none at obexd either, and whose CreateSession reports an error after obexd made one |
| `CoverArtSessions.RunUnheard` | native/src/cover_art_service.cpp:565-615 | a run has unheard sessions if and only if it has such a step |
| `CoverArtSessions.UnheardSession` | native/src/cover_art_service.cpp:589-615 | one registration can be such a run |
| `CoverArtCounts.StepUncounted` | native/src/cover_art_service.cpp:431-667 | while an address has a session, no step, daemon signals included, changes how many of its players the session does not count; a session enters the table only with a registration, and then does not count any other player there |
| `CoverArtCounts.LastEntry` | native/src/cover_art_service.cpp:431-667 | in every run, for each session in the table there is a step that brought it in and since which the address has had one |
| `CoverArtCounts.CountExactIffEnteredAlone` | native/src/cover_art_service.cpp:431-667 | in every run that step is a registration; the session does not count exactly as many players as were registered at its address then, besides the one registering, so its count is exact if and only if there were none |
| `CoverArtCounts.DroppedInUse` | native/src/cover_art_service.cpp:650-667 | an unregistration drops a session that other players still have if and only if it counts one user and some player goes uncounted; an owned session is then removed |
| `CoverArtCounts.SharedSessionRemoved` | native/src/cover_art_service.cpp:446-667 | a run that does so: two players share a session, obexd removes it, the first is registered again, the second unregisters, and the new session is removed while the first is still registered |
| `CoverArtCounts.TwoPlayersShare` | native/src/cover_art_service.cpp:589-618 | two players registered at one address and port share one session with two users |
| `CoverArtCounts.ForgettingLosesCount` | native/src/cover_art_service.cpp:565-570 | the case of one registration: after a session was forgotten, a player registered again gets a session counting one user, and registering the others there again changes nothing; CountExactIffEnteredAlone is the statement for runs |
| `CoverArtCounts.DaemonLosesCount` | native/src/cover_art_service.cpp:431-468 | both daemon signals, the restart and the removal of one session, lead to that case |
| `CoverArtSessions.ReconnectKeeps` | native/src/cover_art_service.cpp:532-551 | reconnecting keeps the bound on users and the conservation of sessions |
| `CoverArtSharing.SharedService.RegisterPlayer` | native/src/cover_art_service.cpp:553-618 | register_player, with any other use of the service between its critical sections, is a run of these; if it does not throw, then when it returns a known player has this device, and its address a session with this port |
| `CoverArtSharing.SharedService.ReconnectPlayers` | native/src/cover_art_service.cpp:532-551 | reconnecting, with other threads before and within each registration, is such a run too; if nothing throws, for every player known at the start there is a moment of it when, if known, it has its device and its address a session with its port |
| `CoverArtSharing.SharedService.OtherThreads` | native/src/cover_art_service.cpp:480-667 | so are any critical sections of other threads |
| `CoverArtSharing.SharedService.TableIsRight` | native/src/cover_art_service.cpp:553-667 | therefore counts and conservation hold at every moment of any such use, and no player is known without its parts |
| `CoverArtSessions.ReconnectRestores` | native/src/cover_art_service.cpp:532-551 | reconnecting gives every player's address a session again if no call fails |
| `CoverArtDownloads.Download.FindSession` | native/src/cover_art_service.cpp:724-744 | the session to use is the one the table has for the player after it has been registered, whatever other threads did meanwhile |
| `CoverArtDownloads.Download.WaitForTransfer` | native/src/cover_art_service.cpp:256-291 | the wait ends at the first answer that is news, or when time is up; the result is the file check for a completed or vanished transfer, a timeout for an expired call, and false otherwise; Cancel is called for exactly the transfers that are not over, and only one whose Cancel fails may keep writing |
| `CoverArtDownloads.Download.Fetch` | native/src/cover_art_service.cpp:293-326 | a thumbnail or image request starts at most one transfer, with no file at the target unless an unattended transfer is writing, and waits for it unless the request itself reported an error; a plain result is the verdict of that wait |
| `CoverArtDownloads.Download.TryTransfers` | native/src/cover_art_service.cpp:754-776 | thumbnail first, then, on a cleared target, the native image if one is described; after a round without success every request it had to make, the image included, has reported an error or led to a transfer that was waited for and had failed; a D-Bus error is kept, a timeout passes through |
| `CoverArtDownloads.Download.TryImage` | native/src/cover_art_service.cpp:239-254 | the native image is asked for if and only if a description of type native is among the answers; without success it has reported an error or its transfer was waited for and had failed |
| `CoverArtDownloads.Download.Attempt` | native/src/cover_art_service.cpp:721-783 | a round that does not succeed leaves the target clear and, with sessions of its own, invalidates the session once |
| `CoverArtDownloads.Download.Get` | native/src/cover_art_service.cpp:695-790 | over every path, exceptions included: refused arguments change nothing; success means that the last transfer was waited for and its file is complete; any other end leaves no target file; with no unattended transfer each one started with no file at the target, is over or cancelled, and none still writes; not-found is the result if and only if a lookup found nothing, and plain failure follows a failed transfer in every round, a second one in those that were described a native image, and no D-Bus error; the session table has gone through steps of its own runs only, and is untouched if only an existing session was wanted |
| `CoverArtFiles.ReadCoverArtFile` | native/src/cover_art_service.cpp:386-418 | the buffer filled by any sequence of partial reads and interruptions is their concatenation, of the size the file had; each error has its own outcome |
| `CoverArtFiles.OutcomeOfAnswers` | native/src/cover_art_service.cpp:405-417 | whatever the answers: the first bytes delivered, if there are enough; otherwise changed at end of file, unreadable at a failure |
| `CoverArtFiles.ReadsTheFile` | native/src/cover_art_service.cpp:405-417 | if bytes come out they are the file's first bytes, and "changed" is reported only for a file that became shorter |
| `CoverArtFiles.EnoughReadsFinish` | native/src/cover_art_service.cpp:405-417 | an unchanged file is read whole however the reads are cut up |
| `FdRegistries.FdRegistry.RetainFd` | native/src/bluez_media_client.cpp:159-167 | the descriptor is tabled under a new token, pending on this client, registered or retired |
| `FdRegistries.FdRegistry.ClaimFd` | native/src/bluez_media_client.cpp:1767-1777 | a token is claimed exactly when its client is registered, it is tabled and it is pending there |
| `FdRegistries.FdRegistry.ReleaseFdToken` | native/src/bluez_media_client.cpp:1779-1791 | a tabled token is closed and forgotten by every registered client; any other changes nothing |
| `FdRegistries.FdRegistry.CloseFileDescriptor` | native/src/bluez_media_client.cpp:1793-1811 | closing a tabled number gives its token back; any other number is just closed; the result tells whether it was open |
| `FdRegistries.FdRegistry.ReleasePendingFds` | native/src/bluez_media_client.cpp:145-157 | what a client has pending and tabled when it is destroyed, retired or not, is closed, and nothing else |
| `FdRegistries.FdRegistry.ClearClients` | native/src/bluez_media_client.cpp:128-131 | clearing the map destroys the registered clients one by one and leaves the retired ones |
| `FdRegistries.FdRegistry.CloseRemaining` | native/src/bluez_media_client.cpp:128-134 | everything left in the table is closed once |
| `FdRegistries.FdRegistry.RegisterContext` | native/src/bluez_media_client.cpp:169-175 | a client gets a handle never used before |
| `FdRegistries.FdRegistry.RetireContext` | native/src/bluez_media_client.cpp:184-193 | a retired client leaves the registry with its pending set as it was |
| `FdRegistries.FdRegistry.PostAcquired` | native/src/bluez_media_client.cpp:572-587 | a descriptor whose message cannot be posted is closed at once |
| `FdRegistries.FdRegistry.Decode` | lib/src/bluez_media_client.dart:611-629 | a result is returned exactly when the payload decodes and the claim succeeds; otherwise the token is released |
| `FdRegistries.AcquiredTransport.Close` | lib/src/bluez_media_transport.dart:146-152 | the number is given back at most once |
| `FdOwnership.StepKeeps` | native/src/bluez_media_client.cpp:128-193 | every step of any thread keeps table, pending sets and kernel in accord |
| `FdOwnership.DescriptorsConserved` | native/src/bluez_media_client.cpp:145-193 | in every reachable state a retained descriptor is either tabled, open under its number, unclosed, and then claimed or pending on exactly one client; or out of the table and closed exactly once; no two tokens share a number |
| `FdOwnership.NothingClosedTwice` | native/src/bluez_media_client.cpp:1779-1811 | no open instance, retained or not, is closed twice by the library |
| `FdOwnership.ShutdownClosesAll` | native/src/bluez_media_client.cpp:128-134 | once clients and registry are gone, every retained descriptor has been closed exactly once |
| `FdOwnership.LateFinalizer` | native/src/bluez_media_client.cpp:1779-1791 | after a token has left the table, releasing it changes nothing in any later state, though its number may stand for something else |
| `FdOwnership.GivingBack` | native/src/bluez_media_client.cpp:1779-1811 | closing the number and releasing the token are the same step, and close exactly the retained instance |
| `FdOwnership.OutsideCloseMisdirects` | native/src/bluez_media_client.cpp:1779-1791 | if other code closes a tabled number and it is reused, the finalizer closes the wrong instance: the rule against it is needed |
| `FdOwnership.AcquireTransfersOrCloses` | lib/src/bluez_media_client.dart:611-629 | on the Dart side an acquisition ends owned by the caller and open, or out of the table and closed once |
| `FdClaims.ClaimableUntilSpent` | native/src/bluez_media_client.cpp:1767-1777 | on every run a retained descriptor can be claimed, through its own client only, if and only if that client was registered at its retention and since then it was not claimed or given back nor its client retired or destroyed |
| `FdClaims.RetiredKeepPending` | native/src/bluez_media_client.cpp:1779-1811 | giving tokens back does not reach the pending set of a retired client |
| `ContextTeardowns.OperationQueue.PostTask` | native/src/bluez_media_client.cpp:42-50 | a task is appended, or dropped once stopping |
| `ContextTeardowns.OperationQueue.NextTask` | native/src/bluez_media_client.cpp:64-77 | the worker takes the first task, and leaves only a stopped and empty queue |
| `ContextTeardowns.ClientContext.Teardown` | native/src/bluez_media_client.cpp:103-112 | destroying a client runs what both queues hold, and every hop of the first queue's tasks on the second, in order, before the services go |
| `OperationQueues.AcceptedTasksRunInOrder` | native/src/bluez_media_client.cpp:63-79 | in every interleaving the workers run the accepted tasks in order, and a worker that has left has run them all |
| `OperationQueues.TeardownRunsEverything` | native/src/bluez_media_client.cpp:103-112 | in every interleaving, when the services are destroyed all accepted tasks have run and every hop of a drained operation was accepted and run |
| `OperationQueues.NothingRunsAfterDestruction` | native/src/bluez_media_client.cpp:103-112 | no task is running or ever starts after the services are destroyed |
| `OperationQueues.PostingOrderDecides` | native/src/bluez_media_client.cpp:42-79 | of two tasks the second queue accepts in a run, hops or not, the one posted first has the earlier place, and is executed there: a removal comes before an addition if and only if its hop was posted first |
| `OperationQueues.AdditionOvertakesRemoval` | native/src/bluez_media_client.cpp:251-287 | a run in which a removal is reported before an addition and carried out after it |
| `OperationQueues.TeardownEnds` | native/src/bluez_media_client.cpp:52-61 | from the stop request on some step is always possible until the end, and each one leaves less to do |
| `WireCodec.RoundTrip` | native/include/glaze_meta.h:56-159 | decoding where an encoding stands gives the value back and ends exactly behind it, for every schema, nested lists and negative integers included |
| `WireCodec.TextRoundTripsExactlyWhenShort` | native/include/glaze_meta.h:96-100 | a string comes back if and only if its length fits the 32-bit prefix |
| `WireCodec.RoundTripsExactlyWhenShort` | native/include/glaze_meta.h:96-142 | the same for every schema: a value comes back if and only if every string and list in it fits its prefix |
| `WireCodec.DecodeStaysInside` | lib/src/ffi/codec.dart:152-260 | on arbitrary bytes a successful decode ends inside the view and never moves back |
| `WireCodec.DecodeIgnoresSuffix` | lib/src/ffi/codec.dart:152-260 | bytes behind what was read do not matter |
| `WireCodec.StrictPrefixFails` | lib/src/ffi/codec.dart:162-169 | no strict prefix of an encoding decodes |
| `WireCodec.DecodedIsTyped` | lib/src/ffi/codec.dart:171-260 | whatever is decoded is a value of its type that can be encoded again |
| `WireLayout.MessageBytes` | native/include/bluez_media_types.h:27-224 | the bytes of every message are those of its fields in the order of their list, numbers with the low byte first, negative ones from above, strings and lists behind their 32-bit length |
| `WireBuffer.ByteBuffer.WriteInteger` | native/include/glaze_meta.h:56-64 | the loop of shifts appends the little-endian bytes |
| `WireBuffer.ByteBuffer.EncodeField` | native/include/glaze_meta.h:66-159 | every overload appends the encoding of its value to the buffer |
| `WireBuffer.Reader.ReadValue` | lib/src/ffi/codec.dart:152-260 | reading through a view at any base offset equals decoding a copy of the viewed bytes, and the offset moves as far; a read past the view fails |
| `WireBuffer.Reader.ReadOctets` | lib/src/ffi/codec.dart:206-226 | a length-prefixed read takes exactly the bytes of the view |
| `Messages.LayoutsAgree` | native/include/bluez_media_types.h:27-224 | the field lists of all ten messages match, type by type, what the Dart decoders read |
| `Messages.FieldsComeBack` | lib/src/ffi/codec.dart:42-149 | each named field is refilled from the read that carries it |
| `Messages.MessageRoundTrip` | lib/src/ffi/codec.dart:13-149 | a whole message decodes to itself wherever it stands |
| `Messages.AcquiredFrameRoundTrip` | native/src/bluez_media_client.cpp:574-583 | token and result survive the acquire frame and the view without its tag |
| `MediaProxies.MediaProxy.BeginRefresh` | lib/src/bluez_media_player.dart:102-104 | a refresh takes a revision of its own, even on a disposed proxy, where it fails |
| `MediaProxies.MediaProxy.CompleteRefresh` | lib/src/bluez_media_transport.dart:87-94 | a reply is shown only at the revision it was asked for |
| `MediaProxies.MediaProxy.UpdateProps` | lib/src/bluez_media_player.dart:109-133 | on a live proxy the snapshot is replaced under a new revision and the changed names are emitted if there are any |
| `MediaProxies.MediaProxy.Dispose` | lib/src/bluez_media_player.dart:135-139 | disposing changes only the flag |
| `MediaProxies.SameElements` | lib/src/bluez_media_transport.dart:123-129 | lists are compared by value |
| `MediaProxies.ImageHandle` | lib/src/bluez_media_player.dart:41-46 | the first value under the key is found, or nothing |
| `ProxyRefresh.ReplyAppliedIffNothingNewer` | lib/src/bluez_media_player.dart:102-107 | after any run since the request, a reply is applied exactly when no other request was made and no snapshot was shown meanwhile and the proxy is not disposed |
| `ProxyRefresh.EarlierRefreshLoses` | lib/src/bluez_media_player.dart:102-107 | once a later refresh has been issued, an earlier one is never shown, whatever happens in between and afterwards; the later one is, if nothing newer came and the proxy lives |
| `ProxyRefresh.DisposedIsFinal` | lib/src/bluez_media_player.dart:109-139 | after dispose neither the snapshot nor the stream changes |
| `ProxyRefresh.AnnouncedExactly` | lib/src/bluez_media_player.dart:112-127 | an announcement names exactly the tracked fields that differ, in the fixed order, none twice |
| `ProxyFields.AnnouncesItsFields` | lib/src/bluez_media_player.dart:109-133 | for all five kinds the announcement is the list of names the comparisons of the source produce, in their order, each by the field of that name |
| `ProxyRefresh.SilenceMeansEqual` | lib/src/bluez_media_transport.dart:98-113 | for all five kinds, nothing is announced if and only if the two snapshots of one object are equal |
| `ProxyRefresh.StreamTellsDifferences` | lib/src/bluez_media_transport.dart:96-115 | in every run the stream is the list of differences between consecutive snapshots, none of them empty |

## Left out

- The `removed` and `player` callbacks of `MediaObjectManager`, which only post tasks to the queues; how these tasks are ordered is in `OperationQueues`.
- `property_proxies_`: that a path's proxy, and with it its pending calls, is dropped with the last interface is covered by calls that fail.
- How properties become a message (`media_property`, `variant_to_string`, `track_to_properties`, the `encode_properties` functions): an abstract total projection, not injective.
- UTF-8: strings are byte strings, and a decode does not fail on malformed text.
- Wrap-around of 64-bit revisions, generations, handles and tokens: unbounded naturals. Only the user count of a session wraps, and `CoverArtSessions.SessionCounts` shows that it never does.
- In `OnSnapshot` the pending updates are taken out before the objects are added instead of after; nothing can observe the difference.
- Iteration order of the source's ordered and unordered maps: the loops are proved for any order, and the ledgers that depend on it take the order as a parameter.
- Proxies that the user creates on a path without an object, and refreshes called on mirrored proxies: the mirror is about events alone, the proxies are treated on their own.
- Streams after close, ports and isolates; that `close` completes.
- CoverArtDownloads.Download.Get: deadlines are a finite budget that passing time uses up.
- CoverArtServices.CoverArtService.ReconnectPlayers: no other thread runs between its registrations; they do in `CoverArtSharing.SharedService.ReconnectPlayers`.
- CoverArtFiles.ReadCoverArtFile: EINTR may repeat without end in the source; here the list of answers is finite, and running out of them is an outcome.
- MPRIS lookups around that read (`get_mpris_cover_art`, process checks, file URLs).
- ContextTeardowns.ClientContext.Teardown: the method runs without other threads; the interleaved statements are those of `OperationQueues`.
- MediaProxies.MediaProxy.UpdateProps: the chain of comparisons of each proxy class is one loop over a table of its fields.
- Local player registration (`MediaClient`), the play, volume and browse calls, and the large families of C entry points: one remote call each with the same error mapping.
- The connections and reaper queues of `ClientRegistry`: the same queue; that a client is retired and later destroyed, by whichever thread, or destroyed with the registry, is in `FdOwnership`.
- The `std::map<std::string, std::vector<uint8_t>>` overload and 16-bit signed and 64-bit fields of the encoder, which no message uses; the schemas cover integers of any width.
