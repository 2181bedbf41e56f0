# Verified model of the LWM2M client core

A Dafny model of the parts of the mbed LWM2M/CoAP client that hold its hard logic, with proofs of what they
keep. `dafny verify dfyconfig.toml` checks the whole project.

| part | files |
|---|---|
| Text, integers and buffers | `Bytes`, `M2MString`, `StringBuffer`, `Vector` |
| Object tree, paths and lookup | `ObjectModel`, `ObjectTree`, `TreeRuns`, `TreeLookups` |
| OMA TLV format (section 6.4.3 of OMA-TS-LightweightM2M-V1_0) and PUT/POST | `TlvHeader`, `TlvWalk`, `TlvFlat`, `TlvNested`, `TlvPost`, `TlvReads`, `TlvDeserializer`, `TlvRoundTrip` |
| Observation report handler | `ReportModel`, `ReportEvents`, `ReportHandlers`, `ReportThrottle`, `ReportNotifications`, `ReportOptions` |
| Client state engine and reconnect backoff | `EngineModel`, `EngineSteps`, `EngineRuns`, `EngineFlow`, `EngineSessions`, `InterfaceImpl` |
| Blockwise GET (Block2 of RFC 7959) | `GetModel`, `GetRuns` |
| Event-loop thread start and stop | `EventLoop` |
| randLIB | `Xoroshiro`, `RandLib` |
| Registration query parameters | `UriQuery`, `UriRegistration` |

Code that changes state in place is modelled by classes and methods with loops. Each such method is proved
against a specification function, and the laws are proved about those functions, mostly over every run of
calls. Concurrency is a state machine over interleaved steps. Foreign code (sockets, NSDL, application
callbacks) is a finite script that may call back into any entry point before it returns.

## Where the code does not do what it seems to promise

The lemmas named with each say exactly when the promise holds and show a case where it does not.

- A POST may send any bytes. One that names a resource as multiple while only a single resource has that id makes the
  nested walk read through a null reference. The single resource may be an old one or one that the same payload made
  (`PostReadsNullExactly`, `PostReadsNull`, `PostReadsNullInNewInstance`). A PUT never does (`PutReturns`).
- The walk below a multiple resource runs to the end of the whole payload. In a POST it also takes a multiple resource
  that directly follows for an instance, and makes an instance with its id (`PostMakesExactly`, `PostAddsStray`).
- No read is compared with the payload size. Only the payload is read exactly when every header that is reached, and
  every value that is stored, ends in it; five bytes can make a PUT read 16777215 more (`ReadsInsideExactly`,
  `LongFiveReadsOn`).
- An update of an idle client goes to the register state with the data of an update, whose object list is then read one
  field early: the lifetime is taken for its size. This happens exactly with a lifetime, without a reconnection going on,
  and with a security object, a stored one or a given one with a server instance (`UpdateMisreadsExactly`,
  `NewClientMisreads`). What is said about runs of the client is said of runs in which it does not happen.
- A single notification attribute is copied into two buffers of 20 bytes without a look at its length; only a query with
  several attributes is cut first (`QueryFitsExactly`, `LongPminDoesNotFit`).
- The observation number is documented never to be the reserved 1. The counter skips 1, but only its low 16
  bits are sent, so the 65536th notification carries 1 (`ReservedNumberExactly`, `ReservedNumberIsSent`).
- pmin does not throttle when a threshold can reject a value: a rejected value marks pmin as exceeded, and value
  updates alone show it (`ThrottledExactly`, `RejectionUnthrottles`).
- A failed unregistration is meant to continue after the client has registered again. In every run it does exactly when
  nothing that forgets it happened in between, and a retry is such a thing as soon as it tries to register
  (`ResumedAfterFailureExactly`, `RetryForgetsExactly`, `RetriedUnregistrationIsLost`).
- A reply that has options but no Block2 counts as one with more blocks to come (`RequestsAfterReply`).
- A minus sign does not keep a name from denoting a resource id: the digits of 2^32 less the id do
  (`NameDenotesExactly`).
- A download starts at the beginning of the block that holds its offset, so it starts at the offset exactly when
  that is a multiple of the block size (`StartIsAlignedExactly`).
- A server may answer with a smaller block than it was asked for. The client counts in its own block size and then
  asks for the same block again, so downloads are contiguous exactly when the sizes agree, and one download also when
  the rest of its data fits one block (`ContiguousExactly`, `SmallBlocksRepeat`, `FollowsExactly`).
- A stop that sets its flag before the loop thread has reset it is lost (`EarlyStopNeverReturns`, `LostStop`).
- The version parameter is stored in slot number "count of `=`", so a query is sent as intended exactly when it
  has as many `=` as pieces (`ParametersExactly`, `VersionReplacesPiece`).
- The ten slots for query parameters are not checked: ten parameters leave none for the version
  (`SplitParameters`, `RegisteredAsIntended`, `TenParametersOverrun`).
- With more `=` than pieces a slot below the count stays empty and is read all the same (`GapExactly`,
  `TwoEqualsReadNull`).
- A negative integer written as `convert_integer_to_array` gives it is read back modulo 256
  (`ArrayRoundTrip`, `IntegerThroughTlv`).
- The smallest 64-bit integer cannot be negated, so it is printed as a minus sign and the character before `0` by
  eight (`PrintedExactly`, `IntegerSurvivesExactly`).
- A random range whose minimum is one above the maximum divides by zero, and one further above ignores the range
  (`GetRandomInRange`, `Exchanged`).

## Model

| member | source | states |
|---|---|---|
| M2MString.AtollInvertsDecimal | mbed-client/source/m2mresourcebase.cpp:368-378 | decimal parsing gives back every integer that was printed |
| M2MString.DecimalLength | mbed-client/source/m2mstring.cpp:359-381 | the signed decimal of a 64-bit integer has at most 20 characters |
| M2MString.Reverse | mbed-client/source/m2mstring.cpp:347-357 | the first characters are reversed in place and the rest is untouched |
| M2MString.ItoaC | mbed-client/source/m2mstring.cpp:359-381 | for every 64-bit integer the buffer holds the printed text and a terminator, 21 bytes at most, and the length is returned |
| M2MString.PrintedReversed | mbed-client/source/m2mstring.cpp:359-381 | the digits the loop makes, with the sign last, reversed are the signed decimal, except for the smallest integer |
| M2MString.PrintedExactly | mbed-client/source/m2mstring.cpp:359-381 | parsing what was printed gives the integer back exactly unless it is -2^63 |
| M2MString.BigEndianOfLowBytes | mbed-client/source/m2mstring.cpp:383-429 | reading the low n bytes of any integer gives it modulo 256^n |
| M2MString.AtollReads | mbed-client/source/m2mresourcebase.cpp:368-378 | the digits after white space and a sign are read, up to the first byte that is none |
| M2MString.ArraySizeExactly | mbed-client/source/m2mstring.cpp:391-407 | the size is k exactly when the integer is at least 256^(k-1) - 1 and below 256^k - 1, and 8 at the top |
| M2MString.ConvertIntegerToArray | mbed-client/source/m2mstring.cpp:383-418 | the bytes are the low bytes of the value, in the size the thresholds choose |
| M2MString.ConvertArrayToInteger | mbed-client/source/m2mstring.cpp:420-427 | the result is the big-endian number as a 64-bit integer |
| M2MString.ArrayRoundTrip | mbed-client/source/m2mstring.cpp:383-427 | converting there and back is the identity exactly for the values that are not negative |
| M2MString.EightByteRoundTrip | mbed-client/source/m2mtlvserializer.cpp:198-215 | the eight-byte form of any 64-bit integer is read back unchanged |
| StringBuffers.StringBuffer.EnsureSpace | mbed-client/source/m2mstringbufferbase.cpp:25-36 | there is space exactly when the contents and the required bytes fit the buffer |
| StringBuffers.StringBuffer.AppendChar | mbed-client/source/m2mstringbufferbase.cpp:38-47 | appends the character, or nothing when it does not fit |
| StringBuffers.StringBuffer.Append | mbed-client/source/m2mstringbufferbase.cpp:62-76 | appends the text, or nothing when it does not fit with its terminator |
| StringBuffers.StringBuffer.AppendInt | mbed-client/source/m2mstringbufferbase.cpp:78-87 | appends the decimal, or nothing when it does not fit |
| StringBuffers.StringBuffer.FindLastOf | mbed-client/source/m2mstringbufferbase.cpp:89-101 | the last position of the character, or -1 when there is none |
| StringBuffers.CreatePathBase | mbed-client/source/m2mbase.cpp:135-146 | the path is the bounded join of the parent's path and the name |
| StringBuffers.CreatePathWithId | mbed-client/source/m2mbase.cpp:148-167 | the same with the decimal of an id |
| StringBuffers.PathUntruncated | mbed-client/source/m2mbase.cpp:135-146 | the path is the full join exactly when it fits the buffer with its terminator |
| ObjectModel.NameIdOfDecimal | mbed-client/source/m2mbase.cpp:363-374 | the name id of the decimal of a 16-bit id is that id |
| ObjectModel.NameDenotesExactly | mbed-client/source/m2mbase.cpp:363-374 | the names that denote a 16-bit id: its digits, with leading zeros or a plus sign, or after a minus sign those of 2^32 less the id |
| ObjectModel.ObjectInstance.FindResource | mbed-client/source/m2mobjectinstance.cpp:333-352 | the first resource with the name, or none |
| ObjectModel.ObjectInstance.CreateDynamicResource | mbed-client/source/m2mobjectinstance.cpp:154-182 | appends a new resource exactly when its name is short enough and unused |
| ObjectModel.ObjectInstance.CreateDynamicResourceInstance | mbed-client/source/m2mobjectinstance.cpp:227-264 | creates the resource if it is missing and adds the instance unless its id is taken |
| ObjectModel.ObjectInstance.RemoveResource | mbed-client/source/m2mobjectinstance.cpp:271-293 | removes the first resource with the name, keeping the order of the others |
| ObjectModel.ObjectInstance.RemoveResourceInstance | mbed-client/source/m2mobjectinstance.cpp:295-326 | removes the instance and succeeds exactly when the list changes |
| ObjectModel.Object.FindObjectInstance | mbed-client/source/m2mobject.cpp:152-170 | the first instance with the id, or none |
| ObjectModel.Object.CreateObjectInstance | mbed-client/source/m2mobject.cpp:86-107 | appends a fresh instance exactly when the id is free |
| ObjectModel.Object.RemoveObjectInstance | mbed-client/source/m2mobject.cpp:128-150 | removes exactly the first instance with the id, and says whether there was one |
| ObjectModel.Object.NextFreeInstanceId | mbed-client/source/m2mobject.cpp:414-424 | the smallest free 16-bit id, or none exactly when all are taken |
| ObjectTree.JoinInjective | mbed-client/source/m2mbase.cpp:135-177 | joining names without slashes is injective |
| ObjectTree.PathIsAncestry | mbed-client/source/m2mbase.cpp:135-177 | in a good tree a node's path is the join of its ancestors' ids |
| ObjectTree.PathsAreUnique | mbed-client/source/m2mbase.cpp:135-177 | in a good tree two nodes with the same path are the same node |
| ObjectTree.FindInResource | mbed-client/source/m2mnsdlinterface.cpp:1419-1440 | finds an instance of a multiple resource by its path, or none has it |
| ObjectTree.FindInInstance | mbed-client/source/m2mnsdlinterface.cpp:1382-1417 | finds a resource or resource instance by its path, or none has it |
| ObjectTree.FindInObject | mbed-client/source/m2mnsdlinterface.cpp:1346-1380 | finds a node below an object by its path, or none has it |
| ObjectTree.FindResource | mbed-client/source/m2mnsdlinterface.cpp:1315-1344 | returns a node with the path, and in a good tree exactly the one node with it, or none when there is none |
| TreeRuns.GoodAfterCall | mbed-client/source/m2mobjectinstance.cpp:154-326 | every create, remove, PUT and POST call that reads through no null reference keeps the tree good |
| TreeRuns.GoodAfterPayload | mbed-client/source/m2mtlvdeserializer.cpp:75-93 | a PUT or POST of any payload bytes that reads through no null reference keeps an instance's resources good |
| TreeRuns.GoodAfterRun | mbed-client/source/m2mobject.cpp:86-150 | every run of such calls keeps the tree good |
| TreeRuns.CallStopsExactly | mbed-client/source/m2mtlvdeserializer.cpp:220-235 | a call on a good tree reads through a null reference exactly when it is a POST with an entry of type multiple resource whose id has only a single resource, old or made by the payload |
| TreeRuns.ReachableTree | mbed-client/source/m2mnsdlinterface.cpp:1315-1440 | in every tree that such a run reaches, paths are untruncated joins, unique, and lookup returns exactly the node with the path |
| TreeLookups.LookupAfterCall | mbed-client/source/m2mobject.cpp:86-150 | after any create or remove call on a good tree, for every path and content: it is found exactly when it was found before and was not removed, or was created, each in terms of paths |
| TreeLookups.LocatedIsFound | mbed-client/source/m2mnsdlinterface.cpp:1315-1440 | lookup returns a node with a content exactly when that content is found at the path |
| TreeLookups.LookupOutside | mbed-client/source/m2mtlvdeserializer.cpp:75-93 | a payload changes nothing that is found outside its object instance |
| TlvHeader.HeaderByMasks | mbed-client/source/m2mtlvdeserializer.cpp:513-550 | the decoded header, field by field, in the masks of the source |
| TlvHeader.TypeIdLength.constructor | mbed-client/source/m2mtlvdeserializer.cpp:513-516 | the type bits of the first byte, no id and no length yet |
| TlvHeader.TypeIdLength.Deserialize | mbed-client/source/m2mtlvdeserializer.cpp:518-529 | fields and offset become those of the decoded header |
| TlvHeader.TypeIdLength.DeserialiseId | mbed-client/source/m2mtlvdeserializer.cpp:531-537 | an id of one or two bytes is read and passed over |
| TlvHeader.TypeIdLength.DeserialiseLength | mbed-client/source/m2mtlvdeserializer.cpp:539-550 | a length of zero to three bytes is read and passed over |
| TlvHeader.SerializeTilv | mbed-client/source/m2mtlvserializer.cpp:217-255 | the data grows by the encoded header and the value |
| TlvHeader.SerializeId | mbed-client/source/m2mtlvserializer.cpp:257-267 | the id in one or two big-endian bytes |
| TlvHeader.SerializeLength | mbed-client/source/m2mtlvserializer.cpp:269-287 | the length in zero to three big-endian bytes |
| TlvHeader.HeaderRoundTrip | mbed-client/source/m2mtlvdeserializer.cpp:513-550 | decoding inverts encoding for every type, 16-bit id and length, exactly when the length is below 2^24, and consumes exactly the header |
| TlvWalk.PutCheckChangesNothing | mbed-client/source/m2mtlvdeserializer.cpp:162-244 | the check pass of a PUT of any bytes changes nothing |
| TlvWalk.UpdateFollowsCheck | mbed-client/source/m2mtlvdeserializer.cpp:162-244 | after a check pass without error the update pass has none either, for any bytes |
| TlvWalk.PutIsAtomic | mbed-client/source/m2mtlvdeserializer.cpp:75-93 | a PUT of any non-empty payload that returns an error leaves the resources exactly as they were |
| TlvPost.PostReadsNullExactly | mbed-client/source/m2mtlvdeserializer.cpp:220-262 | a POST of any bytes reads through a null reference exactly when a reached entry is a multiple resource with an acceptable entry below it and only a single resource for its id, in terms of the headers and the list before the call |
| TlvPost.CheckReadsNullExactly | mbed-client/source/m2mtlvdeserializer.cpp:162-244 | the same for the check pass from any offset |
| TlvPost.SingleExactly | mbed-client/source/m2mtlvdeserializer.cpp:220-232 | after any entries an id has only a single resource exactly when it had one before, or had none and the first entry for it is a single one |
| TlvPost.PostReadsNull | mbed-client/source/m2mtlvdeserializer.cpp:225-231 | four bytes that do so on an instance with a single resource 5 |
| TlvPost.PostReadsNullInNewInstance | mbed-client/source/m2mtlvdeserializer.cpp:225-231 | six bytes that do so on an instance with no resources |
| TlvPost.PutReturns | mbed-client/source/m2mtlvdeserializer.cpp:75-93 | a PUT of any bytes never reads through a null reference |
| TlvPost.EmptyPutRemovesEverything | mbed-client/source/m2mtlvdeserializer.cpp:75-93 | what a PUT of no bytes would do, in terms of the stale header: remove everything and report NotFound, or change nothing |
| TlvReads.DependsOnReach | mbed-client/source/m2mtlvdeserializer.cpp:75-93 | the bytes below the end of the last read decide what a PUT or POST of any bytes does and how far it reads |
| TlvReads.ReadsInsideExactly | mbed-client/source/m2mtlvdeserializer.cpp:162-309 | a PUT or POST without a null read reads only its payload exactly when every reached header at both levels ends in it and, if the last entry may be written, every stored value does |
| TlvReads.OnlyThePayloadCounts | mbed-client/source/m2mtlvdeserializer.cpp:75-93 | then it does the same whatever follows the payload |
| TlvReads.CheckReadsInside | mbed-client/source/m2mtlvdeserializer.cpp:162-244 | the check pass from any offset reads only the payload exactly when all headers it reaches end in it |
| TlvReads.UpdateReadsInside | mbed-client/source/m2mtlvdeserializer.cpp:162-244 | the update pass does exactly when the headers and the stored values end in it |
| TlvReads.PostProvides | mbed-client/source/m2mtlvdeserializer.cpp:220-295 | the check pass of a POST leaves a place for every value that its payload brings |
| TlvReads.AcceptsExactly | mbed-client/source/m2mtlvdeserializer.cpp:162-244 | the check pass accepts exactly when the last entry it reaches may be written, in terms of the list before the call |
| TlvReads.RemovalReadsNothingNew | mbed-client/source/m2mtlvdeserializer.cpp:441-475 | the removal pass reads nothing that an accepting check pass has not read |
| TlvReads.LongFiveReadsOn | mbed-client/source/m2mtlvdeserializer.cpp:412-433 | five bytes put to a writable resource that make it read 16777215 more |
| TlvFlat.WalkVisitsEntries | mbed-client/source/m2mtlvdeserializer.cpp:162-244 | the offset walk over any encoded entries visits exactly those entries in order |
| TlvFlat.FlatPut | mbed-client/source/m2mtlvdeserializer.cpp:75-93 | a PUT of any list of resource entries: the last entry decides the error; without error the old resources named in the payload stay, in order, with the value of their last entry |
| TlvFlat.FlatPost | mbed-client/source/m2mtlvdeserializer.cpp:75-93 | a POST of any list of resource entries: the missing resources are created even when it fails, each opaque, empty, named by its id and open to every operation; otherwise each entry is stored |
| TlvNested.WalkApplies | mbed-client/source/m2mtlvdeserializer.cpp:246-309 | the walk below a multiple resource applies its encoded entries in order, and the last one decides the error |
| TlvNested.PutItems | mbed-client/source/m2mtlvdeserializer.cpp:162-309 | a PUT of any single and multiple resources: the verdict, what stays, and that each named resource and resource instance has the text that the bytes of its last entry spell, and every other one its old value |
| TlvNested.PostMultiple | mbed-client/source/m2mtlvdeserializer.cpp:205-309 | a POST of one multiple resource: refused exactly when its last instance may not be written; what is missing is made even then; otherwise each named instance has the text its last entry spells |
| TlvNested.PostMakesExactly | mbed-client/source/m2mtlvdeserializer.cpp:254-309 | the instances after the check pass of a POST: the old ones, the named ones, and one for each multiple resource that directly follows |
| TlvNested.PostAddsStray | mbed-client/source/m2mtlvdeserializer.cpp:254-309 | eight bytes that give resource 5 an instance 6 that none of its entries name |
| TlvDeserializer.StoreValue | mbed-client/source/m2mtlvdeserializer.cpp:412-439 | the stored text of the payload bytes: a decimal for integers, booleans and times, the bytes otherwise, empty when cleared |
| TlvDeserializer.DeserializeResourceInstances | mbed-client/source/m2mtlvdeserializer.cpp:246-309 | one resource and the error become those of the instance walk, whose values are those of TlvNested.WalkApplies |
| TlvDeserializer.WalkBelowNull | mbed-client/source/m2mtlvdeserializer.cpp:254-309 | below a null resource the walk reads it exactly for the kinds it accepts |
| TlvDeserializer.WalkMultiples | mbed-client/source/m2mtlvdeserializer.cpp:205-213 | every multiple resource with the id is walked and the last one decides the error |
| TlvDeserializer.ResourceEntry | mbed-client/source/m2mtlvdeserializer.cpp:181-235 | one resource entry is checked, stored or created |
| TlvDeserializer.DeserializeResourcesFrom | mbed-client/source/m2mtlvdeserializer.cpp:162-244 | list and error become those of the resource walk from an offset, and the walk ends at a read through a null reference |
| TlvDeserializer.RemoveResources | mbed-client/source/m2mtlvdeserializer.cpp:441-475 | exactly the resources whose id occurs in the payload stay, in order |
| TlvDeserializer.DeserializeResources | mbed-client/source/m2mtlvdeserializer.cpp:75-93 | check pass, removal for PUT and update pass, as the deserialization function says; its values are those of TlvNested.PutItems and TlvNested.PostMultiple |
| TlvRoundTrip.SerializeValue | mbed-client/source/m2mtlvserializer.cpp:198-215 | a canonical value is stored again as it was from the bytes; the bytes are eight for an integer or time, one for a boolean, the text otherwise |
| TlvRoundTrip.CommonWrite64Bit | nanostack-libservice/mbed-client-libservice/common_functions.h:341-352 | eight shifted and truncated bytes are the big-endian low bytes of any 64-bit integer |
| TlvRoundTrip.SerializeInstances | mbed-client/source/m2mtlvserializer.cpp:145-196 | the encoded instances of a multiple resource |
| TlvRoundTrip.SerializeResources | mbed-client/source/m2mtlvserializer.cpp:61-92 | the encoded resources, or none exactly when a name is not numeric |
| TlvRoundTrip.ValueRoundTrip | mbed-client/source/m2mtlvdeserializer.cpp:412-423 | a canonical value survives serializing and storing |
| TlvRoundTrip.IntegerThroughTlv | mbed-client/source/m2mtlvdeserializer.cpp:412-423 | an integer written as a short array and read back is itself exactly when it is not negative |
| TlvRoundTrip.IntegerSurvivesExactly | mbed-client/source/m2mtlvserializer.cpp:198-215 | the decimal of a 64-bit integer survives serializing and storing exactly unless it is -2^63 |
| TlvRoundTrip.SerializeThenPut | mbed-client/source/m2mtlvserializer.cpp:61-92 | a PUT of a serialized instance, multiple resources included, turns any instance that differs only in values into it |
| ReportHandlers.ReportHandler.constructor | mbed-client/source/m2mreporthandler.cpp:30-53 | a new handler |
| ReportHandlers.ReportHandler.SetNotificationTrigger | mbed-client/source/m2mreporthandler.cpp:104-124 | the new state as the model function gives it; the search loop keeps ids single |
| ReportHandlers.ReportHandler.ParseNotificationAttribute | mbed-client/source/m2mreporthandler.cpp:126-196 | the new state for a parsed query as the model function gives it, with the restore of a failed one |
| ReportHandlers.ReportHandler.HandleObservationAttribute | mbed-client/source/m2mbase.cpp:468-487 | whatever is written, the attributes in force afterwards fit together, and a failed write leaves the defaults and nothing pending |
| ReportHandlers.ReportHandler.Play | mbed-client/source/m2mreporthandler.cpp:63-369 | after any events on a handler with any past, in its own log no id waits twice or is lost, no number repeats within 65535 notifications, and the attributes fit together; what each event adds to the log is in ReportEvents |
| ReportHandlers.ReportHandler.ReportUnderObservation | mbed-client/source/m2mreporthandler.cpp:63-369 | from the start of an observation on, the handler's own log is throttled when pmin limits and no value can be rejected, a pending change is scheduled, and each triggered id waits or was carried; without pmin every pmax expiry is followed directly by a notification, pmax keeps running, and the log is that of the simple reporter |
| ReportEvents.PMaxExpiry | mbed-client/source/m2mreporthandler.cpp:211-219 | for every handler the expiry of pmax sends one notification with all changed ids exactly when pmin is unset or exceeded, and then pmax runs again |
| ReportEvents.PMinExpiry | mbed-client/source/m2mreporthandler.cpp:198-210 | for every handler exactly when the expiry of pmin sends a pending change, sends the whole value, or sends nothing |
| ReportEvents.ValueUpdate | mbed-client/source/m2mreporthandler.cpp:78-102 | for every handler and value: sent at once, kept until pmin, withheld or ignored, exactly by the value, the thresholds and pmin, and what each does to the timers |
| ReportEvents.TriggerUpdate | mbed-client/source/m2mreporthandler.cpp:104-124 | a trigger adds its id once and is sent with all that wait exactly when pmin does not hold it back |
| ReportEvents.ObservationSwitch | mbed-client/source/m2mreporthandler.cpp:63-76 | an observation starts the timers its attributes ask for and sends nothing; its end leaves the defaults |
| ReportEvents.WriteExactly | mbed-client/source/m2mreporthandler.cpp:126-292 | a write is taken exactly when its first five options are known, thresholds only for numbers, and fit together; then the last option of each kind is in force and nothing else changes, otherwise everything is reset |
| ReportEvents.UntakenIsUndone | mbed-client/source/m2mreporthandler.cpp:168-188 | of several options one that is not taken undoes those before it |
| ReportEvents.PromptRun | mbed-client/source/m2mreporthandler.cpp:198-223 | in every run without pmin each pmax expiry and each trigger is followed directly by a notification, and a running pmax keeps running |
| ReportEvents.FreeRun | mbed-client/source/m2mreporthandler.cpp:63-369 | in every run of values, triggers and pmax expiries without pmin the log and what is remembered are those of a reporter without timers and flags |
| ReportThrottle.WriteFits | mbed-client/source/m2mbase.cpp:468-487 | after any attribute write the attributes in force fit together |
| ReportOptions.SplitQuery | mbed-client/source/m2mreporthandler.cpp:132-166 | the options are at most five pieces of the query, without an empty last one, each cut to 19 characters; a query of one piece is its own option |
| ReportOptions.TrailingSeparator | mbed-client/source/m2mreporthandler.cpp:132-166 | a separator after the last of several options makes no difference |
| ReportOptions.CopyOption | mbed-client/source/m2mreporthandler.cpp:225-246 | the name and the value around the first `=`, or an access outside the buffers exactly when one of them is too long |
| ReportOptions.QueryFitsExactly | mbed-client/source/m2mreporthandler.cpp:126-196 | no option of a query leaves the buffers exactly when it has a separator or its only option fits |
| ReportOptions.LongPminDoesNotFit | mbed-client/source/m2mreporthandler.cpp:190-191 | a single option that does not fit |
| ReportThrottle.ReachableIsSane | mbed-client/source/m2mreporthandler.cpp:371-384 | in every run the attributes in force fit together and the step band is two steps wide |
| ReportThrottle.AlwaysThrottled | mbed-client/source/m2mreporthandler.cpp:294-369 | with pmin set, different from pmax, and no value rejectable, a pmin expiry precedes the first notification and lies between any two, in every run |
| ReportThrottle.ThrottledExactly | mbed-client/source/m2mreporthandler.cpp:78-102 | every run, and every run of value updates alone, is throttled exactly under that condition on the attributes |
| ReportThrottle.RejectionUnthrottles | mbed-client/source/m2mreporthandler.cpp:85-97 | a value the limits reject, reported twice, marks pmin as exceeded with no expiry |
| ReportThrottle.RunSchedules | mbed-client/source/m2mreporthandler.cpp:198-223 | in every run a pending change waits for a running pmin timer |
| ReportThrottle.ExpirySends | mbed-client/source/m2mreporthandler.cpp:198-210 | the pmin expiry of a pending change sends exactly one notification with all changed ids |
| ReportThrottle.ScheduledExactly | mbed-client/source/m2mreporthandler.cpp:63-76 | after observation starts no change is ever left unscheduled, exactly unless one was pending before and pmin is unset or equals pmax |
| ReportNotifications.RunKeepsIds | mbed-client/source/m2mreporthandler.cpp:104-124 | in every run no id waits twice, and each triggered id waits, was carried since, or was dropped by a reset |
| ReportNotifications.TriggersAreCarried | mbed-client/source/m2mreporthandler.cpp:104-124 | with attributes fixed, each triggered id waits or was carried by a later notification |
| ReportNotifications.CounterClosed | mbed-client/source/include/m2mreporthandler.h:213-234 | the 24-bit counter in closed form |
| ReportNotifications.ObservationNumbers | mbed-client/source/m2mreporthandler.cpp:304-342 | in every run the reserved number appears exactly at the stated positions, and no number repeats within 65535 notifications |
| ReportNotifications.ReservedNumberExactly | mbed-client/source/m2mreporthandler.cpp:315-321 | the k-th number is 1 exactly when k modulo 2^24-1 is a positive multiple of 65536 |
| ReportNotifications.NumbersApart | mbed-client/source/m2mreporthandler.cpp:315-321 | numbers fewer than 65535 apart differ |
| ReportNotifications.ReservedNumberIsSent | mbed-client/source/m2mreporthandler.cpp:315-321 | the 65536th of a row of triggers is sent with number 1 |
| EngineModel.NextRetryTime | mbed-client/source/m2minterfaceimpl.cpp:538-541 | doubling with the cap leads from one retry time to the next |
| EngineModel.SinceCounts | mbed-client/source/m2minterfaceimpl.cpp:529-562 | the retry number counts the armings since the times last started over |
| EngineSteps.Arm | mbed-client/source/m2minterfaceimpl.cpp:533-541 | the timer is armed for the due time and the next due time follows the law |
| EngineSteps.RestartIsLawful | mbed-client/source/m2minterfaceimpl.cpp:911-912 | after a restart the first retry time is due again |
| EngineSteps.AfterForeign | mbed-client/source/m2minterfaceimpl.cpp:307-636 | whatever the environment calls back, a foreign call returns with the client at rest, unless an object list is misread |
| EngineSteps.AfterEvent | mbed-client/source/m2minterfaceimpl.cpp:1060-1086 | for every state and every script the event is used up and the client rests, except exactly for received data without data; silent states lead to a fixed state; registering and unregistering restart the retry times; a run in which an object list is misread is marked |
| EngineSteps.AfterState | mbed-client/source/m2minterfaceimpl.cpp:1088-1157 | the same for the function of the current state |
| EngineSteps.AfterRegistered | mbed-client/source/m2minterfaceimpl.cpp:905-920 | restarts the retry times first, forgets the reconnection state, and stays registered unless an unregistration goes on |
| EngineSteps.AfterUnregistered | mbed-client/source/m2minterfaceimpl.cpp:969-975 | restarts the retry times and ends idle, changing nothing else |
| EngineSteps.AfterReceived | mbed-client/source/m2minterfaceimpl.cpp:990-1021 | ends at rest with data and changes nothing without |
| EngineSteps.AfterMessageReady | mbed-client/source/m2minterfaceimpl.cpp:307-325 | ends at rest; an idle client does nothing |
| EngineSteps.AfterClientRegistered | mbed-client/source/m2minterfaceimpl.cpp:327-341 | restarts the retry times first and ends at rest |
| EngineSteps.AfterRegistrationError | mbed-client/source/m2minterfaceimpl.cpp:343-363 | ends at rest; a retry arms the timer for the due time first, asleep or not |
| EngineSteps.AfterClientUnregistered | mbed-client/source/m2minterfaceimpl.cpp:365-371 | restarts the retry times first and ends at rest |
| EngineSteps.AfterBootstrapDone | mbed-client/source/m2minterfaceimpl.cpp:373-387 | restarts the retry times first and ends at rest |
| EngineSteps.AfterBootstrapError | mbed-client/source/m2minterfaceimpl.cpp:406-434 | ends idle and reconnecting with the retry timer armed last |
| EngineSteps.AfterLoss | mbed-client/source/m2minterfaceimpl.cpp:529-562 | a lost connection arms the timer for the due time, restarts the retry times, or only goes idle |
| EngineSteps.AfterSocketError | mbed-client/source/m2minterfaceimpl.cpp:463-562 | completes a waiting bootstrap, is ignored asleep, or loses the connection, with what each does to the retry times |
| EngineSteps.AfterDataSent | mbed-client/source/m2minterfaceimpl.cpp:581-600 | where the client is after data was sent: unchanged, idle after a bootstrap error, or waiting |
| EngineSteps.AfterCall | mbed-client/source/m2minterfaceimpl.cpp:121-636 | every entry point ends at rest with the retry law kept, unless an object list is misread; what each one does is in EngineFlow |
| EngineRuns.EveryRunRestsAndRetriesOnTime | mbed-client/source/m2minterfaceimpl.cpp:425-432 | any calls against any finite script that misread no object list end at rest, and the k-th retry since the last start was armed for min(initial * 2^k, 604800) seconds |
| EngineRuns.UpdateMisreadsExactly | mbed-client/source/m2minterfaceimpl.cpp:1159-1200 | for every client and script an update call goes straight to the misread list exactly when it has a lifetime, the client is idle and does not reconnect, and there is a security object, stored or given with a server instance |
| EngineRuns.RegisterWithUpdate | mbed-client/source/m2minterfaceimpl.cpp:769-842 | the register state with the data of an update misreads the list, registers with the stored security object, or can only fail |
| EngineRuns.MisreadsAreExplained | mbed-client/source/m2minterfaceimpl.cpp:769-842 | in every run, callbacks included, a list is misread only directly after such an update |
| EngineRuns.NewClientMisreads | mbed-client/source/m2minterfaceimpl.cpp:222-231 | a new client that is updated with a lifetime of 120 seconds |
| EngineRuns.UnregistrationGoesOnExactly | mbed-client/source/m2minterfaceimpl.cpp:914-917 | after any calls against any script, registering sends the unregistration exactly when one failed and nothing that forgets it happened since |
| EngineRuns.ResumedAfterFailureExactly | mbed-client/source/m2minterfaceimpl.cpp:343-363 | from a failed unregistration on, over any calls and callbacks without a new failure, registering sends it again exactly when no registration attempt, registration, update call, end of a bootstrap or final error came between |
| EngineRuns.RetryForgetsExactly | mbed-client/source/m2minterfaceimpl.cpp:769-842 | a retry begins with a registration attempt, which forgets, exactly when the client is bootstrapped and has its security object |
| EngineRuns.RetriedUnregistrationIsLost | mbed-client/source/m2minterfaceimpl.cpp:832-841 | a failed unregistration that such a retry follows is not sent by any later registration, over any calls and callbacks without a new failure |
| EngineFlow.RegisterFlow | mbed-client/source/m2minterfaceimpl.cpp:176-220 | for every client and script a registration lists the objects, or checks the address, and then resolves it, exactly in the states Idle, Bootstrapped, Registered and Waiting; anywhere else an error is reported |
| EngineFlow.BootstrapFlow | mbed-client/source/m2minterfaceimpl.cpp:121-167 | the same for a bootstrap, in the states Idle and Bootstrapped |
| EngineFlow.UnregisterFlow | mbed-client/source/m2minterfaceimpl.cpp:247-281 | the unregistration is sent exactly in the states Registered, UpdateRegistration and Waiting, and a refused one makes the client idle |
| EngineFlow.AddressFlow | mbed-client/source/m2minterfaceimpl.cpp:564-579 | a resolved address creates the bootstrap resource, sends the registration exactly when the reconnection is none or a full registration, or sends the update with the registration to fall back on |
| EngineFlow.UpdateFlow | mbed-client/source/m2minterfaceimpl.cpp:1159-1200 | an update in every state: reported, ignored, sent with its new objects, or a registration |
| EngineFlow.RegisteredFlow | mbed-client/source/m2minterfaceimpl.cpp:327-341 | a registered client sends the unregistration that waits, if any, and has nothing left to reconnect for |
| EngineFlow.SocketFlow | mbed-client/source/m2minterfaceimpl.cpp:463-562 | a socket error ends a bootstrap, is slept through, arms a retry or gives up, exactly by the state, the error and the queue mode |
| EngineFlow.RegistrationErrorFlow | mbed-client/source/m2minterfaceimpl.cpp:343-363 | a failed registration drops the security object or counts as a lost connection |
| EngineFlow.BootstrapErrorFlow | mbed-client/source/m2minterfaceimpl.cpp:406-434 | a failed bootstrap is reported and then armed for a retry |
| EngineFlow.MessageFlow | mbed-client/source/m2minterfaceimpl.cpp:307-325 | an idle client sends nothing, and a message that cannot be sent loses the connection |
| EngineFlow.DataFlow | mbed-client/source/m2minterfaceimpl.cpp:451-461 | received data is processed, and an error reported |
| EngineFlow.TimerFlow | mbed-client/source/m2minterfaceimpl.cpp:602-636 | what each of the four timers does |
| EngineSessions.RegisterBegins | mbed-client/source/m2minterfaceimpl.cpp:176-220 | against every script a registration begins with the object list or the address check exactly in the four states, and with a report otherwise |
| EngineSessions.BootstrapBegins | mbed-client/source/m2minterfaceimpl.cpp:121-167 | the same for a bootstrap and its two states |
| EngineSessions.UnregisterBegins | mbed-client/source/m2minterfaceimpl.cpp:247-281 | the same for an unregistration and its three states |
| EngineSessions.AddressBegins | mbed-client/source/m2minterfaceimpl.cpp:864-903 | a resolved address begins with the registration exactly when the reconnection is none or a full registration, and with the update otherwise |
| EngineSessions.RegistrationSession | mbed-client/source/m2minterfaceimpl.cpp:769-920 | against an environment that grants everything, exactly what a registration makes happen and the client it leaves |
| EngineSessions.BootstrapSession | mbed-client/source/m2minterfaceimpl.cpp:646-767 | the same for a bootstrap |
| EngineSessions.UnregistrationSession | mbed-client/source/m2minterfaceimpl.cpp:957-975 | the same for an unregistration |
| EngineSessions.RecoverySession | mbed-client/source/m2minterfaceimpl.cpp:463-562 | a lost connection of a client with its security object is reported, retried after the due time and registered again |
| InterfaceImpl.Interface.constructor | mbed-client/source/m2minterfaceimpl.cpp:60-111 | an idle client at rest with an initial retry time from 2 to 10 |
| InterfaceImpl.Interface.InternalEvent | mbed-client/source/m2minterfaceimpl.cpp:1060-1068 | no event is pending afterwards and the fields are those of AfterEvent |
| InterfaceImpl.Interface.Engine | mbed-client/source/m2minterfaceimpl.cpp:1071-1086 | the loop uses up the event, leaves no event data, and the fields are those of AfterState |
| InterfaceImpl.Interface.ExternalEvent | mbed-client/source/m2minterfaceimpl.cpp:1042-1056 | the fields are those of AfterMapped, and no event stays marked as ignored |
| InterfaceImpl.Interface.Dispatch | mbed-client/source/m2minterfaceimpl.cpp:121-1200 | every entry point, with its state functions and callbacks, leaves the fields of AfterCall and no event, and a public call or a resolved address begins with the foreign call its state demands |
| InterfaceImpl.Interface.Play | mbed-client/source/m2minterfaceimpl.cpp:121-1200 | after any calls that misread no object list the object's own state rests, its retries were and its next one is due in time, and an unregistration waits exactly when one is remembered; misread lists are explained |
| GetModel.GetRequests.SendGetDataRequest | mbed-client/source/m2mnsdlinterface.cpp:365-408 | a request is appended with a token that is not zero, or nothing happens |
| GetModel.GetRequests.IsResponseToGetReq | mbed-client/source/m2mnsdlinterface.cpp:2257-2270 | the first request with the token, if there is one |
| GetModel.GetRequests.FreeGetRequest | mbed-client/source/m2mnsdlinterface.cpp:2285-2297 | the first request with the token goes |
| GetModel.GetRequests.HandleGetResponse | mbed-client/source/m2mnsdlinterface.cpp:628-667 | callbacks, next request and list as the model function says; the data callback gets the payload and the size in Size2, or 0 without it, or the payload's own without any option |
| GetRuns.CallbacksAreToldTheSize | mbed-client/source/m2mnsdlinterface.cpp:628-667 | in every interleaving with a server that announces its size each data callback gets the size of the whole data, which is what a completed download from the start has delivered, and the error callback comes once for a refused download and never for another |
| GetRuns.TotalIs | mbed-client/source/m2mnsdlinterface.cpp:630-648 | the upcall of any reply with content, on the reply's own fields |
| GetRuns.FailureIs | mbed-client/source/m2mnsdlinterface.cpp:662-666 | the upcall of any other reply |
| GetRuns.RequestsAfterReply | mbed-client/source/m2mnsdlinterface.cpp:643-667 | the answered request goes, and one for the rest follows exactly when it was synchronous and the reply has options without Block2 or with more blocks |
| GetRuns.UnknownIsIgnored | mbed-client/source/m2mnsdlinterface.cpp:2257-2270 | a reply with an unknown token changes nothing |
| GetRuns.TokensAreNotZero | mbed-client/source/m2mnsdlinterface.cpp:365-408 | in every run no request has the token 0 |
| GetRuns.AnswerExtends | mbed-client/mbed-client-c/source/sn_nsdl.c:1909-1916 | an answer extends the contiguous run of its download, and its more bit tells whether the run is complete |
| GetRuns.StepKeeps | mbed-client/source/m2mnsdlinterface.cpp:628-667 | every start, answer and rejection keeps the invariant of all downloads |
| GetRuns.DownloadsAreContiguous | mbed-client/source/m2mnsdlinterface.cpp:628-667 | with the client's block size, in every interleaving each download has a contiguous run of its data from its first block, at most one request outstanding, and everything once the more bit was clear |
| GetRuns.ContiguousExactly | mbed-client/mbed-client-c/source/sn_nsdl.c:1909-1916 | downloads are contiguous in every interleaving exactly when the server answers with the client's block size |
| GetRuns.SmallBlocksRepeat | mbed-client/mbed-client-c/source/sn_nsdl.c:1909-1916 | for any smaller block, a run of one download and two answers that delivers the first block twice |
| GetRuns.FollowsExactly | mbed-client/mbed-client-c/source/sn_nsdl.c:1909-1916 | for one download, the request after the first answer asks for what follows exactly when the sizes agree or the rest fits one block |
| GetRuns.AnswersProgress | mbed-client/source/m2mnsdlinterface.cpp:643-661 | every answer delivers at least one byte or ends the download with an error |
| GetRuns.StartIsAlignedExactly | mbed-client/mbed-client-c/source/sn_nsdl.c:1909-1913 | a download starts at its offset exactly when that is a multiple of the block size, otherwise earlier bytes are delivered |
| EventLoop.StepKeeps | ns-hal-pal/ns_event_loop.c:54-155 | every step of every actor keeps the invariant |
| EventLoop.SafeInEveryInterleaving | ns-hal-pal/ns_event_loop.c:74-155 | no missing or deleted semaphore is used, the loop is not entered before start, and stop returns only after the loop's last release |
| EventLoop.NeverAsleepAfterStop | ns-hal-pal/ns_event_loop.c:61-72 | after a stop that follows the reset, the thread is never blocked in idle without a signal |
| EventLoop.StoppingIsNotBlocked | ns-hal-pal/ns_event_loop.c:87-104 | a started, stopping thread can move unless another thread holds the mutex, and then stop can return |
| EventLoop.StopTakesEffect | ns-hal-pal/ns_event_loop.c:91-104 | however the run goes on, the thread has exited after at most six more steps of its own |
| EventLoop.EverySignalIsDispatched | ns-hal-pal/ns_event_loop.c:61-95 | after a signal, however the run goes on, a thread that is not stopped comes to a dispatch after at most five steps of its own and until then never sleeps without a signal |
| EventLoop.DispatchesUnlessStopped | ns-hal-pal/ns_event_loop.c:91-95 | at the loop condition it goes on to dispatch exactly when it is not stopped |
| EventLoop.DispatchesOn | ns-hal-pal/ns_event_loop.c:91-95 | after an event was dispatched it comes to the next one without idling |
| EventLoop.EarlyStopNeverReturns | ns-hal-pal/ns_event_loop.c:137-155 | a stop returns only if its flag was set after the reset |
| EventLoop.LostStop | ns-hal-pal/ns_event_loop.c:81-83 | a stop before the reset can leave the thread asleep and the stopper waiting |
| Xoroshiro.AdvanceIsBijective | mbed-client-randlib/source/randLIB.c:160-168 | the step is a bijection on pairs of words with an explicit inverse, and only zero goes to zero |
| Xoroshiro.AdvanceIsLinear | mbed-client-randlib/source/randLIB.c:160-168 | the step of combined states is the combination of their steps |
| Xoroshiro.UnitSteps | mbed-client-randlib/source/randLIB.c:160-168 | where it takes the outermost bits |
| Xoroshiro.MixedFromZero | mbed-client-randlib/source/randLIB.c:76-82 | the first three words of splitmix64 from the seed 0 |
| Xoroshiro.PerturbedExactly | mbed-client-randlib/source/randLIB.c:115-127 | a seed adds two words that depend on it alone, unless they cancel the state |
| Xoroshiro.ReseedsExactly | mbed-client-randlib/source/randLIB.c:85-113 | seeding adds the platform's words, and the same words again take them out, unless the halves agree |
| Xoroshiro.ZeroExactlyUntilSeeded | mbed-client-randlib/source/randLIB.c:85-168 | in every run of draws and seeds the state is zero exactly until the first seed |
| Xoroshiro.Random.AddSeed | mbed-client-randlib/source/randLIB.c:115-127 | both words are perturbed and the state is not zero |
| Xoroshiro.Random.SeedRandom | mbed-client-randlib/source/randLIB.c:85-113 | the state is reseeded and not zero |
| Xoroshiro.Random.Get64Bit | mbed-client-randlib/source/randLIB.c:148-170 | the sum of the words, one step, and zero only from zero |
| RandLib.GetRandomInRange | mbed-client-randlib/source/randLIB.c:188-248 | for every pair of bounds: the value of the first usable draw after only unusable ones, in range whenever there is a range; a division by zero exactly when the minimum is one above the maximum |
| RandLib.Exchanged | mbed-client-randlib/source/randLIB.c:215-247 | with the minimum further above the maximum a draw gives the minimum plus its low 16 bits, whatever the maximum |
| RandLib.GivesExactly | mbed-client-randlib/source/randLIB.c:233-247 | the draws that give a value are exactly one band |
| RandLib.UniformExactly | mbed-client-randlib/source/randLIB.c:207-247 | exactly the band size of the 2^32 draws give each value, and at most as many as there are values are rolled again |
| RandLib.ScaleIsExact | mbed-client-randlib/source/randLIB.c:254-267 | nothing overflows 32 bits and the result is min(base * factor / 2^15, 2^32 - 1) |
| RandLib.RandomiseBase | mbed-client-randlib/source/randLIB.c:250-268 | the result is the base scaled by the factor of the first draw that is not rolled again, one from the range whenever there is a range |
| Vectors.Vector.constructor | mbed-client/mbed-client/m2mvector.h:33-37 | an empty vector of the requested capacity, at least one |
| Vectors.Vector.Reserve | mbed-client/mbed-client/m2mvector.h:68-80 | contents kept; a capacity below the size is ignored |
| Vectors.Vector.PushBack | mbed-client/mbed-client/m2mvector.h:102-108 | the sequence grows by the element and the copying stays paid for |
| Vectors.Vector.PopBack | mbed-client/mbed-client/m2mvector.h:110-112 | the last element goes |
| Vectors.Vector.Clear | mbed-client/mbed-client/m2mvector.h:114-116 | the sequence is empty |
| Vectors.Vector.Erase | mbed-client/mbed-client/m2mvector.h:141-148 | the element at the position goes, the order stays |
| Vectors.Use | mbed-client/mbed-client/m2mvector.h:68-148 | under any operations a default vector holds what a sequence would, and n pushes copy fewer than 2n elements |
| UriQuery.JoinRestores | mbed-client/source/uriqueryparser.cpp:47-61 | joining the pieces restores the query, and no piece has a separator |
| UriQuery.EqualsCountPieces | mbed-client/source/uriqueryparser.cpp:37-45 | with one `=` in each piece the count of `=` is the number of pieces |
| UriQuery.ParametersExactly | mbed-client/source/m2mnsdlinterface.cpp:2095-2103 | the list is the pieces and then the version exactly when there are as many `=` as pieces |
| UriQuery.VersionReplacesPiece | mbed-client/source/m2mnsdlinterface.cpp:2095-2103 | a query with fewer `=` whose second piece the version replaces |
| UriQuery.QueryString | mbed-client/source/uriqueryparser.cpp:22-35 | the text after the first question mark, or none when there is none |
| UriQuery.QueryParamCount | mbed-client/source/uriqueryparser.cpp:37-45 | the number of `=` as a signed byte |
| UriQuery.SplitParameters | mbed-client/source/uriqueryparser.cpp:47-61 | every piece stands terminated in the buffer, the slots point at the pieces in order, and nothing else changes; the slots are overrun exactly when there are fewer than pieces |
| UriRegistration.ServerAddress.ParseAndSend | mbed-client/source/m2mnsdlinterface.cpp:2088-2112 | the parameters of the stored address go out and the address is the same afterwards, or the slots are overrun, or an empty slot is read, each exactly under its condition on the query |
| UriRegistration.RegisteredAsIntended | mbed-client/source/m2mnsdlinterface.cpp:2088-2112 | with one `=` in every piece the registration carries the pieces in order and then the version exactly when there are fewer than ten pieces |
| UriRegistration.GapExactly | mbed-client/mbed-client-c/source/sn_nsdl.c:1436-1439 | for a query that fits, the reader meets an empty slot exactly when more parameters are counted than there are pieces, or the count is a negative one below -1 and a slot is left |
| UriRegistration.TwoEqualsReadNull | mbed-client/mbed-client-c/source/sn_nsdl.c:1436-1439 | a query with two `=` in one piece whose registration reads through a null slot |
| UriRegistration.ServerAddress.FillSlots | mbed-client/source/m2mnsdlinterface.cpp:2095-2103 | the slots show the pieces, the version and nothing else, and are overrun exactly when there are more than ten pieces or the count is ten or more |
| UriRegistration.TenParametersOverrun | mbed-client/source/m2mnsdlinterface.cpp:2095-2103 | a query of ten parameters that overruns the slots |

## Left out

- M2MString.ItoaC: the negation of -2^63, undefined in C, wraps around.
- M2MString.ConvertArrayToInteger: a shift by 64 bits or more, undefined in C, counts as a contribution modulo 2^64.
- TlvWalk.PutIsAtomic: covers resource payloads, nested multiple resources included; payloads of object instances are not modelled. The callers hand over no empty payload (mbed-client/source/m2mobjectinstance.cpp:601).
- TlvPost.PostReadsNullExactly: a null reference counts when it is read; a reference that is only bound to null, undefined in C++, does not.
- TreeRuns.CallStopsExactly: the memory after a payload is taken to be readable; TlvReads.ReadsInsideExactly says when it is not needed.
- EngineSteps.AfterRegister: after a misread object list the model goes on as if the state function had returned; the source may do anything.
- ReportHandlers.ReportHandler.ParseNotificationAttribute: takes the options already read as assignments; how their text is split and copied is in ReportOptions, but `atoi`, `atof` and timer intervals are not modelled.
- EngineSteps.AfterForeign: timers, `stop_listening`, `bind_connection` and `start_listening_for_data` are silent, and whether a server address is usable is an answer of the environment.
- GetModel.GetRequests.HandleGetResponse: the data callback does not start downloads itself, and memory exhaustion is an unsent request.
- GetRuns.DownloadsAreContiguous: stated for the client's block size, since it fails for every smaller one (GetRuns.ContiguousExactly).
- EventLoop.SafeInEveryInterleaving: start and stop are each called once.
- RandLib.GetRandomInRange: the draws are a finite sequence, so a result may be missing; the 16-bit `unsigned int` variant is not modelled.
- UriRegistration.ServerAddress.ParseAndSend: ends at the first access outside the slots or through an empty one; what such an access does is not modelled. The endpoint's own parameters are valid.
- Vectors.Vector.PushBack: an argument that refers into the vector itself is not modelled.
- Floating-point values are reals, so rounding and NaN are not modelled.
- `strtoul` is modelled with a 32-bit `unsigned long`, and `atoll` without overflow.
- Resources made from static `lwm2m_parameters` structures, and lookup by message id.
- `String` growth, CoAP response building, notification delivery and the resource tables of the standard objects, which would only add easy members.
- ConnectorClient, ServiceClient, UpdateClient and the credential storage around them.
