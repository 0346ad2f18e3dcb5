# Models of the Tango client library and of log4tango

A Dafny project about the parts of cppTango where data pass through hand-written cursors, tables and loops. Each
part is modelled in the form the C++ code has (loops, cursors, objects with fields) and proved against a
specification that says what the code is for; the properties of the specifications are lemmas about all inputs or
all runs.

* **The start-up cache.** A device server reads its whole configuration as one flat array of strings.
  `ServerData` is that content as a structure with its flat form; `CacheIndex` and `ServerCache` are the walk of the
  `DbServerCache` constructor, its index and its queries; `CacheImports` the import data and the wildcard listing; `Cache` the object.
* **The property wire format.** `Stream` is the reused string stream, `Layout` and `Wire` the length-prefixed format
  and its readers, `Replies` and `Database` tie the producers (cache, encoders) to the consumers (decoders).
* **Asynchronous requests.** `AsynSteps` is the state machine of `AsynReq` on values, `AsynTable` the class with its
  loops, `AsynEffects` what each operation does to the entries, `AsynPurge` what its purge achieves over many calls, `Drain` the reply loops of `ApiUtil` and `DrainOutcomes` how they
  end. What the ORB answers is an arbitrary list of events.
* **Log rotation.** `RollingFile`, over a map from file names to message lists with POSIX open, rename and remove.
* **The service registry** (`ServiceList`, `ServiceKeys`), **attribute names** (`AttributeName`, `WrittenName`), **property values**
  (`Datum`), **property history** (`History`) and **dotted logger names** (`Dotted`).

`Text` holds what all share: case folding, searching, decimal texts, `atoi`. `Letters` and `Numerals` say what these mean
letter by letter and digit by digit, `Spelling` what that means for look-ups.

## Where the code does something else than it says

* The cache promises the same data as the database. For a property stored with zero values the producer writes no
  dummy string, but the consumer skips one. The client gets the right data all the same when such a property is the
  last one wanted (for attributes and pipes, the last one in the reply), because nothing is read behind it; anywhere
  else it gets wrong data or reads out of bounds, unless a name happens to be the text of the count behind it
  (`Replies.DeviceReplyExact`, `Replies.DeviceReplyWrong`, `Replies.DeviceReplyCoincidence`,
  `Replies.AttributeReplyExact`). Reading back an empty property just put through the device reader has the same
  limit (`Replies.PutThenDeviceGet`).
* `import_adm_event` takes its second number from the notification daemon's block (`CacheImports.AdminEventRight`,
  `CacheImports.AdminEventWrong`).
* The purge of cancelled requests skips the element behind each one it erases. It is complete exactly when no two
  removable requests stand side by side (`AsynSteps.PurgeComplete`, `AsynSteps.PurgeLeaves`); it still makes progress
  (`AsynSteps.PurgeProgress`).
* A call with a timeout can return normally and leave replies outstanding: exactly when the timeout is -20 or less
  (`DrainOutcomes.SilentReturn`, `DrainOutcomes.SilentReturnWithin`).
* With no backups and an appending file, rotation does not bound the file (`RollingFile.LimitHolds`).
* `split` promises at most `maxSegments` segments and gives one for a maximum of 0 (`Dotted.Split`).
* A logger name with a leading dot is cut although the precision asks for all of it (`Dotted.PrecisionExact`).
* A service name with a colon is registered but not found with its device (`ServiceList.ColonExact`).

## Model

| member | source | states |
|---|---|---|
| `ServerData.ReleaseRead` | src/client/dbapi_cache.cpp:78-96 | The release string "release <major>.<minor>" is read back as major * 100 + minor, for all numbers; without one the release is 0 |
| `ServerCache.PartAt` | src/client/dbapi_cache.cpp:104-279 | The eleven blocks of a full start-up list tile the array contiguously in order, from 0 to its length |
| `ServerCache.FirstString` | src/client/dbapi_cache.cpp:70-111 | Whether the list starts with a release string decides exactly where the admin device block starts |
| `CacheIndex.EventIndexes` | src/client/dbapi_cache.cpp:130-160 | An event block of two strings (the second "Not Found") or of six is told apart and its first and last index are those of the block |
| `CacheIndex.PropIndexes` | src/client/dbapi_cache.cpp:991-1019 | From any cursor, the recorded index describes exactly the property block that stands there and the cursor moves over the block and no further |
| `CacheIndex.PropIndexPoints` | src/client/dbapi_cache.cpp:991-1019 | Every recorded property index points at that property: its name, the text of its count, its values, all inside the array |
| `CacheIndex.PropAttIndexes` | src/client/dbapi_cache.cpp:1041-1079 | The same for a block of attributes (or pipes) with properties |
| `CacheIndex.AttributeIndexPoints` | src/client/dbapi_cache.cpp:1041-1138 | Every recorded attribute index points at that attribute with all its properties |
| `CacheIndex.SkipOwner` | src/client/dbapi_cache.cpp:1058-1078 | Skipping over one attribute counts every value text of every property and ends behind it |
| `CacheIndex.DeviceIndexes` | src/client/dbapi_cache.cpp:229-255 | The three blocks of a device are indexed; pipes only from release 1.9 on |
| `CacheIndex.ClassIndexes` | src/client/dbapi_cache.cpp:189-256 | A class with its properties, attributes, pipes, device names and devices is indexed, and the cursor ends at its last string |
| `CacheIndex.ClassesIndexes` | src/client/dbapi_cache.cpp:184-256 | All classes, one behind the other, each at the position its predecessors end |
| `ServerCache.Walk` | src/client/dbapi_cache.cpp:104-279 | The whole constructor walk inverts flattening: every index member describes its block of the structured content; the TAC block is absent if and only if its first index reaches the length |
| `Cache.DbServerCache.constructor` | src/client/dbapi_cache.cpp:56-279 | A cache built from the flat form of any well-formed content is valid for that content |
| `CacheIndex.FindProp` | src/client/dbapi_cache.cpp:482-506 | The search of one wanted name ends at the first case-insensitive match, or at the end |
| `CacheIndex.FindOwner` | src/client/dbapi_cache.cpp:689-724 | The same for attributes and pipes |
| `ServerCache.FindClass` | src/client/dbapi_cache.cpp:643-653 | The first class whose name matches, ignoring case, or -1 |
| `ServerCache.FindDevAtt` | src/client/dbapi_cache.cpp:870-885 | The first class, and in it the first device, whose name matches; -1 if and only if no class has it |
| `ServerCache.GetObjProp` | src/client/dbapi_cache.cpp:473-531 | The reply built from the indexes is the one a search of the structured properties gives, with the count equal to the number of names asked and the empty-value convention of the flag |
| `ServerCache.OwnersReply` | src/client/dbapi_cache.cpp:681-734 | The attribute reply built by copying index ranges is the one a search of the structured attributes gives, absent names with count 0 |
| `ServerCache.CopyOwner` | src/client/dbapi_cache.cpp:701-719 | The three-level copy of one attribute yields its exact block |
| `Cache.DbServerCache.GetClassProperty` | src/client/dbapi_cache.cpp:414-452 | Answers as a direct search: the server's own class, Default, or a class found by name; the exception for an unknown class |
| `Cache.DbServerCache.GetDevProperty` | src/client/dbapi_cache.cpp:551-594 | Answers as a direct search: the admin device by prefix, any other by name; the exception for an unknown device |
| `Cache.DbServerCache.GetObjProperty` | src/client/dbapi_cache.cpp:1158-1180 | Answers as a direct search of the control system object |
| `Cache.DbServerCache.GetClassAttProperty` | src/client/dbapi_cache.cpp:671-749 | Answers as a direct search of the class attributes |
| `Cache.DbServerCache.GetDevAttProperty` | src/client/dbapi_cache.cpp:767-847 | Answers as a direct search of the device attributes; a count of 0 for the admin device |
| `Cache.DbServerCache.GetClassPipeProperty` | src/client/dbapi_cache.cpp:1481-1569 | The same for class pipes; the exception below release 1.9 |
| `Cache.DbServerCache.GetDevPipeProperty` | src/client/dbapi_cache.cpp:1589-1681 | The same for device pipes; the exception below release 1.9 |
| `Cache.DbServerCache.GetDevList` | src/client/dbapi_cache.cpp:611-628 | The device names of the class asked for, in order |
| `Cache.DbServerCache.ImportAdmDev` | src/client/dbapi_cache.cpp:295-324 | Five strings and two numbers from fixed places of the admin device block |
| `Cache.DbServerCache.ImportNotifdEvent` | src/client/dbapi_cache.cpp:340-359 | The notification daemon's block, or the exception when it is missing |
| `Cache.DbServerCache.ImportAdmEvent` | src/client/dbapi_cache.cpp:375-394 | The event channel's block as the code reads it: the second number comes from the last string of the notification daemon's block |
| `CacheImports.AdminEventRight` | src/client/dbapi_cache.cpp:340-394 | That answer agrees with the channel's own block if and only if the channel is missing or the two numbers happen to be equal |
| `CacheImports.AdminEventWrong` | src/client/dbapi_cache.cpp:375-394 | It disagrees whenever the daemon is missing and the channel's number is not 0 |
| `Cache.DbServerCache.ImportTacDev` | src/client/dbapi_cache.cpp:1402-1461 | The access control device's data, or the exception for an absent block, another device name, or an undefined device |
| `CacheImports.Selected` | src/client/dbapi_cache.cpp:1250-1386 | The branches of the wildcard test select a name if and only if it starts with the text before the first "*" and ends with the text behind it (overlap allowed), or equals the wildcard without "*"; case ignored |
| `CacheImports.GetObjPropList` | src/client/dbapi_cache.cpp:1330-1386 | The list is exactly the selected stored names in stored order |
| `Cache.DbServerCache.GetDevicePropertyList` | src/client/dbapi_cache.cpp:1200-1230 | The selected names of a device found by name, or of the admin device; the exception for an unknown device |
| `Letters.Folding` | src/client/dbapi_cache.cpp:485-489 | Case folding maps each of the 26 capitals to its small letter and leaves every other character alone |
| `Letters.SameNameExact` | src/client/dbapi_cache.cpp:485-489 | Two names are the same if and only if they have the same length and differ at most in the case of letters |
| `Spelling.AdminDeviceExact` | src/client/dbapi_cache.cpp:551-565 | A name is that of an admin device if and only if its first eight characters spell "dserver/" in any case |
| `Spelling.FoundSpelt` | src/client/dbapi_cache.cpp:643-653 | Every look-up by name finds the first element spelt alike, and none if and only if there is none |
| `Spelling.DeviceFoundSpelt` | src/client/dbapi_cache.cpp:870-885 | A device is found in the first class that has one spelt alike, and there the first |
| `Spelling.PropertiesSpelt` | src/client/dbapi_cache.cpp:482-524 | Each datum wanted has the name as asked and the values of the first property spelt alike, or none |
| `Spelling.OwnersSpelt` | src/client/dbapi_cache.cpp:689-732 | The same for attributes and pipes |
| `Spelling.DevicePropsExact` | src/client/dbapi_cache.cpp:551-594 | Whose properties a device query is about, letter by letter |
| `Spelling.ClassPropsExact` | src/client/dbapi_cache.cpp:414-452 | Whose properties a class query is about, the two reserved names first |
| `Spelling.ObjectPropsExact` | src/client/dbapi_cache.cpp:907-921 | Which object is known |
| `Spelling.SpellingsAgree` | src/client/dbapi_base.cpp:1159-1271 | Two calls for a device and properties in two spellings give the same values |
| `Spelling.DeviceListExact` | src/client/dbapi_cache.cpp:611-628 | The list holds the device names of the first class spelt alike, one for one in stored order, and is empty for an unknown class |
| `Spelling.PipesExact` | src/client/dbapi_cache.cpp:207-214 | Pipes are known exactly from release 1.9 on |
| `CacheImports.AdminRead` | src/client/dbapi_cache.cpp:295-324 | Five strings and two numbers written in the admin block come back |
| `CacheImports.EventRead` | src/client/dbapi_cache.cpp:340-359 | Four strings and two numbers written in an event block come back |
| `CacheImports.TacRead` | src/client/dbapi_cache.cpp:1402-1461 | Strings and numbers of the access control block come back for its own name in any case |
| `CacheImports.TacAbsent` | src/client/dbapi_cache.cpp:1402-1461 | Which exception comes without a block, and for a device that is not defined |
| `CacheImports.MatchesExact` | src/client/dbapi_cache.cpp:1250-1330 | What a wildcard selects, letter by letter around its first "*" |
| `CacheImports.ListedExact` | src/client/dbapi_cache.cpp:1330-1386 | A name is listed if and only if a property has it and it matches |
| `Numerals.DecimalDigits` | src/client/dbapi_base.cpp:1303-1310 | The text of a number consists of its decimal digits |
| `Numerals.DecimalLength` | src/client/dbapi_base.cpp:1303-1310 | It has no leading zero |
| `Numerals.ReadWritten` | src/client/dbapi_cache.cpp:1007-1012 | White space, a sign or none, and decimal digits are read as the number they write, up to the first character that is no digit |
| `Numerals.NoNumber` | src/client/dbapi_cache.cpp:1007-1012 | Where no digit follows there is no number, and the value is 0 |
| `Numerals.NextOutOfRange` | src/client/dbapi_datum.cpp:929-935 | Out of range the nearest bound is stored and the stream fails, except that unsigned types wrap small negative numbers |
| `Numerals.NextUnreadable` | src/client/dbapi_datum.cpp:929-935 | A text that is no number stores 0 and fails the stream |
| `Numerals.PortRead` | src/client/attr_proxy.cpp:498-501 | A port in decimal is read as its number |
| `Stream.NoStaleTail` | src/client/dbapi_base.cpp:1239-1257 | A reused stream that is rewound and written reads what a new one would read, whatever longer text it held |
| `Stream.NextDec` | src/client/dbapi_base.cpp:1246-1254 | Reading the text of a number in range gives that number and leaves the stream usable |
| `Stream.PutDec` | src/client/dbapi_base.cpp:1303-1310 | Writing a number through a reused stream shows exactly its text |
| `Stream.FailedStreamAppends` | src/client/dbapi_base.cpp:1246-1254 | On a failed stream the sequence used for every count writes the new text where the old one ended, over any older tail, and reads on where it stopped |
| `Stream.ClearedFirstRecovers` | src/client/dbapi_datum.cpp:1357-1363 | Clearing before rewinding makes any failed stream read as a new one |
| `Wire.SkippingReaderExact` | src/client/dbapi_base.cpp:1243-1270 | On any entries whose dummies stand on empty values only, the data are read right when every empty entry but the last has its dummy, and only then unless an entry is named by its own number of values; the cursor ends at the reply's length as well if and only if the last has its dummy too |
| `Wire.AttributeReaderExact` | src/client/dbapi_base.cpp:1509-1552 | All headers and properties are read right when every property but the very last of the reply has a value, and only then unless a name is the count it stands before; the cursor is right as well if and only if that last one has a value too |
| `Database.DecodeProperties` | src/client/dbapi_base.cpp:1239-1270 | The cursor loop computes the reader of the wire format, on every reply; it writes no further than the list asked for |
| `Database.DecodeAttributeProperties` | src/client/dbapi_base.cpp:1505-1553 | The nested cursor loops compute the attribute reader, on every reply |
| `Replies.DeviceReplyExact` | src/client/dbapi_cache.cpp:473-531 | For devices and objects the client gets every wanted property (first match, or empty) when no wanted name but the last is a property stored with zero values, and only then unless a name is the text of its own number of values; the cursor is a separate conclusion |
| `Replies.DeviceReplyWrong` | src/client/dbapi_cache.cpp:487-503 | A property stored with zero values and asked for before another name gives wrong data |
| `Replies.DeviceReplyCoincidence` | src/client/dbapi_cache.cpp:473-531 | An input on which the misreading gives the right data all the same, a property named "0" |
| `Replies.ClassReplyExact` | src/client/dbapi_cache.cpp:473-531 | For classes they agree always |
| `Replies.AttributeReplyExact` | src/client/dbapi_cache.cpp:671-749 | For attributes and pipes the client gets, in order, every wanted header and its properties, absent names with count 0, when every property but the last of the reply has a value, and only then unless a name is the count it stands before; the cursor is a separate conclusion |
| `Database.GetDeviceProperty` | src/client/dbapi_base.cpp:1159-1271 | End to end: what the client gets through the cache is the direct search of the structured content exactly under the condition of the reply; the server is asked exactly when the device is not in the cache |
| `Database.GetProperty` | src/client/dbapi_base.cpp:2579-2694 | The same for the control system object |
| `Database.GetClassProperty` | src/client/dbapi_base.cpp:1743-1860 | The same for a class, without any condition on values |
| `Database.GetDeviceAttributeProperty` | src/client/dbapi_base.cpp:1372-1553 | The same for device attributes; the admin device gets its list back unchanged |
| `Database.GetClassAttributeProperty` | src/client/dbapi_base.cpp:1958-2140 | The same for class attributes |
| `Database.GetDevicePipeProperty` | src/client/dbapi_base.cpp:5088-5242 | The same for device pipes; the server is asked exactly when the device is not in the cache or the stored procedures are older than 1.9 |
| `Database.GetClassPipeProperty` | src/client/dbapi_base.cpp:4927-5080 | The same for class pipes |
| `Database.PutProperties` | src/client/dbapi_base.cpp:1280-1330 | The encoder's loops write name, number of properties, then each name, count and values |
| `Database.PutAttributeProperties` | src/client/dbapi_base.cpp:1583-1633 | The encoder walks a flat list of headers and properties by the counts in the headers and writes each attribute's block |
| `Replies.PutThenClassGet` | src/client/dbapi_base.cpp:1878-1907 | Reading back what was put is the identity for the class reader, empty values included |
| `Replies.PutThenDeviceGet` | src/client/dbapi_base.cpp:1289-1318 | The device reader gives back what was put when every property but the last has a value, and only then unless a name is the text of its number of values |
| `Replies.PutThenAttributeGet` | src/client/dbapi_base.cpp:1583-1633 | Attributes come back as put when every property but the last has a value, and only then unless a name is the count it stands before |
| `AsynTable.RemoveCancelledRequest` | src/client/asynreq.cpp:301-323 | True, with the entry gone and released, exactly for an identifier in the table whose reply has come; otherwise nothing changes |
| `AsynTable.Purge` | src/client/asynreq.cpp:55-81 | The erase-then-increment loop leaves exactly the elements a pairwise walk keeps and removes from the table exactly those it drops |
| `AsynSteps.PurgeProgress` | src/client/asynreq.cpp:55-81 | One purge drops at least half, rounded up, of the cancelled identifiers that can be removed |
| `AsynSteps.PurgeConserves` | src/client/asynreq.cpp:55-81 | What is kept and what is dropped are together the list, as multisets |
| `AsynSteps.PurgeKeepsOrder` | src/client/asynreq.cpp:55-81 | What is kept is a subsequence of the list |
| `AsynSteps.PurgeComplete` | src/client/asynreq.cpp:55-81 | One purge leaves nothing that can be removed if and only if no two such identifiers stand side by side |
| `AsynSteps.PurgeLeaves` | src/client/asynreq.cpp:55-81 | Of two cancelled and answered identifiers the second survives a purge |
| `AsynPurge.StorePollHalves` | src/client/asynreq.cpp:49-97 | Each call with whatever replies are there at least halves the cancelled identifiers that can be removed |
| `AsynPurge.PurgeConverges` | src/client/asynreq.cpp:49-97 | After n calls without new replies or cancellations at most 1 in 2^n of them is left |
| `AsynPurge.LateRepliesDelay` | src/client/asynreq.cpp:55-81 | With replies coming in between this fails: an identifier that could be removed from the start outlives two purges |
| `AsynPurge.RunHandsOut` | src/client/asynreq.cpp:49-415 | In every run cancelled identifiers have been handed out, as the two theorems above ask |
| `AsynSteps.PurgeDropsOnlyAnswered` | src/client/asynreq.cpp:55-96 | Storing a request drops no table entry that was not both cancelled and answered |
| `AsynTable.AsynReq.StoreRequest` | src/client/asynreq.cpp:49-97 | The whole new state and the identifier, the next of the counter |
| `AsynTable.AsynReq.StoreCbRequest` | src/client/asynreq.cpp:112-124 | The whole new state: both callback tables |
| `AsynTable.AsynReq.MarkAsArrived` | src/client/asynreq.cpp:239-252 | The first entry with that request is marked, nothing else changes |
| `AsynTable.AsynReq.GetArrived` | src/client/asynreq.cpp:204-227 | The first arrived entry of a device, or none if there is none |
| `AsynTable.AsynReq.RemoveCbRequest` | src/client/asynreq.cpp:338-359 | The whole new state: the entry found under the device leaves one table, the request the other |
| `AsynTable.AsynReq.RemovePollRequest` | src/client/asynreq.cpp:266-285 | The entry with that identifier leaves the table and its request is released, nothing else changes; without one the exception and no change |
| `AsynTable.AsynReq.MarkAsCancelled` | src/client/asynreq.cpp:371-392 | The identifier joins the cancel list once, or the exception and no change |
| `AsynTable.AsynReq.MarkAllPollingAsCancelled` | src/client/asynreq.cpp:402-415 | All identifiers of the table join the cancel list |
| `AsynEffects.StorePollStores` | src/client/asynreq.cpp:49-97 | Told from the entries: the new one stands under a new identifier, exactly those leave whose identifier leaves the cancelled list, and these are answered |
| `AsynEffects.RemovableMeans` | src/client/asynreq.cpp:301-323 | A cancelled identifier can go if and only if every entry of it is answered |
| `AsynEffects.StoreCbStores` | src/client/asynreq.cpp:112-124 | The new entry stands behind those of its own and smaller devices, and the request table has the same data |
| `AsynEffects.ArriveMarks` | src/client/asynreq.cpp:239-252 | Exactly the flags of that request are set, in both tables |
| `AsynEffects.RemoveCbRemoves` | src/client/asynreq.cpp:338-359 | Exactly the entry of that request leaves both tables and is released |
| `AsynEffects.PollRemovedExact` | src/client/asynreq.cpp:266-285 | Exactly the entry of that identifier leaves and its request is released; every other stays in order |
| `AsynEffects.CancelJoins` | src/client/asynreq.cpp:371-392 | Exactly that identifier joins the list |
| `AsynEffects.CancelAllJoins` | src/client/asynreq.cpp:402-415 | Exactly the identifiers of the table join the list, new ones in the order of the table |
| `AsynTable.SearchDevice` | src/client/asynreq.cpp:338-352 | The range search over the ordered table finds the entry of that device and request, or the end |
| `AsynSteps.StoreCbMirror` | src/client/asynreq.cpp:112-124 | Storing keeps the two callback tables mirrors of each other if and only if the request handle is fresh |
| `AsynSteps.ArriveMirror` | src/client/api_util.cpp:756-768 | Marking a request in both tables keeps them mirrors, flags included |
| `AsynSteps.RemoveCbMirror` | src/client/asynreq.cpp:338-359 | Removing keeps them mirrors if and only if the caller names the device the request was stored for |
| `AsynSteps.StepKeeps` | src/client/asynreq.cpp:49-415 | Every operation keeps the mirror, unique identifiers and a duplicate-free cancel list, and conserves requests |
| `AsynSteps.RunKeeps` | src/client/asynreq.cpp:49-415 | So does every run of operations |
| `AsynSteps.RunFromEmpty` | src/client/asynreq.cpp:49-415 | In every run from empty tables each stored request is either still in one table or was released, once for each time it was stored |
| `Drain.ProcessReply` | src/client/api_util.cpp:752-814 | Look up, mark, fire, remove: one callback for exactly that request, of the kind its entry asks for (commands, attributes read, attributes written), or the exception and no change |
| `Drain.ProcessServes` | src/client/api_util.cpp:752-814 | One reply takes one request out of both tables, releases it and fires its callback |
| `Drain.ProcessArrived` | src/client/api_util.cpp:786-792 | The loop over arrived entries, each fired and removed |
| `Drain.FireArrivedServes` | src/client/api_util.cpp:786-792 | After it no arrived entry is left, and every callback owed was fired once or is still owed |
| `Drain.GetAsynchReplies` | src/client/api_util.cpp:742-793 | The two loops compute the polling specification, and every callback fired belongs to an entry on entry and is of its kind |
| `Drain.GetRepliesServes` | src/client/api_util.cpp:742-793 | One call conserves callbacks and leaves nothing arrived behind |
| `Drain.GetRepliesFires` | src/client/api_util.cpp:742-814 | Every callback fired has device, request and object of an entry on entry, and its kind is that of the request type |
| `Drain.GetRepliesWithinFires` | src/client/api_util.cpp:831-999 | The same with a timeout |
| `DrainOutcomes.PollServes` | src/client/api_util.cpp:742-793 | Told from the events: when the first n are replies to different pending requests and none follows for now, all are served in order, then what had arrived before; exactly the requests without a reply stay, and callbacks are fired for exactly those that left |
| `DrainOutcomes.PollErrs` | src/client/api_util.cpp:742-793 | A reply to an unknown request ends in one exception and an error of the ORB in the other, with everything before it served |
| `DrainOutcomes.WithinErrs` | src/client/api_util.cpp:831-999 | The same for every timeout that is not negative, within the polls there are |
| `DrainOutcomes.AnsweredByMeans` | src/client/api_util.cpp:750-768 | A request is answered if and only if one of the first n events is its reply |
| `Drain.WaitAll` | src/client/api_util.cpp:953-996 | The loop computes the drain specification |
| `Drain.DrainAllServes` | src/client/api_util.cpp:953-996 | Waiting without limit conserves callbacks; when it ends, both tables are empty and every callback was fired exactly once |
| `Drain.WaitSome` | src/client/api_util.cpp:868-932 | The loop computes the specification of at most timeout / 20 polls |
| `Drain.WaitLoopServes` | src/client/api_util.cpp:868-932 | At most one reply a poll, requests conserved, and a normal end only with all polls spent or nothing pending |
| `Drain.DrainForServes` | src/client/api_util.cpp:868-943 | For positive timeouts: at most timeout / 20 replies are served, requests are conserved, a normal return leaves both tables empty, and the exception comes exactly when all polls are spent with something pending |
| `Drain.MissingReplies` | src/client/api_util.cpp:868-943 | Told from the replies alone: the exception comes exactly when some request pending on entry is not answered within timeout / 20 polls, and exactly the unanswered ones stay |
| `Drain.NegativeTimeout` | src/client/api_util.cpp:868-943 | A timeout of -20 or less returns at once without exception, whatever is pending |
| `DrainOutcomes.SilentReturn` | src/client/api_util.cpp:868-943 | For every timeout but 0: a normal return leaves something pending if and only if the timeout is -20 or less and something was pending |
| `DrainOutcomes.SilentReturnWithin` | src/client/api_util.cpp:831-999 | For the whole call and every timeout: if and only if the timeout is -20 or less and some reply had not arrived on entry |
| `DrainOutcomes.FireArrivedLeaves` | src/client/api_util.cpp:840-862 | The first loop leaves exactly the requests whose reply had not arrived |
| `DrainOutcomes.ZeroTimeoutEnds` | src/client/api_util.cpp:831-999 | Told from the replies alone: with timeout 0 the call returns exactly when every request waiting on entry is answered, and until then exactly the unanswered ones stay |
| `DrainOutcomes.TimeoutEnds` | src/client/api_util.cpp:831-999 | The same for positive timeouts and the first timeout / 20 polls, with the exception otherwise |
| `Drain.GetAsynchRepliesWithin` | src/client/api_util.cpp:831-999 | The whole function computes its specification |
| `Drain.GetRepliesZero` | src/client/api_util.cpp:831-999 | With timeout 0 a normal return has fired every outstanding callback exactly once and leaves both tables empty |
| `RollingFile.BackupsDiffer` | log4tango/src/RollingFileAppender.cpp:88-97 | Backup names with different numbers differ, and from the file itself |
| `RollingFile.RewrittenName` | log4tango/src/RollingFileAppender.cpp:94-96 | Rewriting only the number in the name buffer shows the right name, although a longer number may leave its tail behind the terminator |
| `RollingFile.ShiftDownShifts` | log4tango/src/RollingFileAppender.cpp:92-98 | The countdown of renames moves every backup by one, missing ones included, and touches no other file |
| `RollingFile.RollOverShifts` | log4tango/src/RollingFileAppender.cpp:86-101 | Exact shift: backup i is the old backup i - 1, backup 1 the old file, the oldest dropped, a new empty file, nothing else changed |
| `RollingFile.RollingFileAppender.RollOverFiles` | log4tango/src/RollingFileAppender.cpp:83-102 | The loop over the rewritten buffer computes the shift |
| `RollingFile.RollingFileAppender.AppendMessage` | log4tango/src/RollingFileAppender.cpp:104-120 | A message is written, and the file rolled exactly when its bytes reach the limit |
| `RollingFile.SizeIsBytes` | log4tango/src/RollingFileAppender.cpp:104-117 | The size compared with the limit is the number of bytes in the file |
| `RollingFile.AppendInBytes` | log4tango/src/RollingFileAppender.cpp:104-120 | Below the limit in bytes the message is added and nothing else changes; otherwise the files are shifted, or without backups emptied or left to grow |
| `RollingFile.AppendSafe` | log4tango/src/RollingFileAppender.cpp:83-120 | One append keeps: file.N, ..., file.1, file concatenated are a message-aligned suffix of the log; the file is below the limit; each backup reached the limit with its last message only; the whole log while a backup is missing |
| `RollingFile.RunSafe` | log4tango/src/RollingFileAppender.cpp:83-120 | The same after every sequence of appends from an empty directory, for any N >= 1 and limit >= 1 |
| `RollingFile.RunSafeInBytes` | log4tango/src/RollingFileAppender.cpp:83-120 | In bytes: the file is below the limit, every backup reached it with its last message only, and what is on disk is the end of everything logged |
| `RollingFile.Retained` | log4tango/src/RollingFileAppender.cpp:83-120 | Either the whole log is kept or at least N times the limit of it |
| `RollingFile.NoBackups` | log4tango/src/RollingFileAppender.cpp:83-120 | With N = 0 an appending file keeps the whole log and grows; a truncating one keeps a suffix below the limit |
| `RollingFile.LimitHolds` | log4tango/src/RollingFileAppender.cpp:83-120 | The file is kept below the limit in every run if and only if there are backups, or the file is truncated on opening, or the log is short |
| `ServiceList.RegisterService` | src/client/dbapi_base.cpp:4146-4183 | The loop computes the new list: matching entries get the device, a new one is appended |
| `ServiceList.UnregisterService` | src/client/dbapi_base.cpp:4205-4230 | The loop keeps exactly the entries that do not match |
| `ServiceList.FindServices` | src/client/dbapi_base.cpp:4001-4015 | The loop collects the device text of every matching entry |
| `ServiceList.SameService` | src/client/dbapi_base.cpp:4152-4156 | Comparing the front of a stored string with the wanted name and colon compares whole names, ignoring case |
| `ServiceList.RegisterMeans` | src/client/dbapi_base.cpp:4146-4183 | On strings: one name's device replaced in place, or one service added at the end; every other entry and the order unchanged |
| `ServiceList.UnregisterMeans` | src/client/dbapi_base.cpp:4205-4230 | On strings: the services of that name removed, every other entry and the order unchanged |
| `ServiceList.RunRepresents` | src/client/dbapi_base.cpp:4133-4231 | After every run from the empty list the strings hold each name once and agree with a case-insensitive map driven by the same calls |
| `ServiceList.ListRefinesMap` | src/client/dbapi_base.cpp:3945-4231 | After every run a look-up gives the lower-cased device last registered under the name and not unregistered since, or nothing |
| `ServiceKeys.OneContribution` | src/client/dbapi_base.cpp:4001-4015 | With instance "*" an entry answers if and only if its service is the wanted one |
| `ServiceKeys.WildcardFinds` | src/client/dbapi_base.cpp:3945-4231 | After every run a look-up with "*" gives, in the order of first registration, the lower-cased device of every key of that service |
| `ServiceKeys.KeysMapped` | src/client/dbapi_base.cpp:4133-4231 | The keys of a run are exactly those of the map |
| `ServiceList.NamesTellApart` | src/client/dbapi_base.cpp:4146-4148 | Joined names are the same if and only if service and instance are, when services hold no "/" |
| `ServiceList.ColonExact` | src/client/dbapi_base.cpp:3945-4183 | A service just registered is found with its device if and only if its name has no colon |
| `AttributeName.SplitFields` | src/client/attr_proxy.cpp:554-601 | The field-splitting loop stops, and accepts exactly the names with one, two or four fields, none empty when there is a separator; it counts the separators and ends behind the last |
| `AttributeName.CountFields` | src/client/attr_proxy.cpp:701-711 | The fast check counts the separators of a resolved alias and ends behind the last |
| `AttributeName.Parse` | src/client/attr_proxy.cpp:391-767 | The whole parser computes its specification, error cases included |
| `AttributeName.AttributeProxy.ParseName` | src/client/attr_proxy.cpp:391-767 | The fields of the proxy are those of the parsed name, and the argument comes back in lower case |
| `WrittenName.RoundTrip` | src/client/attr_proxy.cpp:391-767 | Every name written from clean parts, with or without protocol, host and port, modifier in any case, as device, device alias or attribute alias, parses back to its parts: lower-cased, but the attribute in its own case; aliases are refused without a database |
| `WrittenName.ProtocolUndone` | src/client/attr_proxy.cpp:407-437 | Removing the protocol undoes writing it |
| `WrittenName.ModifierUndone` | src/client/attr_proxy.cpp:443-473 | Removing the modifier undoes writing it and tells whether the database is used |
| `WrittenName.PlaceUndone` | src/client/attr_proxy.cpp:475-548 | Host and port are cut off exactly when they were written |
| `WrittenName.CaseKept` | src/client/attr_proxy.cpp:756-765 | The attribute name is cut from the name as given, case and all |
| `WrittenName.PlaceFields` | src/client/attr_proxy.cpp:475-548 | Which fields host and port fill, and the marks for what is not known |
| `WrittenName.PlaceMissing` | src/client/attr_proxy.cpp:478-499 | Without a database a name without colon or without slash is refused |
| `WrittenName.PlaceTwisted` | src/client/attr_proxy.cpp:478-502 | With the slash in front of the colon host, port and device are cut at the wrong places |
| `WrittenName.ProtocolRefused` | src/client/attr_proxy.cpp:424-440 | Another protocol is refused whatever follows |
| `WrittenName.ModifierRefused` | src/client/attr_proxy.cpp:443-473 | Another modifier is refused |
| `WrittenName.FieldsRefused` | src/client/attr_proxy.cpp:554-601 | Three fields, more than four, or an empty one beside others are refused |
| `WrittenName.AliasRefused` | src/client/attr_proxy.cpp:598-624 | An alias with a colon or an arrow in it is refused |
| `Datum.InsertVector` | src/client/dbapi_datum.cpp:892-905 | Each element becomes its decimal text |
| `Datum.ExtractVector` | src/client/dbapi_datum.cpp:913-955 | Through one stream: each element as it reads on a stream of its own, up to the first unreadable one; the flags decide between exception and result |
| `Datum.IntsPointwise` | src/client/dbapi_datum.cpp:913-955 | The extraction succeeds with what each text reads as if and only if each is readable |
| `Datum.IntsStop` | src/client/dbapi_datum.cpp:929-952 | At the first unreadable text: the exception with its number counted from 1, or the elements read so far in a vector otherwise left as it was |
| `Datum.NothingExtracted` | src/client/dbapi_datum.cpp:913-923 | Without texts: the exception if its flag is set, an empty vector and failure if not |
| `Datum.InsertThenExtract` | src/client/dbapi_datum.cpp:892-955 | Inserting then extracting is the identity if and only if the vector is not empty, whatever the target held |
| `Datum.ExtractFloats` | src/client/dbapi_datum.cpp:1338-1396 | Each text for itself, special names included, although the stream has failed in between |
| `Datum.FloatAlone` | src/client/dbapi_datum.cpp:1353-1363 | Whatever the stream went through before, the text just written is what is read |
| `Datum.FloatsPointwise` | src/client/dbapi_datum.cpp:1338-1396 | The extraction succeeds with what each text stands for if and only if each stands for a float |
| `Datum.FloatsStop` | src/client/dbapi_datum.cpp:1353-1393 | Floats fail in the same way |
| `Datum.SpecialExact` | src/client/dbapi_datum.cpp:1365-1378 | Which name gives which float, in any case, and that no other text does |
| `History.MakeHistoryArray` | src/client/dbapi_base.cpp:3726-3790 | The loop decodes the records, or raises the exception at the first count that is no number |
| `History.HistoryRoundTrip` | src/client/dbapi_base.cpp:3738-3787 | Decoding the written records gives them back in order, in the three-field and in the four-field form |
| `History.DecimalRoundTrip` | src/client/dbapi_base.cpp:3738-3787 | So do records with the ordinary decimal text of their number of values |
| `History.HistoryOnlyRecords` | src/client/dbapi_base.cpp:3738-3787 | Whatever decodes is a sequence of whole records with right counts, and decodes to them |
| `Dotted.Split` | log4tango/src/StringUtil.h:84-100 | The pieces join to the text, all but the last hold no delimiter, and they are all the segments unless the maximum was reached; the count is their number (1 for a maximum of 0) |
| `Dotted.JoinSegments` | log4tango/src/StringUtil.h:84-100 | Joining the segments gives the text back |
| `Dotted.SegmentsOfJoin` | log4tango/src/StringUtil.h:84-100 | Splitting joined delimiter-free pieces gives the pieces back |
| `Dotted.Append` | log4tango/src/PatternLayout.cpp:81-101 | What the backward search with wrapping positions writes, for every precision and name: the name, an exception, or its last segments |
| `Dotted.PrecisionExact` | log4tango/src/PatternLayout.cpp:88-99 | The last min(precision, segments) segments are written if and only if the name has no leading dot or more segments than the precision |

## Left out

- The short form of the cache list (two or three strings, for a server the database does not know): the constructor's early exits for it are not modelled.
- The decoding branches for database servers older than release 2.3 (one string per attribute property).
- `Replies.DeviceReplyExact`: the converse leaves open what happens when a wanted name is the decimal text of its own number of values, which depends on every later string of the reply. The same for `Replies.AttributeReplyExact` and the two put lemmas.
- `ServerCache.Walk`: the list is the flat form of some content, as the database's stored procedure builds it; malformed lists, for which the code reads out of bounds, are not modelled. Counts are the usual decimal texts.
- `CacheIndex.PropAttIndexes`: serves for pipes as well, since the two C++ functions have the same body; the index arrays are sequences built by the loop and not C arrays filled in place.
- `Cache.DbServerCache.constructor`: fetching the list from the database and its logging; the reply buffers are sequences, so sharing and freeing of strings is not captured.
- `History.MakeHistoryArray`: data in which a record is cut short or has a negative count, where the code reads out of bounds or moves its cursor backwards; the re-formatting of dates and `deleted`, which is true exactly for a record without values.
- `Drain.ProcessArrived`: the code erases the element its iterator stands on; the traversal is modelled as picking the next arrived entry and then processing it, and covers the per-connection loops as well.
- `Drain.GetAsynchReplies`: callbacks that themselves store or cancel requests, the per-device asynchronous counters, and the sleep between polls.
- `AsynTable.AsynReq.StoreRequest`: mutexes and the callback thread; each locked method is one atomic step. The request counter is unbounded.
- `Dotted.Append`: parsing of the precision from the layout pattern; names are shorter than the largest position.
- `RollingFile.RunSafe`: changing the limits in the middle of a run, failing writes, files changed by others, and the layout that turns an event into a message.
- `ServiceList.RegisterService`: the property calls that fetch and store the list; the list itself is parameter and result.
- `AttributeName.AttributeProxy.ParseName`: the fields half filled when a name is refused, as no object exists then; database look-ups of aliases are a map; an uninitialised `from_env_var` without a database is read as false.
- `WrittenName.RoundTrip`: names whose parts contain separators, some of which the parser accepts with surprising parts (`WrittenName.PlaceTwisted`).
- `Datum.ExtractFloats`: how a floating point number is read is a parameter (a function of the text in front of the terminator); writing floats with a precision.
- `Datum.ExtractVector`: covers the six integer vector types by their bounds; the unsigned character type, written as a number and read as a character, is not modelled.
- 32-bit wrap-around of cursors, counts and `atoi`; counts read through streams have the bounds of their C++ types.
- CORBA transport, `Any` packing, reconnection, access control and the file database; exceptions are results.
- `export_server`, `LogStreambuf`, `Level`, the format modifiers of layouts, and the copying between IDL versions of attribute structures.
