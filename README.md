# A Dafny model of five Resin components

This project models five components of the Resin application server and
proves properties of them.

- **`CacheImpl`** is the facade of the distributed cache. It covers `get`,
  `put` and the conditional writes `putIfAbsent`, both `replace`s,
  `compareAndPut` and `compareAndRemove`. It also covers both `remove`s,
  `getAll`, `putAll`, `cacheLoader`, the listener registries and the order
  in which events reach them, the counters behind the statistics,
  `init`/`setManager`, the load futures and the entry iterator.
  - The per-key store behind the facade is a map from key to its latest
    version record. Its compare-and-put is an assumption of this model, since
    the store is not part of it: the NULL hash matches only an absent value,
    the ANY hash matches every record, and the answer is the hash the record
    had before the call.
- **`ResinProperties`** is the `resin:properties` element. It covers the
  `init` decision: a path or a fileset, a readable file, or an optional
  missing file. It also covers the line parser: trimming, comments, and the
  split at the first colon with a trimmed key and value. The global property
  table is passed in and returned.
- **`QNameProperty`** is the JAXB property for `javax.xml.namespace.QName`
  values. It models writing a QName as element text and reading it back
  from a stream of events. The writer exists in two versions:
  - `WriteAsWritten` is the code as written, which never declares the
    prefix's namespace (see "## Findings");
  - `Write` and `WriteCorrected` are the corrected writer, which declares
    the namespace only when the stream does not already bind that prefix.
- **`GenericTag`** is the JSP custom-tag node. It covers:
  - the `empty` body rule;
  - attribute lookup, and the required and unexpected attribute checks;
  - the tag variables;
  - identifier validation;
  - the declarations at the start of the tag, with their default
    initializers;
  - the XML view of runtime expressions;
  - the search for scripting elements.
- **`AbstractIntrospectedBean`** is dependency-injection introspection. It
  covers:
  - the walk over bean types, which skips the reserved types;
  - the single-scope rule;
  - qualifiers, and the default name for `@Named("")`;
  - the stereotype restrictions;
  - the defaults for qualifier, scope and name;
  - the qualifier array and the memoised passivation id.

Parts that change state in place are classes with `modifies` clauses:

- the cache, its load futures and its entry iterator;
- the properties element;
- the XML stream writer and reader;
- the custom tag and its code generator;
- the introspected bean.

Each method is proved against a specification function, and the properties
are lemmas about those functions.

Reflection, the bean manager, the code writer's escaping, the hash function
and the class hierarchy are given as function-valued parameters.

## Model

| member | source | states |
|---|---|---|
| CacheStore.Put | modules/resin/src/com/caucho/server/distcache/CacheImpl.java:363-369 | the written key reads back the value, with the value's digest and a version one higher |
| CacheStore.PutFrame | modules/resin/src/com/caucho/server/distcache/CacheImpl.java:363-369 | a put touches no other key and keeps every record's hash consistent with its value |
| CacheStore.Remove | modules/resin/src/com/caucho/server/distcache/CacheImpl.java:541-551 | the answer is true iff the key held a value; then a deletion record with a new version is written, otherwise nothing changes; other keys are untouched |
| CacheStore.ValueHash | modules/resin/src/com/caucho/server/distcache/CacheImpl.java:492 | a null old value has no hash; otherwise the hash is a digest |
| CacheStore.CompareAndPut | modules/resin/src/com/caucho/server/distcache/CacheImpl.java:481 | the answer is always the hash before the call; the store writes iff the expected hash matches it |
| CacheStore.PutIfAbsentAnswer | modules/resin/src/com/caucho/server/distcache/CacheImpl.java:483 | `putIfAbsent`'s reading of the store's answer: true iff it is non-null and the NULL hash (its meaning for the store is `PutIfAbsentMeaning`) |
| CacheStore.ReplaceAnswer | modules/resin/src/com/caucho/server/distcache/CacheImpl.java:517 | `replace(key, value)`'s reading of the answer: true iff it is non-null and not the NULL hash (its meaning is `ReplaceMeaning`) |
| CacheStore.ReplaceValueAnswer | modules/resin/src/com/caucho/server/distcache/CacheImpl.java:498-503 | the `isChanged` rule of `replace(key, old, value)`: with a null or NULL old hash, true iff the answer is null or NULL; otherwise true iff the answer equals the old hash (its meaning is `ReplaceValueMeaning`) |
| CacheStore.PutIfAbsentMeaning | modules/resin/src/com/caucho/server/distcache/CacheImpl.java:476-484 | `putIfAbsent` answers true iff the key was absent, writes only then, and otherwise leaves the store unchanged |
| CacheStore.PutIfAbsentOnce | modules/resin/src/com/caucho/server/distcache/CacheImpl.java:476-484 | a second `putIfAbsent` of a key always fails |
| CacheStore.ReplaceMeaning | modules/resin/src/com/caucho/server/distcache/CacheImpl.java:509-523 | `replace(key, value)` always writes, and answers true iff the key held a value |
| CacheStore.ReplaceValueMeaning | modules/resin/src/com/caucho/server/distcache/CacheImpl.java:487-506 | `replace(key, old, value)` answers true iff the old value's hash matched the current one, and writes exactly then |
| CacheStore.ReplaceValueOfPresent | modules/resin/src/com/caucho/server/distcache/CacheImpl.java:487-506 | for a present key the change is reported iff the stored value hashes like the old value |
| CacheStore.VersionsMonotone | modules/resin/src/com/caucho/server/distcache/CacheImpl.java:467-473 | no store operation lowers a version, and a write raises it |
| CacheListeners.Dispatch | modules/resin/src/com/caucho/server/distcache/CacheImpl.java:1006-1049 | at most one call per registration |
| CacheListeners.DispatchConcat | modules/resin/src/com/caucho/server/distcache/CacheImpl.java:1016-1018 | dispatching to two registries in a row is dispatching to their concatenation |
| CacheListeners.DispatchMembership | modules/resin/src/com/caucho/server/distcache/CacheImpl.java:1191-1270 | a listener is called for an event iff some registration of it has a filter that accepts the event |
| CacheListeners.DispatchAllAccepting | modules/resin/src/com/caucho/server/distcache/CacheImpl.java:1016-1018 | with accepting filters every registration is called once, in registration order |
| CacheListeners.RemoveFirst | modules/resin/src/com/caucho/server/distcache/CacheImpl.java:708-721 | the registry shrinks by one iff the listener is registered |
| CacheListeners.RemoveFirstAt | modules/resin/src/com/caucho/server/distcache/CacheImpl.java:712-716 | removal at the first match keeps the registrations before and after it, in order |
| CacheListeners.RemoveFirstAbsent | modules/resin/src/com/caucho/server/distcache/CacheImpl.java:711-720 | without a registration of the listener the registry is unchanged |
| CacheListeners.FindMatch | modules/resin/src/com/caucho/server/distcache/CacheImpl.java:712-717 | the index of the first registration of the listener, or -1 iff there is none |
| CacheListeners.Unregister | modules/resin/src/com/caucho/server/distcache/CacheImpl.java:708-721 | answers whether the listener was registered and removes its first registration |
| DistCache.FoundValuesMeaning | modules/resin/src/com/caucho/server/distcache/CacheImpl.java:629-642 | the `getAll` map holds exactly the requested keys that have a value, each mapped to its value |
| DistCache.HitCount | modules/resin/src/com/caucho/server/distcache/CacheImpl.java:283-287 | a batch of gets hits at most once per key |
| DistCache.GetAllStep | modules/resin/src/com/caucho/server/distcache/CacheImpl.java:633-639 | one more key adds its value, its hit and its read event at the end |
| DistCache.LastEntryForMeaning | modules/resin/src/com/caucho/server/distcache/CacheImpl.java:742-745 | the value found is that of the last entry for the key, and there is none iff no entry names the key |
| DistCache.PutAllLookup | modules/resin/src/com/caucho/server/distcache/CacheImpl.java:736-746 | after `putAll` a key holds the value of its last entry, and keys without an entry are untouched |
| DistCache.PutAllStep | modules/resin/src/com/caucho/server/distcache/CacheImpl.java:742-745 | one more entry is one more put and one more updated event |
| DistCache.PutAllWellFormed | modules/resin/src/com/caucho/server/distcache/CacheImpl.java:736-746 | `putAll` keeps every record's hash consistent with its value |
| DistCache.Cache.constructor | modules/resin/src/com/caucho/server/distcache/CacheImpl.java:122-133 | a new cache is empty, uninitialised, unbound and without listeners |
| DistCache.Cache.GetStatistics | modules/resin/src/com/caucho/server/distcache/CacheImpl.java:727-730 | the counters, where every get is a hit or a miss |
| DistCache.Cache.Init | modules/resin/src/com/caucho/server/distcache/CacheImpl.java:228-254 | runs once; the flag is set before the manager lookup; a missing system or manager is an error; the engine defaults to the manager's |
| DistCache.Cache.SetManager | modules/resin/src/com/caucho/server/distcache/CacheImpl.java:880-886 | succeeds iff no manager is bound, and then binds it |
| DistCache.Cache.Fire | modules/resin/src/com/caucho/server/distcache/CacheImpl.java:1006-1049 | the log grows by exactly the dispatch of the event to the registry |
| DistCache.Cache.EntryRead | modules/resin/src/com/caucho/server/distcache/CacheImpl.java:1006-1019 | the read event, with the value read, goes to the read registry |
| DistCache.Cache.EntryUpdate | modules/resin/src/com/caucho/server/distcache/CacheImpl.java:1021-1034 | the updated event, with the new value, goes to the updated registry |
| DistCache.Cache.EntryRemoved | modules/resin/src/com/caucho/server/distcache/CacheImpl.java:1036-1049 | the removed event, with a null value, goes to the removed registry |
| DistCache.Cache.Get | modules/resin/src/com/caucho/server/distcache/CacheImpl.java:279-294 | returns the stored value; one more get and one more hit or miss; the read event |
| DistCache.Cache.Put | modules/resin/src/com/caucho/server/distcache/CacheImpl.java:363-369 | writes the value, counts a put, sends the updated event |
| DistCache.Cache.PutIfAbsent | modules/resin/src/com/caucho/server/distcache/CacheImpl.java:476-484 | true iff the key was absent, and only then written; no counter and no event |
| DistCache.Cache.Replace | modules/resin/src/com/caucho/server/distcache/CacheImpl.java:509-523 | true iff the key held a value; always written; the updated event only on true |
| DistCache.Cache.ReplaceValue | modules/resin/src/com/caucho/server/distcache/CacheImpl.java:487-506 | true iff the old value's hash matches (a null old value matches only an absent key), written exactly then |
| DistCache.Cache.Remove | modules/resin/src/com/caucho/server/distcache/CacheImpl.java:541-551 | true iff the key held a value; only then counted and announced |
| DistCache.Cache.RemoveValue | modules/resin/src/com/caucho/server/distcache/CacheImpl.java:559-564 | removes whatever the old value, and answers true |
| DistCache.Cache.CompareAndRemove | modules/resin/src/com/caucho/server/distcache/CacheImpl.java:576-587 | removes iff the current version is the given one, and then, as `remove(key)` does, counts one removal and sends the removed event exactly when the key held a value; otherwise changes nothing |
| DistCache.Cache.CompareAndPutVersion | modules/resin/src/com/caucho/server/distcache/CacheImpl.java:438-445 | ignores the version, puts and answers true |
| DistCache.Cache.GetAll | modules/resin/src/com/caucho/server/distcache/CacheImpl.java:629-642 | one get per key; the map of found values; the counters and read events of those gets |
| DistCache.Cache.PutAll | modules/resin/src/com/caucho/server/distcache/CacheImpl.java:736-746 | one put per entry in order; puts and updated events counted per entry |
| DistCache.Cache.CacheLoader | modules/resin/src/com/caucho/server/distcache/CacheImpl.java:780-797 | one `get`: one more hit or miss and the read event with the value found; a hit is returned unchanged; on a miss the loader's non-null value is put, counted and announced with the updated event, and returned |
| DistCache.Cache.RegisterListener | modules/resin/src/com/caucho/server/distcache/CacheImpl.java:648-686 | one registration per implemented read, updated and removed interface, at the end; always true |
| DistCache.Cache.UnregisterListener | modules/resin/src/com/caucho/server/distcache/CacheImpl.java:692-706 | removes the first registration from each registry; true iff any was removed |
| DistCache.Cache.Close | modules/resin/src/com/caucho/server/distcache/CacheImpl.java:806-816 | the cache is closed |
| DistCache.Cache.Load | modules/resin/src/com/caucho/server/distcache/CacheImpl.java:931-951 | the load queue exists afterwards; a new pending future for the key |
| DistCache.Cache.LoadAll | modules/resin/src/com/caucho/server/distcache/CacheImpl.java:954-974 | the load queue exists afterwards; a new pending future for the keys |
| DistCache.LoadFuture.constructor | modules/resin/src/com/caucho/server/distcache/CacheImpl.java:1334-1344 | a new future is pending on its cache |
| DistCache.LoadFuture.Process | modules/resin/src/com/caucho/server/distcache/CacheImpl.java:1346-1363 | processed on its own cache, the future holds the `get` or `getAll` result, is done and drops its cache; the cache's gets, hits, misses and read events are those of that `get` or `getAll` |
| DistCache.LoadFuture.Cancel | modules/resin/src/com/caucho/server/distcache/CacheImpl.java:1366-1369 | cancellation is refused |
| DistCache.LoadFuture.IsCancelled | modules/resin/src/com/caucho/server/distcache/CacheImpl.java:1413-1416 | never cancelled |
| DistCache.LoadFuture.IsDone | modules/resin/src/com/caucho/server/distcache/CacheImpl.java:1419-1422 | reports the done flag |
| DistCache.LoadFuture.TryGet | modules/resin/src/com/caucho/server/distcache/CacheImpl.java:1372-1384 | the value is available iff the future is done or its cache is closed |
| DistCache.EntriesOf | modules/resin/src/com/caucho/server/distcache/CacheImpl.java:1174-1184 | only entries of this cache, taken from the store |
| DistCache.EntriesOfComplete | modules/resin/src/com/caucho/server/distcache/CacheImpl.java:1174-1184 | every entry of this cache is yielded |
| DistCache.EntryIterator.constructor | modules/resin/src/com/caucho/server/distcache/CacheImpl.java:1142-1149 | the iterator will yield exactly the cache's entries in store order |
| DistCache.EntryIterator.FindNext | modules/resin/src/com/caucho/server/distcache/CacheImpl.java:1174-1184 | advancing changes nothing in what remains to be yielded |
| DistCache.EntryIterator.HasNext | modules/resin/src/com/caucho/server/distcache/CacheImpl.java:1152-1155 | true iff entries remain |
| DistCache.EntryIterator.Next | modules/resin/src/com/caucho/server/distcache/CacheImpl.java:1158-1167 | the first remaining entry (null when none), and the rest remain |
| JavaStrings.IndexOf | modules/kernel/src/com/caucho/config/core/ResinProperties.java:147 | the first index of the character, or -1 iff it does not occur |
| JavaStrings.IndexOfAfter | modules/kernel/src/com/caucho/config/core/ResinProperties.java:147 | a character first occurring right after a prefix without it is found at the prefix's length |
| ResinProps.FirstKept | modules/kernel/src/com/caucho/config/core/ResinProperties.java:142 | the first character `trim` keeps, every one before it trimmed |
| ResinProps.EndKept | modules/kernel/src/com/caucho/config/core/ResinProperties.java:142 | the end of the kept part, every character after it trimmed |
| ResinProps.Lead | modules/kernel/src/com/caucho/config/core/ResinProperties.java:142 | the leading trimmed part fits in the text |
| ResinProps.Trim | modules/kernel/src/com/caucho/config/core/ResinProperties.java:142 | the result is empty or keeps no trimmed character at either end |
| ResinProps.TrimShape | modules/kernel/src/com/caucho/config/core/ResinProperties.java:142 | the trimmed text is the input without only trimmed characters at both ends |
| ResinProps.TrimOfTrimmed | modules/kernel/src/com/caucho/config/core/ResinProperties.java:152-153 | text with kept characters at both ends is its own trim |
| ResinProps.TrimIdempotent | modules/kernel/src/com/caucho/config/core/ResinProperties.java:152-153 | trimming twice is trimming once |
| ResinProps.TrimKeepsAbsent | modules/kernel/src/com/caucho/config/core/ResinProperties.java:152 | trimming adds no character |
| ResinProps.ParseLine | modules/kernel/src/com/caucho/config/core/ResinProperties.java:142-153 | skipped iff blank or a comment; invalid iff otherwise without a colon |
| ResinProps.PropertySplit | modules/kernel/src/com/caucho/config/core/ResinProperties.java:147-153 | key and value are the trimmed text around the first colon |
| ResinProps.KeyHasNoColon | modules/kernel/src/com/caucho/config/core/ResinProperties.java:147-152 | a key never contains a colon |
| ResinProps.ParseAt | modules/kernel/src/com/caucho/config/core/ResinProperties.java:147-153 | a trimmed line whose first colon is at a given index parses to the parts around it |
| ResinProps.ParseWrittenLine | modules/kernel/src/com/caucho/config/core/ResinProperties.java:141-155 | a written `key:value` line with a trimmed colon-free key and a trimmed value reads back as that pair |
| ResinProps.ApplyLines | modules/kernel/src/com/caucho/config/core/ResinProperties.java:141-156 | an error is always an invalid line of this path |
| ResinProps.ApplyLinesConcat | modules/kernel/src/com/caucho/config/core/ResinProperties.java:141-156 | reading two line sequences is reading the first and, without an error, then the second |
| ResinProps.SkippedLineKeepsTable | modules/kernel/src/com/caucho/config/core/ResinProperties.java:144-145 | a blank or comment line changes nothing |
| ResinProps.NoColonLineFails | modules/kernel/src/com/caucho/config/core/ResinProperties.java:147-150 | a non-blank, non-comment line without a colon is an error naming the path and the line |
| ResinProps.LaterLineOverwrites | modules/kernel/src/com/caucho/config/core/ResinProperties.java:155 | a later property line sets its key to its value |
| ResinProps.ReadProperties | modules/kernel/src/com/caucho/config/core/ResinProperties.java:132-162 | the line loop computes the table and error of the specification |
| ResinProps.Plan | modules/kernel/src/com/caucho/config/core/ResinProperties.java:95-119 | the `init` decision: no path and no fileset is refused; no path with a fileset reads the fileset; a readable path reads the fileset if there is one, else the path; an unreadable path is skipped when it is optional and missing, and refused otherwise |
| ResinProps.ApplyPathsConcat | modules/kernel/src/com/caucho/config/core/ResinProperties.java:121-129 | the files are read in order, stopping at the first error |
| ResinProps.InitReadsSinglePath | modules/kernel/src/com/caucho/config/core/ResinProperties.java:99-128 | a single readable path is read exactly as its file |
| ResinProps.ResinProperties.constructor | modules/kernel/src/com/caucho/config/core/ResinProperties.java:60-62 | no path, no fileset, not optional |
| ResinProps.ResinProperties.SetPath | modules/kernel/src/com/caucho/config/core/ResinProperties.java:67-73 | a null path is refused and leaves the path as it was |
| ResinProps.ResinProperties.SetFileset | modules/kernel/src/com/caucho/config/core/ResinProperties.java:78-81 | sets the fileset |
| ResinProps.ResinProperties.SetOptional | modules/kernel/src/com/caucho/config/core/ResinProperties.java:86-89 | sets the optional flag |
| ResinProps.ResinProperties.Init | modules/kernel/src/com/caucho/config/core/ResinProperties.java:91-130 | computes the table and error of the specification of `init` |
| QNameCodec.StreamWriter.constructor | modules/resin/src/com/caucho/jaxb/skeleton/QNameProperty.java:52 | a writer with its namespace bindings and no calls yet |
| QNameCodec.StreamWriter.Emit | modules/resin/src/com/caucho/jaxb/skeleton/QNameProperty.java:52-80 | appends one call |
| QNameCodec.Write | modules/resin/src/com/caucho/jaxb/skeleton/QNameProperty.java:52-80 | the CORRECTED writer of "## Findings": the calls made are those of `WriteCorrected`, which declares the prefix only when the writer does not already bind the namespace to it |
| QNameCodec.SkipToEnd | modules/resin/src/com/caucho/jaxb/skeleton/QNameProperty.java:118-119 | the position of the first end element from the given position on, or an error iff there is none |
| QNameCodec.DeclarationAsWritten | modules/resin/src/com/caucho/jaxb/skeleton/QNameProperty.java:64-71 | the declaration guard as written, which compares the name's prefix with itself (its effect is `AsWrittenNeverDeclares`) |
| QNameCodec.WriteAsWritten | modules/resin/src/com/caucho/jaxb/skeleton/QNameProperty.java:52-80 | `write` as written: start, the guard's declarations, the rendered text, end (its round trips are `AsWrittenRoundTrip` and `AsWrittenLosesBinding`) |
| QNameCodec.ParseText | modules/resin/src/com/caucho/jaxb/skeleton/QNameProperty.java:94-116 | the element text as a name: colon-free text is a local name; otherwise the prefix before the first colon must be bound and the local part after it must not be empty (`ParseUnqualified`, `ParseQualified`) |
| QNameCodec.EventReader.constructor | modules/resin/src/com/caucho/jaxb/skeleton/QNameProperty.java:83 | a reader at the start of its events |
| QNameCodec.EventReader.Next | modules/resin/src/com/caucho/jaxb/skeleton/QNameProperty.java:118-119 | advances one event, or fails at the end |
| QNameCodec.Read | modules/resin/src/com/caucho/jaxb/skeleton/QNameProperty.java:83-128 | the result and final position of the specification of `read` |
| QNameCodec.ParseUnqualified | modules/resin/src/com/caucho/jaxb/skeleton/QNameProperty.java:97-100 | text without a colon is a name without namespace or prefix |
| QNameCodec.ParseQualified | modules/resin/src/com/caucho/jaxb/skeleton/QNameProperty.java:101-115 | a prefix resolves through the namespace context, and an unbound prefix or empty local part is an error |
| QNameCodec.RenderSplits | modules/resin/src/com/caucho/jaxb/skeleton/QNameProperty.java:73-76 | a rendered name splits back at its first colon into prefix and local part |
| QNameCodec.ReadSucceeds | modules/resin/src/com/caucho/jaxb/skeleton/QNameProperty.java:83-128 | a successful read started at the expected element, and ended at its first end element |
| QNameCodec.ReadRejectsStart | modules/resin/src/com/caucho/jaxb/skeleton/QNameProperty.java:86-88 | a read not at the expected start element fails without moving |
| QNameCodec.EventsOfWrite | modules/resin/src/com/caucho/jaxb/skeleton/QNameProperty.java:52-80 | the written calls are a start, the text and an end, plus the declarations made |
| QNameCodec.ReadElement | modules/resin/src/com/caucho/jaxb/skeleton/QNameProperty.java:83-128 | reading a start, text and end element gives the parsed text at position 3, or its error at 1 |
| QNameCodec.RoundTrip | modules/resin/src/com/caucho/jaxb/skeleton/QNameProperty.java:52-128 | a prefixed name written by the corrected writer reads back equal, with the same prefix |
| QNameCodec.RoundTripUnprefixed | modules/resin/src/com/caucho/jaxb/skeleton/QNameProperty.java:73-100 | a name without a prefix reads back with its local part and no namespace |
| QNameCodec.RoundTripNull | modules/resin/src/com/caucho/jaxb/skeleton/QNameProperty.java:57-59 | a null value is written as an empty element and reads back as null |
| QNameCodec.CorrectedDeclares | modules/resin/src/com/caucho/jaxb/skeleton/QNameProperty.java:64-71 | the corrected writer declares iff namespace and prefix are non-empty and the writer does not bind the namespace to that prefix |
| QNameCodec.AsWrittenNeverDeclares | modules/resin/src/com/caucho/jaxb/skeleton/QNameProperty.java:64-71 | as written, the namespace is never declared |
| QNameCodec.AsWrittenLosesBinding | modules/resin/src/com/caucho/jaxb/skeleton/QNameProperty.java:64-71 | a concrete name whose prefix is lost as written but reads back with the correction |
| QNameCodec.AsWrittenRoundTrip | modules/resin/src/com/caucho/jaxb/skeleton/QNameProperty.java:52-128 | as written, a prefixed name still reads back equal when the reader already binds its prefix to its namespace |
| TagRules.CustomTag.constructor | modules/resin/src/com/caucho/jsp/java/GenericTag.java:115-130 | a tag with its body-content kind and no children |
| TagRules.CustomTag.AddChild | modules/resin/src/com/caucho/jsp/java/GenericTag.java:115-130 | an `empty` tag refuses every child except attributes and whitespace text; the children then grow by the node, or by nothing for ignored whitespace |
| TagRules.IsNameMatch | modules/resin/src/com/caucho/jsp/java/GenericTag.java:485-496 | `isNameMatch`: the definition name is the attribute's full name, or its local name with the tag's prefix (`NameMatchUnqualified`) |
| TagRules.NameMatchUnqualified | modules/resin/src/com/caucho/jsp/java/GenericTag.java:485-496 | a colon-free name matches an attribute iff its full name is that name, or its prefix is the tag's and its local name is that name |
| TagRules.GetAttributeIndex | modules/resin/src/com/caucho/jsp/java/GenericTag.java:473-483 | the index of the first matching attribute, or -1 iff none matches |
| TagRules.GetAttributeInfo | modules/resin/src/com/caucho/jsp/java/GenericTag.java:460-470 | the first matching attribute definition (no earlier one matches), or null iff there are no definitions or none matches |
| TagRules.FillAttributes | modules/resin/src/com/caucho/jsp/java/GenericTag.java:411-454 | passes iff no required attribute is missing and every attribute is known or the tag is dynamic; otherwise the first missing, or else the first unexpected, attribute |
| TagRules.VariableSlotMeaning | modules/resin/src/com/caucho/jsp/java/GenericTag.java:674-703 | a variable is skipped iff it has no name and its name attribute is missing; otherwise it carries the name, class, declare flag and scope |
| TagRules.FillVariableInfo | modules/resin/src/com/caucho/jsp/java/GenericTag.java:674-703 | a new array, null iff the declarations are null, with one slot per declaration |
| TagRules.ValidateVarName | modules/resin/src/com/caucho/jsp/java/GenericTag.java:786-796 | passes iff the name is a Java identifier; an empty name is its own error |
| TagRules.ValidatedAreIdentifiers | modules/resin/src/com/caucho/jsp/java/GenericTag.java:786-796 | the validation agrees with the identifier predicate |
| TagRules.InitializerFitsType | modules/resin/src/com/caucho/jsp/java/GenericTag.java:332-352 | the initializer is `0;` for numeric primitives, `false;` for boolean and `null;` for every other type |
| TagRules.NamesOfMember | modules/resin/src/com/caucho/jsp/java/GenericTag.java:339 | a name is declared iff some declaration has it |
| TagRules.DefaultInitializer | modules/resin/src/com/caucho/jsp/java/GenericTag.java:341-352 | the initializer by class name: `0;` for the numeric primitives, `false;` for boolean, `null;` otherwise (`InitializerFitsType`) |
| TagRules.PrologueDeclaresOnce | modules/resin/src/com/caucho/jsp/java/GenericTag.java:320-354 | no name is declared twice or redeclared, and the declared set grows by exactly the new names |
| TagRules.PrologueDeclarationsTyped | modules/resin/src/com/caucho/jsp/java/GenericTag.java:320-354 | every declaration comes from a variable, with its type and default initializer |
| TagRules.Generator.constructor | modules/resin/src/com/caucho/jsp/java/GenericTag.java:331-339 | a generator with nothing declared |
| TagRules.DeclareVariables | modules/resin/src/com/caucho/jsp/java/GenericTag.java:320-354 | the loop emits the declarations of the specification and records their names |
| TagRules.ExpressionAttributeText | modules/resin/src/com/caucho/jsp/java/GenericTag.java:384-390 | a runtime expression is shown as `%=escaped%` |
| TagRules.XmlAttributesSkipOthers | modules/resin/src/com/caucho/jsp/java/GenericTag.java:378-393 | attributes that are not strings produce no text |
| TagRules.AttributeText | modules/resin/src/com/caucho/jsp/java/GenericTag.java:382-390 | the printed text of a string value: `<%=e%>` as `%=` escaped `e` `%`, any other value escaped (`ExpressionAttributeText`) |
| TagRules.XmlAttributesConcat | modules/resin/src/com/caucho/jsp/java/GenericTag.java:378-393 | the attribute text of two lists is the text of each, in order |
| TagRules.SomeScriptingConcat | modules/resin/src/com/caucho/jsp/java/GenericTag.java:869-887 | a concatenation holds scripting iff either part does |
| TagRules.HasScriptlet | modules/resin/src/com/caucho/jsp/java/GenericTag.java:869-887 | `hasScriptlet`: the node is a scriptlet or expression, or some child has one (`HasScriptletMeaning`) |
| TagRules.HasScriptletMeaning | modules/resin/src/com/caucho/jsp/java/GenericTag.java:869-887 | a subtree has a scriptlet iff one of its nodes is scripting |
| TagRules.AnyHasScriptletMeaning | modules/resin/src/com/caucho/jsp/java/GenericTag.java:878-884 | the children hold a scriptlet iff one of their nodes is scripting |
| TagRules.ComputeHasScriptlet | modules/resin/src/com/caucho/jsp/java/GenericTag.java:869-887 | the child loop computes the recursive search |
| BeanIntrospection.AdmittedOne | modules/kernel/src/com/caucho/config/inject/AbstractIntrospectedBean.java:288-291 | a base type created from a type that is not reserved is admitted |
| BeanIntrospection.AdmittedChain | modules/kernel/src/com/caucho/config/inject/AbstractIntrospectedBean.java:298-303 | admitted suffixes of a growing type list join up |
| BeanIntrospection.DefaultNameShape | modules/kernel/src/com/caucho/config/inject/AbstractIntrospectedBean.java:461-466 | an error iff the simple name is empty; otherwise the same length, the first character lowered, the rest kept |
| BeanIntrospection.DefaultName | modules/kernel/src/com/caucho/config/inject/AbstractIntrospectedBean.java:461-466 | `getDefaultName`: the simple name with its first character lowered; an error for the empty simple name (`DefaultNameShape`) |
| BeanIntrospection.DefaultNameIdempotent | modules/kernel/src/com/caucho/config/inject/AbstractIntrospectedBean.java:461-466 | a default name is its own default name |
| BeanIntrospection.ScopeScanMeaning | modules/kernel/src/com/caucho/config/inject/AbstractIntrospectedBean.java:349-364 | an error iff two different scopes are present, counting one already set; otherwise the scope is the one present |
| BeanIntrospection.ScopeScanSticks | modules/kernel/src/com/caucho/config/inject/AbstractIntrospectedBean.java:356-360 | a conflict ends the scan |
| BeanIntrospection.QualifierScanMeaning | modules/kernel/src/com/caucho/config/inject/AbstractIntrospectedBean.java:369-386 | the qualifiers only grow, by qualifier annotations without an empty `@Named`; on success every qualifier annotation is recorded as it resolves (`@Named("")` as the default name); an error iff the simple name is empty and some qualifier annotation is `@Named("")`, and then it is the empty-name error |
| BeanIntrospection.QualifierScanSticks | modules/kernel/src/com/caucho/config/inject/AbstractIntrospectedBean.java:379-380 | an error ends the scan |
| BeanIntrospection.NamedValue | modules/kernel/src/com/caucho/config/inject/AbstractIntrospectedBean.java:393 | the value of the first `@Named`, present iff there is one |
| BeanIntrospection.DeclaredScanKeeps | modules/kernel/src/com/caucho/config/inject/AbstractIntrospectedBean.java:423-444 | the declared annotations never change the stereotypes, or a scope or name already set |
| BeanIntrospection.DeclaredScanQualifiers | modules/kernel/src/com/caucho/config/inject/AbstractIntrospectedBean.java:438-443 | a successful scan saw no qualifier other than `@Named` |
| BeanIntrospection.DeclaredScanNamed | modules/kernel/src/com/caucho/config/inject/AbstractIntrospectedBean.java:431-436 | for a bean without a name, success means the first `@Named` seen is empty, and the name becomes empty |
| BeanIntrospection.DeclaredStepName | modules/kernel/src/com/caucho/config/inject/AbstractIntrospectedBean.java:431-436 | the first `@Named` sets the empty name, and fails when it has a value |
| BeanIntrospection.DeclaredScanSticks | modules/kernel/src/com/caucho/config/inject/AbstractIntrospectedBean.java:435-442 | an error ends the inner scan |
| BeanIntrospection.StereotypeScanSticks | modules/kernel/src/com/caucho/config/inject/AbstractIntrospectedBean.java:418-446 | an error ends the outer scan |
| BeanIntrospection.NamedValueSnoc | modules/kernel/src/com/caucho/config/inject/AbstractIntrospectedBean.java:393 | the first `@Named` of a longer list |
| BeanIntrospection.StereotypeScanKeeps | modules/kernel/src/com/caucho/config/inject/AbstractIntrospectedBean.java:416-447 | the stereotypes only grow, by stereotype annotations, and on success every stereotype annotation of the bean is among them; a scope or name already set is kept |
| BeanIntrospection.StereotypeScanRejectsQualifiers | modules/kernel/src/com/caucho/config/inject/AbstractIntrospectedBean.java:438-443 | on success no annotation of the bean declares a qualifier other than `@Named` |
| BeanIntrospection.ApplyDefaultsMeaning | modules/kernel/src/com/caucho/config/inject/AbstractIntrospectedBean.java:449-459 | afterwards there is a qualifier (`@Current` when none) and a scope (`@Dependent` when none); an empty name becomes the default name of the simple name, and any other name is kept without error; the name is not empty on success; an error iff the name is empty and so is the simple name; applying twice is applying once |
| BeanIntrospection.QualifierArray | modules/kernel/src/com/caucho/config/inject/AbstractIntrospectedBean.java:240-249 | never empty |
| BeanIntrospection.QualifierArrayAfterDefaults | modules/kernel/src/com/caucho/config/inject/AbstractIntrospectedBean.java:240-249 | after the defaults the array is exactly the qualifier list, and without qualifiers it already was |
| BeanIntrospection.ApplyDefaults | modules/kernel/src/com/caucho/config/inject/AbstractIntrospectedBean.java:449-459 | `introspectDefault` on values: `@Current`, `@Dependent` and the default name where missing (`ApplyDefaultsMeaning`) |
| BeanIntrospection.IntrospectAnnotated | modules/kernel/src/com/caucho/config/inject/AbstractIntrospectedBean.java:336-344 | `introspect(annotated)` on values: the four scans and the defaults in order, stopping at the first error with the effects of the earlier steps kept |
| BeanIntrospection.IntrospectAnnotatedMeaning | modules/kernel/src/com/caucho/config/inject/AbstractIntrospectedBean.java:336-344 | on success there is a qualifier and a scope, the name is not empty, the qualifier array is the list, the scopes agree, and no annotation type declares a foreign qualifier |
| BeanIntrospection.IntrospectedBean.constructor | modules/kernel/src/com/caucho/config/inject/AbstractIntrospectedBean.java:105-121 | a bean with nothing introspected |
| BeanIntrospection.IntrospectedBean.AddType | modules/kernel/src/com/caucho/config/inject/AbstractIntrospectedBean.java:306-326 | null iff no base type or a known one, changing nothing; otherwise appended, and its Java type appended unless present |
| BeanIntrospection.IntrospectedBean.IntrospectTypes | modules/kernel/src/com/caucho/config/inject/AbstractIntrospectedBean.java:286-304 | the type lists only grow, without duplicates, by base types of types that are not reserved; the starting type is among them |
| BeanIntrospection.IntrospectedBean.IntrospectScope | modules/kernel/src/com/caucho/config/inject/AbstractIntrospectedBean.java:349-364 | the scope and error of the scope scan |
| BeanIntrospection.IntrospectedBean.IntrospectQualifiers | modules/kernel/src/com/caucho/config/inject/AbstractIntrospectedBean.java:369-386 | the qualifiers and error of the qualifier scan |
| BeanIntrospection.IntrospectedBean.IntrospectName | modules/kernel/src/com/caucho/config/inject/AbstractIntrospectedBean.java:391-411 | the value of `@Named`, when present, becomes the name |
| BeanIntrospection.IntrospectedBean.IntrospectStereotypes | modules/kernel/src/com/caucho/config/inject/AbstractIntrospectedBean.java:416-447 | the scope, name, stereotypes and error of the stereotype scan |
| BeanIntrospection.IntrospectedBean.ScanDeclared | modules/kernel/src/com/caucho/config/inject/AbstractIntrospectedBean.java:423-444 | the inner loop computes the declared scan |
| BeanIntrospection.IntrospectedBean.IntrospectDefault | modules/kernel/src/com/caucho/config/inject/AbstractIntrospectedBean.java:449-459 | the qualifiers, scope, name and error of the defaults |
| BeanIntrospection.IntrospectedBean.Introspect | modules/kernel/src/com/caucho/config/inject/AbstractIntrospectedBean.java:336-344 | the new qualifiers, scope, name and stereotypes and the error are those of `IntrospectAnnotated` on the old ones, so an error keeps the effects of the steps before it; types, type classes and the passivation id are unchanged; on success a qualifier, a scope and no empty name |
| BeanIntrospection.IntrospectedBean.GetId | modules/kernel/src/com/caucho/config/inject/AbstractIntrospectedBean.java:214-220 | the first id computed is kept and returned from then on |

## Left out

- `getAndPut`, `getAndReplace`, `getAndRemove`, `removeAll`, `peek`, `getExact`, the stream-based `get`/`put`/`compareAndPut`, `invokeEntryProcessor` and `containsKey`: these delegate to the per-key entry, which is not part of this model.
- Expiration, idle and lease timeouts and clocks: they belong to the store, which is not part of this model.
- `LoadQueueWorker`'s thread and the timed `get` of a load future: concurrency and the clock are not modelled. `TryGet` models one check of the wait condition.
- `CacheAdmin` beyond its counters: management registration is I/O.
- `DistCache.Cache.Close`: `_localManager.remove(_guid)` and `_manager.closeCache(_guid)` are calls into the store manager, which is not part of this model; only the closed flag is set.
- `CacheStore.CompareAndPut`: the modelled store always answers a hash, never null, so the `result == null` branches of `putIfAbsent`, `replace(key, value)` and `replace(key, old, value)` (`PutIfAbsentAnswer`, `ReplaceAnswer`, the null half of `ReplaceValueAnswer`) are not reached.
- The expired-listener registry: it is created but never receives a registration, so it never affects an event.
- A null registry and an empty one are the same sequence.
- `DistCache.Cache`: the counters `gets`, `hits`, `misses`, `puts` and `removals` are `nat`. The source's `AtomicLong` width and wrap-around are not modelled.
- `CacheListeners.Filter`: a filter is a total function. A `null` filter, which `registerCacheEntryListener` accepts, and the `NullPointerException` its wrapper then throws at dispatch are not modelled.
- `CacheStore.VersionOf`: a version is a `nat`. Java's version is a `long`, so negative versions and their wrap-around are not modelled. The store only ever increments versions from zero.
- DistCache.Cache.constructor: the source's constructor ends by calling `init(true)`. Here the constructor leaves the cache uninitialised, and `Init` is a separate call so that its failure paths can be stated.
- `DistCache.Cache.Init`: `_config.init()`, the cache-key creation, the close listener and `initCache` are external calls, represented by one flag.
- `ResinProps.ResinProperties.Init`: `Config.setProperty` writes a global table; here the table is passed in and returned.
- `ResinProps.ReadProperties`: an I/O error while reading is logged and ends the file like its end. A file is the sequence of its readable lines.
- Logging and `Environment.addDependency`: they have no effect on the result.
- The `XMLStreamWriter` and `XMLStreamReader` mechanics beyond the calls and events named: these are library code.
- `QNameCodec.Write`: the writer's namespace bindings are a fixed context.
- `writeStartElement` and `writeEndElement` of the marshaller helpers: their output comes in only as the start and end calls.
- `TagRules.XmlAttributes`: `xmlAttrText` escaping is a function parameter.
- `printJspId`, the element text of `printXml` and the generated Java code: code generation is out of scope, except for the declarations and their initializers.
- `TagRules.FillAttributes`: the `generateSetAttribute` calls are code generation. Only the checks are modelled.
- `TagRules.VariableSlotMeaning`: `TagData.getAttributeString` is a map lookup from name to string, and a missing name attribute gives no variable. The cast to `String` inside `getAttributeString` is not modelled, so neither is its `ClassCastException` for an attribute whose value is given at request time.
- `StaticText` whitespace is a flag of the node, not computed from its text.
- The callers `isDeclared`, `printVarDeclare` and `printVarAssign` of the variable table: only the declarations at the start of the tag are modelled.
- `BeanIntrospection`: reflection (`BaseType.create`, the generic superclass and interfaces, annotation meta data) and `calculatePassivationId` are parameters.
- `getTargetSimpleName` is a constant of the bean.
- `BeanIntrospection`: the bean manager's `isScope` is the same test as "annotated with `@Scope` or `@NormalScope`", and `isQualifier` is the same test as "annotated with `@Qualifier`".
- `BeanIntrospection.ToLower`: lowers ASCII letters only. `Character.toLowerCase` maps all of Unicode.
- `BeanIntrospection.IntrospectedBean.IntrospectTypes`: states which types may be added, and that the starting type is added. It does not give the exact set reached through the hierarchy.
- `BeanIntrospection.IntrospectedBean.IntrospectTypes`: requires that every base type reflection can create lies in one finite set. This bounds the recursion, as the finitely many loaded classes do in the source.
- `BeanIntrospection.IntrospectedBean.IntrospectName`: a failure of the reflective call to `value()` takes the logged path and gives the empty name. The model takes the annotation's value directly.
- `super.introspect()` of `AbstractBean`: it is not part of this model.

## Findings

| source | as written | input that shows it | evidently intended | confidence | as-written member | corrected member |
|---|---|---|---|---|---|---|
| modules/resin/src/com/caucho/jaxb/skeleton/QNameProperty.java:64-71 | the guard compares the name's prefix with the prefix just taken from that same name, so it is never true and the namespace is never declared | `QName("urn:a", "x", "a")` written by a writer that binds nothing: the text `a:x` is read back with an empty namespace context, and the read fails with the unbound prefix `a` | declare the namespace under the prefix when the writer does not already bind it to that prefix, so the value reads back | not executed | QNameCodec.AsWrittenLosesBinding | QNameCodec.RoundTrip |
