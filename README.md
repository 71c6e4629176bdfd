# MinestomPlugins plugin manager, modelled in Dafny

The model covers the core of the MinestomPlugins plugin manager. It has four parts.

- **Descriptor validation** (`DiscoveredPlugin`). `Verify` states the effect of `verifyIntegrity` on a descriptor's fields. The method `DiscoveredPlugin.VerifyIntegrity` rewrites those fields in place and is proved to match `Verify`. The name pattern `[A-Za-z][_A-Za-z0-9]+` is a small matcher, proved equal to a character-class predicate. `CreateClassLoader` captures the one-loader-per-descriptor guard.
- **Class loaders** (`PluginClassLoader`, `CombinedClassLoader`). Loaders are records kept in one table, indexed by position. The child graph is acyclic: some ranking puts every loader above its children, so the recursive `loadClass` and `getResourceAsStreamWithChildren` terminate. The table also holds:
  - the `LOADERS` list (a static field in the source; here a field of the one table a manager owns);
  - the global event handler's children;
  - the lazily created loggers and event nodes.

  The aggregate loader is a fixed sequence of loader indices. Its three lookups are first-match searches and a concatenation over that sequence.
- **Load-order resolver** (`generateLoadOrder`, `isLoaded`). A descriptor is named by its index in the batch, which stands for Java object identity. The dependency map holds lists of edges: an edge is either another batch descriptor or the origin of an already registered plugin. Peeling runs in passes. Within a pass, entries are emitted in an unspecified order, as they would be from a `HashMap`.
- **Manager** (`PluginManager`).
  - The lifecycle state machine.
  - The registry, an insertion-ordered map from lowercase name to entry. Each entry records its origin descriptor and its `dependents` set.
  - Registration, start-up loading and dynamic batch loading.
  - The one-level unload cascade and shutdown.

  Plugin callbacks are recorded in a ghost trace of `Event(hook, key)` values. Reflective instantiation is an outcome passed in (`Instantiated`). Discovery is an input sequence of `Found` records.

Modules:

| module | contents |
|---|---|
| `Wrappers` | `Option` and `Outcome` |
| `Names` | lowercasing and the name pattern |
| `Descriptor` | `DiscoveredPlugin` |
| `Loaders` | `PluginClassLoader` and the loader table |
| `Combined` | `CombinedClassLoader` |
| `Resolver` | the resolver |
| `Registry` | the registry value and the callback trace |
| `Lifecycle` | `State` and its guards |
| `Manager` | the `PluginManager` class |

## Model

| member | source | states |
|---|---|---|
| Names.LowerIdempotent | src/main/java/com/jazzkuh/minestomplugins/PluginManager.java:294 | Lowering a key again gives the same key. |
| Names.LowerKeepsNameChars | src/main/java/com/jazzkuh/minestomplugins/DiscoveredPlugin.java:27 | Lowercasing keeps every pattern character a pattern character. |
| Names.MatchesNameRegexIff | src/main/java/com/jazzkuh/minestomplugins/DiscoveredPlugin.java:27 | The matcher for `[A-Za-z][_A-Za-z0-9]+` accepts exactly the strings whose first character is an ASCII letter and that have at least one more character, each `_`, a letter or a digit. |
| Names.NameRegexNeedsTwoChars | src/main/java/com/jazzkuh/minestomplugins/DiscoveredPlugin.java:27 | An accepted name has at least two characters and starts with an ASCII letter. |
| Descriptor.Verify | src/main/java/com/jazzkuh/minestomplugins/DiscoveredPlugin.java:133-195 | A null name, or a name that fails the pattern, becomes `"INVALID_NAME"` with status `InvalidName`, and nothing else changes. Given a valid name, a null entrypoint becomes `"NO_ENTRYPOINT"` with status `NoEntrypoint`. When every check passes, only null fields are defaulted: `"Unspecified"`, empty arrays, empty external dependencies, empty meta. The status is never reset to success. |
| Descriptor.VerifyIdempotentOnPass | src/main/java/com/jazzkuh/minestomplugins/DiscoveredPlugin.java:168-193 | For a descriptor that passes every check, a second validation changes nothing. |
| Descriptor.SecondVerifyAfterNullName | src/main/java/com/jazzkuh/minestomplugins/DiscoveredPlugin.java:134-156 | The sentinel name passes the pattern. So validating a null-named descriptor a second time applies the defaults, and its status stays `InvalidName`. |
| Descriptor.SentinelNameMatches | src/main/java/com/jazzkuh/minestomplugins/DiscoveredPlugin.java:141-144 | `LoadStatus.INVALID_NAME.name()` is a valid name. |
| Descriptor.DiscoveredPlugin.constructor | src/main/java/com/jazzkuh/minestomplugins/DiscoveredPlugin.java:30-68 | A descriptor starts with its parsed fields, no files, status `LoadSuccess` and no class loader. |
| Descriptor.DiscoveredPlugin.VerifyIntegrity | src/main/java/com/jazzkuh/minestomplugins/DiscoveredPlugin.java:133-195 | The fields after the in-place rewrite are `Verify` of the fields before it. Files and class loader are untouched. |
| Descriptor.DiscoveredPlugin.CreateClassLoader | src/main/java/com/jazzkuh/minestomplugins/DiscoveredPlugin.java:117-121 | If a loader exists, the call fails and nothing changes. Otherwise a new loader `"Pl_" + name` is created over the current files with the host as parent. It is appended to the loader table and to `LOADERS`, and recorded as this descriptor's loader. |
| Loaders.OwnLookupsFrame | src/main/java/com/jazzkuh/minestomplugins/PluginClassLoader.java:77-91 | `findClass`, `findResource` and `findResources` read only the loader's own URLs: two loaders with the same own URLs answer all three alike, whatever their parents, children and handles. |
| Loaders.BaseLookupsFrame | src/main/java/com/jazzkuh/minestomplugins/PluginClassLoader.java:62-65 | The base lookups (`super.loadClass`, `super.getResourceAsStream`) read only the parent and the own URLs: two loaders that agree on both answer alike, whatever their children. |
| Loaders.LoadClass | src/main/java/com/jazzkuh/minestomplugins/PluginClassLoader.java:62-75 | Parent first: a class the parent defines is the parent's. Else a class the own URLs define is the loader's own, whatever the children define. |
| Loaders.ResourceWithChildren | src/main/java/com/jazzkuh/minestomplugins/PluginClassLoader.java:99-110 | A stream the loader's own `getResourceAsStream` finds, parent first, wins over every child. |
| Loaders.ChildrenLoadClass | src/main/java/com/jazzkuh/minestomplugins/PluginClassLoader.java:66-73 | Fails exactly when every child fails. Otherwise the result is the result of the first child that succeeds, in `addChild` order. |
| Loaders.ChildrenResource | src/main/java/com/jazzkuh/minestomplugins/PluginClassLoader.java:103-109 | Null exactly when every child's recursive stream is null. Otherwise the result is that of the first non-null child, in order. |
| Loaders.LoadClassReachable | src/main/java/com/jazzkuh/minestomplugins/PluginClassLoader.java:62-75 | A class `loadClass` returns comes from the base lookup of a loader reachable through child edges. When it fails, every reachable loader's base lookup fails: the exception is rethrown only then. |
| Loaders.ResourceReachable | src/main/java/com/jazzkuh/minestomplugins/PluginClassLoader.java:99-110 | The same two facts for `getResourceAsStreamWithChildren`. |
| Loaders.ResourceFromChildren | src/main/java/com/jazzkuh/minestomplugins/PluginClassLoader.java:99-110 | When the loader's own stream is null, the result is null exactly when every child's is. Otherwise it is the stream of the first child, in `addChild` order, whose stream is not null. |
| Loaders.LoadClassFromChildren | src/main/java/com/jazzkuh/minestomplugins/PluginClassLoader.java:62-75 | A class that neither the parent nor the own URLs define is not found exactly when no child finds it. Otherwise it is the class of the first child, in `addChild` order, that finds it. |
| Loaders.AddChildAcyclic | src/main/java/com/jazzkuh/minestomplugins/PluginClassLoader.java:58-60 | Adding an edge from the parent to a child that does not reach the parent leaves the child graph acyclic. |
| Loaders.LookupsIgnoreHandles | src/main/java/com/jazzkuh/minestomplugins/PluginClassLoader.java:62-110 | Two tables that agree on every loader's parent, own URLs and children resolve every class and resource alike, so names, loggers and event nodes never affect lookups. |
| Loaders.LoaderTable.constructor | src/main/java/com/jazzkuh/minestomplugins/PluginClassLoader.java:20-22 | There are no loaders yet, `LOADERS` is empty and the global handler has no children. |
| Loaders.LoaderTable.NewLoader | src/main/java/com/jazzkuh/minestomplugins/PluginClassLoader.java:33-41 | A new loader `"Pl_" + name` with the host as parent and no children is appended to the table, and its index is appended to `LOADERS`. Nothing else changes. |
| Loaders.LoaderTable.NewLoaderWithParent | src/main/java/com/jazzkuh/minestomplugins/PluginClassLoader.java:43-51 | The same, with the given parent. |
| Loaders.LoaderTable.AddChild | src/main/java/com/jazzkuh/minestomplugins/PluginClassLoader.java:58-60 | The child is appended to the parent's children, earlier children are kept, and nothing else changes. Any child that does not already reach the parent may be added, whatever the two indices. |
| Loaders.LoaderTable.ClearRegistry | src/main/java/com/jazzkuh/minestomplugins/PluginClassLoader.java:93-97 | `LOADERS` becomes empty, and the loaders themselves are unchanged. |
| Loaders.LoaderTable.GetLogger | src/main/java/com/jazzkuh/minestomplugins/PluginClassLoader.java:121-127 | The first call creates a fresh logger and stores it. Later calls return the stored one and change nothing. |
| Loaders.LoaderTable.GetEventNode | src/main/java/com/jazzkuh/minestomplugins/PluginClassLoader.java:112-119 | The first call creates a fresh node, stores it and adds it to the global handler's children. Later calls return the stored one and change nothing. |
| Loaders.LoaderTable.Terminate | src/main/java/com/jazzkuh/minestomplugins/PluginClassLoader.java:129-133 | The node is removed from the global handler's children only if it was created. No node is ever created, and nothing else changes. |
| Combined.CombinedFindClass | src/main/java/com/jazzkuh/minestomplugins/CombinedClassLoader.java:19-29 | Fails exactly when no member's own URLs define the class. Otherwise the result is the `findClass` of the first member that defines it. |
| Combined.CombinedFindResource | src/main/java/com/jazzkuh/minestomplugins/CombinedClassLoader.java:31-40 | Null exactly when every member's `findResource` is null. Otherwise the result is that of the first non-null member. |
| Combined.CombinedFindResources | src/main/java/com/jazzkuh/minestomplugins/CombinedClassLoader.java:42-49 | The first member's own URLs lead the enumeration, in that member's order. |
| Combined.FindResourcesLength | src/main/java/com/jazzkuh/minestomplugins/CombinedClassLoader.java:42-49 | The aggregate's enumeration is as long as the members' enumerations added up. |
| Combined.FindResourcesAppend | src/main/java/com/jazzkuh/minestomplugins/CombinedClassLoader.java:42-49 | Splitting the member list splits the enumeration into two concatenated parts, in member order. |
| Combined.FindResourcesContents | src/main/java/com/jazzkuh/minestomplugins/CombinedClassLoader.java:42-49 | A URL is enumerated exactly when some member's `findResources` reports it. |
| Combined.AggregateIgnoresChildren | src/main/java/com/jazzkuh/minestomplugins/CombinedClassLoader.java:19-49 | Two tables whose loaders have the same own URLs give the same three lookups. Children and parents are never consulted. |
| Combined.SiblingCollision | src/main/java/com/jazzkuh/minestomplugins/CombinedClassLoader.java:19-29 | Two members both define a class the host lacks. Each loader's `loadClass` yields its own copy, and the aggregate yields the earlier member's copy. |
| Lifecycle.Apply | src/main/java/com/jazzkuh/minestomplugins/PluginManager.java:82-152 | A throw leaves the state as it was. `setLoadOnStartup` passes exactly when the ordinal is at most `NOT_STARTED`, and it assigns `NOT_STARTED` or `DO_NOT_START`. Every phase passes without effect in `DO_NOT_START`. Otherwise a phase passes exactly in its required state, and then assigns its next state. |
| Lifecycle.StartupSequence | src/main/java/com/jazzkuh/minestomplugins/PluginManager.java:119-152 | From `NOT_STARTED`, start and the three phases all pass, in order, and end in `POST_INIT`. |
| Lifecycle.PhaseNeverGoesBack | src/main/java/com/jazzkuh/minestomplugins/PluginManager.java:131-152 | No phase operation lowers the state's ordinal. |
| Lifecycle.PhaseNotTwice | src/main/java/com/jazzkuh/minestomplugins/PluginManager.java:131-152 | Repeating a phase that just passed throws. |
| Lifecycle.DoNotStartIsInert | src/main/java/com/jazzkuh/minestomplugins/PluginManager.java:120-152 | From `DO_NOT_START`, every run of phase operations passes at every step and stays in `DO_NOT_START`. |
| Lifecycle.PastNotStartedStays | src/main/java/com/jazzkuh/minestomplugins/PluginManager.java:83 | Once past `NOT_STARTED`, the state never comes back, and every later `setLoadOnStartup` throws. |
| Resolver.LastIndexNamed | src/main/java/com/jazzkuh/minestomplugins/PluginManager.java:455-460 | `pluginMap.get(key)` is the last batch descriptor whose lowercase name is `key`, or null exactly when none has that name. |
| Resolver.ResolveName | src/main/java/com/jazzkuh/minestomplugins/PluginManager.java:471-491 | A dependency name resolves nowhere exactly when no batch descriptor and no registered plugin has its lowercase form. |
| Resolver.ResolveAll | src/main/java/com/jazzkuh/minestomplugins/PluginManager.java:466-495 | The list is missing exactly when some name resolves nowhere. Otherwise it has one edge per name, in order, each that name's resolution. |
| Resolver.IsLoaded | src/main/java/com/jazzkuh/minestomplugins/PluginManager.java:555-560 | The empty-list shortcut agrees with "every edge's lowercase name is registered". |
| Resolver.SatisfiedByName | src/main/java/com/jazzkuh/minestomplugins/PluginManager.java:555-560 | An in-batch edge counts as loaded exactly when a plugin is registered under its target's lowercase name, as an edge to that registered plugin would. |
| Resolver.RemoveFirst | src/main/java/com/jazzkuh/minestomplugins/PluginManager.java:527 | `List.remove` takes one occurrence from the multiset of edges and adds nothing. A list without the element is unchanged. |
| Resolver.Strip | src/main/java/com/jazzkuh/minestomplugins/PluginManager.java:523-528 | The emitted entry leaves the map, and every other list loses one occurrence of it. |
| Resolver.BuildPluginMap | src/main/java/com/jazzkuh/minestomplugins/PluginManager.java:455-460 | The built map answers every key as `LastIndexNamed` does. |
| Resolver.ResolveDependencies | src/main/java/com/jazzkuh/minestomplugins/PluginManager.java:466-495 | The loop over one descriptor's names returns `ResolveAll`: the descriptor is abandoned at the first name that resolves nowhere. |
| Resolver.BuildDependencyMap | src/main/java/com/jazzkuh/minestomplugins/PluginManager.java:464-502 | Each descriptor is either in the map, with its resolved list, or missing, exactly as its names resolve. |
| Resolver.EmitPass | src/main/java/com/jazzkuh/minestomplugins/PluginManager.java:519-529 | One pass removes exactly the entries found loadable and keeps the peeling invariant. The invariant covers partition, no duplicates, dependency order and once-stripped lists. |
| Resolver.GenerateLoadOrder | src/main/java/com/jazzkuh/minestomplugins/PluginManager.java:449-547 | A descriptor is missing exactly when one of its names resolves nowhere. The output has no duplicates, and output plus leftovers are exactly the entries of the map. Every unregistered in-batch dependency of an emitted descriptor is emitted before it. No emitted descriptor has an unregistered edge to a missing one. Each leftover cannot be loaded, and its list is its original list minus one occurrence per emitted descriptor, so a duplicated dependency never empties. |
| Resolver.LeftoverBlocked | src/main/java/com/jazzkuh/minestomplugins/PluginManager.java:506-546 | A leftover of the peeling has an in-batch dependency whose name is not registered and that is missing, is itself left over, or was emitted while listed twice, since `List.remove` strips one occurrence only. |
| Registry.NoPlugins | src/main/java/com/jazzkuh/minestomplugins/PluginManager.java:48 | The empty registry is well formed. |
| Registry.AddDependent | src/main/java/com/jazzkuh/minestomplugins/PluginManager.java:344-351 | Same keys and origins. A registered plugin gains the new name as a dependent exactly when some declared dependency lowers to its key. |
| Registry.Register | src/main/java/com/jazzkuh/minestomplugins/PluginManager.java:294-354 | A name already a key (case-insensitively), or a failed instantiation, leaves the registry unchanged. Otherwise the lowercase key is new and appended last, with the descriptor as origin and no dependents. Every earlier plugin keeps its origin. |
| Registry.RegisterAppends | src/main/java/com/jazzkuh/minestomplugins/PluginManager.java:344-354 | On success the lowercase key is appended last, and the new entry has no dependents. Each existing entry keeps its origin and gains the name exactly when the entry is declared. |
| Registry.RegisterWellFormed | src/main/java/com/jazzkuh/minestomplugins/PluginManager.java:287-357 | Registration keeps the registry well formed: keys are distinct, the key order matches the entries, each key names its origin, and no plugin is its own dependent. |
| Registry.RegisterAll | src/main/java/com/jazzkuh/minestomplugins/PluginManager.java:249-257 | Loading a sequence only appends keys, at most one per descriptor. Every plugin registered before stays, with its origin. Every newly registered plugin's origin is one of the descriptors. |
| Registry.RegisterAllWellFormed | src/main/java/com/jazzkuh/minestomplugins/PluginManager.java:249-257 | Loading a sequence keeps the registry well formed, only appends to the key order, and removes nothing. |
| Registry.Without | src/main/java/com/jazzkuh/minestomplugins/PluginManager.java:643 | Removal keeps exactly the keys not removed. |
| Registry.WithoutSingle | src/main/java/com/jazzkuh/minestomplugins/PluginManager.java:643 | A single key stays when it is not removed, and goes when it is. |
| Registry.WithoutAppend | src/main/java/com/jazzkuh/minestomplugins/PluginManager.java:643 | Removal distributes over concatenation, so it filters the key order in place. |
| Registry.WithoutKeepsOrder | src/main/java/com/jazzkuh/minestomplugins/PluginManager.java:643 | Two kept keys keep their relative order. The result is the survivors before the first, the first, the survivors between, the second, and the survivors after. |
| Registry.WithoutWithout | src/main/java/com/jazzkuh/minestomplugins/PluginManager.java:643 | Removing in two rounds is removing once. |
| Registry.WithoutDistinct | src/main/java/com/jazzkuh/minestomplugins/PluginManager.java:643 | Removal keeps the order free of duplicates. |
| Registry.Drop | src/main/java/com/jazzkuh/minestomplugins/PluginManager.java:643 | `plugins.remove`: the removed keys leave both the entries and the order. The remaining entries are kept as they were. |
| Registry.DropKeepsOrder | src/main/java/com/jazzkuh/minestomplugins/PluginManager.java:643 | `LinkedHashMap.remove` keeps the insertion order of the plugins that stay: two of them keep their relative order. |
| Registry.DropWellFormed | src/main/java/com/jazzkuh/minestomplugins/PluginManager.java:643 | Removal keeps the registry well formed. |
| Registry.DropDrop | src/main/java/com/jazzkuh/minestomplugins/PluginManager.java:643 | Removing in two rounds is removing once. |
| Registry.FiredOnePerKey | src/main/java/com/jazzkuh/minestomplugins/PluginManager.java:134 | `forEach(callback)` fires exactly one callback per plugin, in the given order. |
| Registry.TeardownsShape | src/main/java/com/jazzkuh/minestomplugins/PluginManager.java:633-643 | Each torn-down plugin contributes four events, beginning with `onPreDisable`, in order. |
| Manager.RecordDependent | src/main/java/com/jazzkuh/minestomplugins/PluginManager.java:344-351 | The dependents loop computes `AddDependent`. |
| Manager.PluginManager.constructor | src/main/java/com/jazzkuh/minestomplugins/PluginManager.java:48-62 | The state is `NOT_STARTED`, the registry is empty, there is no context loader, the trace is empty and the loader table is empty. |
| Manager.PluginManager.ShouldLoadOnStartup | src/main/java/com/jazzkuh/minestomplugins/PluginManager.java:71-73 | True exactly when `start` would not return at once without effect. |
| Manager.PluginManager.SetLoadOnStartup | src/main/java/com/jazzkuh/minestomplugins/PluginManager.java:82-85 | Outcome and state are as `Apply` gives them. Registry, loader and trace are unchanged. |
| Manager.PluginManager.GetPluginFindsOrigin | src/main/java/com/jazzkuh/minestomplugins/PluginManager.java:106-108 | `getPlugin` finds every registered plugin under its own name spelt in any case. |
| Manager.PluginManager.HasPluginIff | src/main/java/com/jazzkuh/minestomplugins/PluginManager.java:110-112 | `hasPlugin` is true exactly when the name is already lowercase and `getPlugin` finds it. |
| Manager.PluginManager.Fire | src/main/java/com/jazzkuh/minestomplugins/PluginManager.java:134 | Appends one callback per given key, in order, and nothing else changes. |
| Manager.PluginManager.GotoPreInit | src/main/java/com/jazzkuh/minestomplugins/PluginManager.java:131-136 | State and outcome are as `Apply` gives them. Only from `STARTED` is `onLoad` fired, once per plugin in insertion order. |
| Manager.PluginManager.GotoInit | src/main/java/com/jazzkuh/minestomplugins/PluginManager.java:139-144 | The same, for `onEnable` from `PRE_INIT`. |
| Manager.PluginManager.GotoPostInit | src/main/java/com/jazzkuh/minestomplugins/PluginManager.java:147-152 | The same, for `onPostEnable` from `INIT`. |
| Manager.PluginManager.LoadPlugin | src/main/java/com/jazzkuh/minestomplugins/PluginManager.java:287-357 | The registry afterwards is `Register` of the registry before. A plugin is returned exactly when its lowercase name was not a key and instantiation succeeded. |
| Manager.PluginManager.LoadInOrder | src/main/java/com/jazzkuh/minestomplugins/PluginManager.java:249-257 | The registry is `RegisterAll` over the descriptors in order, and the new keys are appended to the old ones. |
| Manager.PluginManager.CreateLoaders | src/main/java/com/jazzkuh/minestomplugins/PluginManager.java:229-241 | Each discovered plugin gets a new loader over its files, in order, appended to the table and to `LOADERS`. |
| Manager.PluginManager.SetContextLoader | src/main/java/com/jazzkuh/minestomplugins/PluginManager.java:260-266 | The context loader aggregates the loaders of the registered plugins, in insertion order. |
| Manager.PluginManager.LoadPlugins | src/main/java/com/jazzkuh/minestomplugins/PluginManager.java:200-267 | An empty discovery changes nothing. Otherwise there is one new loader `"Pl_" + name` per discovered plugin, in order, over its files, parented to the host, appended to the table and to `LOADERS`, and earlier loaders are kept. The order has no duplicates, only descriptors whose names all resolve, and dependencies first. Every descriptor whose names all resolve is emitted or reported as cyclic, never both, and a cyclic one is not loadable: its list is its original one with the emitted entries removed once. The registry is `RegisterAll` along that order. The context loader aggregates the registered plugins' loaders in registry order. |
| Manager.PluginManager.Start | src/main/java/com/jazzkuh/minestomplugins/PluginManager.java:119-128 | Outcome and state are as `Apply` gives them. Anywhere but `NOT_STARTED`, and from `NOT_STARTED` with an empty discovery, registry, context loader and loaders are unchanged. Otherwise it gives every guarantee of `LoadPlugins`: the new loaders, the load order and its completeness, the registry and the context loader. The host, the global handler's children and the next handle never change. |
| Manager.PluginManager.LoadPluginList | src/main/java/com/jazzkuh/minestomplugins/PluginManager.java:562-594 | The batch is loaded along an order that has no duplicates, only descriptors whose names all resolve, and dependencies first. Every descriptor whose names all resolve is emitted or reported as cyclic, never both, and a cyclic one is not loadable. The new keys are appended. It returns true exactly when something was added. Then, and only then, it fires `onLoad`, `onEnable` and `onPostEnable`, each round over exactly the new plugins, in order. |
| Manager.SinglePluginEmitted | src/main/java/com/jazzkuh/minestomplugins/PluginManager.java:506-547 | In any load order for a batch of one plugin without dependencies, that plugin is emitted and not reported as cyclic. |
| Manager.PluginManager.Unload | src/main/java/com/jazzkuh/minestomplugins/PluginManager.java:633-647 | Fires `onPreDisable`, `onDisable`, terminate and `onPostDisable` for the plugin. The node of its loader is detached if one exists, and nothing else leaves the global handler. The key is removed. The loaders, `LOADERS`, the host and the next handle are unchanged. |
| Manager.PluginManager.UnloadDependents | src/main/java/com/jazzkuh/minestomplugins/PluginManager.java:619-627 | Each dependent still registered is torn down once, with no further cascade. Its key is removed, its teardown is appended to the trace, and its loader's event node leaves the global handler. The plugin itself stays registered. |
| Manager.PluginManager.UnloadPlugin | src/main/java/com/jazzkuh/minestomplugins/PluginManager.java:612-631 | Fails exactly when the name is not loaded, and then changes nothing, the loader table included. Otherwise each dependent still registered is torn down once, with no further cascade, then the plugin itself. Exactly those keys are removed, and the trace holds their teardowns in that order. The global handler loses exactly the event nodes of their loaders. The loaders, the host and the next handle are unchanged. |
| Manager.PluginManager.Shutdown | src/main/java/com/jazzkuh/minestomplugins/PluginManager.java:603-610 | The registry ends empty. Every plugin registered before is torn down exactly once, and the trace holds those teardowns. The global handler loses exactly the event nodes of those plugins' loaders. The loaders, the host and the next handle are unchanged. |

## Left out

- Discovery is not modelled: scanning the plugin folder, reading jars and `plugin.json`, Gson, system properties and folder creation. It is file I/O. `loadPlugins` receives the discovered plugins as an input sequence (`Found`), so the early returns when a folder cannot be created are absent too.
- Reflection (`Class.forName`, `asSubclass`, `getDeclaredConstructor`, `newInstance`) is replaced by the `Instantiated` outcome, with one failure kind per `catch` that returns null. The swallowed `IllegalAccessException` leaves `plugin` null and is treated as unreachable, because the constructor was made accessible.
- The `catch` around `createClassLoader` in `loadPlugins` is left out: a fresh descriptor has no loader, so the guard cannot fail there. The same goes for the `catch` around `loadPlugin`, since the only exceptions are foreign ones. The model's `loadPlugin` cannot throw.
- `removeIf(loadStatus != LOAD_SUCCESS)` after ordering is not modelled as a separate step. Discovery keeps only descriptors with status `LOAD_SUCCESS`, and the resolver never emits a missing descriptor, so nothing is left for it to remove.
- Plugin callbacks are empty hooks. They appear only as trace events and are assumed not to throw, so an exception in a teardown is not modelled. Resource reading and copying in `Plugin.java` is file I/O.
- `synchronized (LOADERS)` and all concurrency are out of scope. Only the sequential append and clear semantics remain.
- URLs are opaque values, and a loader's classes and resources are abstract maps (`Archive`). Parent-first delegation is only "parent table, then own table". `addURL` is not modelled, because the core never calls it.
- `Thread.setContextClassLoader` is modelled as the manager's `contextLoader` field. The aggregate's own parent (the previous context loader) is not consulted, because only its `find*` overrides are modelled.
- Loggers, event nodes and the global event handler are opaque handles. Log messages and `serverProcess.exception()` are left out.
- Names.Lower: `String.toLowerCase` is modelled on ASCII letters only, with no locale-dependent or non-ASCII case mapping.
- Loaders.LoaderTable.AddChild requires that the child does not already reach the parent, so that the child graph stays acyclic. The source has no such guard, and its `loadClass` would not terminate on a cycle. The manager never calls `addChild`.
- Resolver.GenerateLoadOrder does not set `MISSING_DEPENDENCIES` on descriptor objects. It returns the missing descriptors as a set of batch indices, and the cycle report is returned as the leftover map rather than logged.
- `HashMap` and `HashSet` iteration order is unspecified: within a pass of `generateLoadOrder`, over a dependents snapshot and over the shutdown snapshot. The model proves its properties for every order.
- `loadDynamicPlugin` is file I/O plus `loadPluginList`, so only `loadPluginList` is modelled. Its loader setup is commented out in the source, so the batch it receives is assumed to already have loaders. Status filtering is absent there, as in the source.
- Getters and setters that only return or store a field are not modelled: folders, data root, `getPlugins`, jar and data directory.
- Two behaviours of the code are kept as written.
  - `isLoaded` tests the registry by the target's lowercase name, even for an in-batch edge. The dependency-order guarantee of `GenerateLoadOrder` is therefore stated for in-batch dependencies whose name is not registered. At `start` with no plugin loaded earlier, for example by `loadDynamicPlugin`, that is every dependency.
  - A dependency name that is present in both the batch and the registry resolves to the batch descriptor, because the batch is consulted first.
- A plugin that lists the same in-batch dependency twice keeps one edge to it after that dependency is emitted. It is then reported with the cyclic plugins and never loaded, unless the dependency's name was already registered (`Resolver.LeftoverBlocked`). The model keeps this behaviour.
- The loader table, including `LOADERS` and the global event handler's children, is a field of each manager here. In the source it is process-wide (`LOADERS` is a static list), so two managers in one process would share it. Aliasing between managers is not modelled.
- Manager.PluginManager.CreateLoaders calls `NewLoader` directly instead of going through `DiscoveredPlugin.createClassLoader`, because a fresh descriptor has no loader and the guard always passes.
