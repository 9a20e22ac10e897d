# Unite UI client runtime and path-fixing scripts, modelled in Dafny

This project models the small runtime of a Nuxt component-library site, plus
the maintenance scripts that fix the letter case of its import paths.

- **Component cache.** A client-side cache of component results. It has a
  persistent tier, which is browser storage under the key prefix
  `unite-ui-component-cache:`. Entries carry a schema version and a
  timestamp, and expire after seven days. It also has a session tier, which
  is an in-memory map of what this page load wrote. At start-up a sweep
  removes stale and unreadable entries from the namespace. A composable
  wraps the cache and answers nothing on the server.
- **Content hot reload (development only).** A 32-bit string hash of the
  page content. A watcher reloads the page when the hash of freshly queried
  content differs from the one it remembered. Route changes make the next
  check count as a first load.
- **Socket reconnection (development only).** The URL of the content socket,
  and the reaction to `content:update` messages. An error on an open socket
  and a close each count one reconnection attempt and replace the single
  retry timer. When that timer fires it probes the content endpoint with a
  cache-busting query. The handlers also reload the page at five attempts,
  and the timer reloads from three, but the plugin opens one socket per
  page load. That socket errors and closes at most once each, so at most
  two attempts happen and those reloads are never reached
  (`SingleSocket`).
- **Case-sensitivity scripts.** Three Node scripts walk the component
  directories and collect `.vue` and `.ts` files. Each file gets five
  literal global replacements (`EXamples`, `/UI/`, `/Matter/`, `/M-Cards/`,
  `liquidcard.vue`), applied in order, each guarded by a test on the
  current text. A file is written when some guard held, and the script
  counts the files fixed. The three scripts differ in:
  - which directories they search;
  - whether file errors are caught;
  - when they stage the result with git.

Browser storage is a `map` from keys to what they hold. The clock is a
parameter (`now`). Reloading the page and fetching a URL are returned as
actions. The file system is a tree of files and directories; whether reading
or writing a file fails is data on the file. The cache, the content watcher
and the socket state are classes whose methods update their fields. The
methods of the cache and the loops of the hash and of the scripts are proved
against specification functions (`GetSpec`, `SetSpec`, `SweepSpec`, `HashOf`,
`Rewrite`/`Matched`, `CollectAll`, `NumFixed`/`Writes`). The properties are
proved about those functions. `HashOf` is itself proved equal to an
independent reference, `ToInt32(Base31(s))`.

A read of an unparseable or `null` entry returns `null` and leaves the entry
in storage (`ComponentCache.GetKeepsUnparseable`); only the start-up sweep
removes it.

## Model

| member | source | states |
|---|---|---|
| ComponentCache.Stale | plugins/component-cache.client.ts:29 | another version is always stale; a current-version entry is stale exactly when more than `CACHE_EXPIRY` milliseconds old |
| ComponentCache.Swept | plugins/component-cache.client.ts:78-84 | the sweep keeps a value exactly when it is a current-version entry within its TTL; unparseable and empty values go |
| ComponentCache.GetSpec | plugins/component-cache.client.ts:19-39 | a read removes at most its own storage key, and returns a non-`null` value only as the stored entry's data, leaving storage as it was |
| ComponentCache.SetSpec | plugins/component-cache.client.ts:42-51 | a write adds exactly its own storage key, holding a current-version entry stamped with the write time |
| ComponentCache.SweepSpec | plugins/component-cache.client.ts:73-90 | the sweep only removes keys, keeps the values of those it keeps, and keeps none that it would remove |
| ComponentCache.Cache.constructor | plugins/component-cache.client.ts:92-93 | start-up on the client: the session map is empty and storage is what the sweep leaves of the initial storage |
| ComponentCache.Cache.Get | plugins/component-cache.client.ts:19-39 | the value returned and the new storage are those of `GetSpec`: a miss, an empty or unparseable value gives `null` with storage unchanged; a stale entry gives `null` and is removed; a valid one returns its data |
| ComponentCache.Cache.Set | plugins/component-cache.client.ts:42-58 | a successful write stores a current-version entry stamped `now` and records the key in the session map; a write that throws changes neither |
| ComponentCache.Cache.IsLoaded | plugins/component-cache.client.ts:61-63 | true exactly when the session map holds the key |
| ComponentCache.Cache.Cleanup | plugins/component-cache.client.ts:73-90 | after visiting every key once, storage is `SweepSpec` of the old storage |
| ComponentCache.CacheKeyInjective | plugins/component-cache.client.ts:21 | every storage key is inside the namespace, and distinct keys get distinct storage keys |
| ComponentCache.GetTouchesOnlyItsKey | plugins/component-cache.client.ts:19-39 | `get` adds no key and leaves every other storage key as it was |
| ComponentCache.SetTouchesOnlyItsKey | plugins/component-cache.client.ts:42-58 | `set` adds only its own key and leaves every other storage key as it was |
| ComponentCache.GetMissing | plugins/component-cache.client.ts:22-24 | a key with nothing stored reads as `null` and changes nothing |
| ComponentCache.GetKeepsUnparseable | plugins/component-cache.client.ts:24-38 | an empty or unparseable value reads as `null` and stays in storage |
| ComponentCache.GetEntry | plugins/component-cache.client.ts:28-34 | an entry is returned exactly when its version is current and its age is at most the TTL; otherwise `null`, and the entry is removed |
| ComponentCache.ExpiryBoundary | plugins/component-cache.client.ts:29 | the expiry test is strict: at an age of exactly seven days the entry is served, one millisecond later it is evicted |
| ComponentCache.VersionInvalidates | plugins/component-cache.client.ts:29 | an entry of another version is unreadable even within its TTL, and is removed |
| ComponentCache.SetThenGet | plugins/component-cache.client.ts:45-51 | round trip: what `set` wrote is what `get` reads back within the TTL, and that read changes nothing |
| ComponentCache.SetOverwrites | plugins/component-cache.client.ts:51 | a second write under the same key replaces the first |
| ComponentCache.GetIdempotent | plugins/component-cache.client.ts:29-31 | a second `get` at the same instant returns the same and changes nothing more |
| ComponentCache.SweepKeepsForeignKeys | plugins/component-cache.client.ts:76 | the sweep keeps every key outside the namespace, with its value |
| ComponentCache.SweepKeepsExactlyValid | plugins/component-cache.client.ts:76-84 | inside the namespace the sweep keeps exactly the current-version entries within their TTL, unchanged |
| ComponentCache.GetAfterSweepEvictsNothing | plugins/component-cache.client.ts:79 | right after the sweep, a `get` at the same instant evicts nothing |
| ComponentCache.SweepIdempotent | plugins/component-cache.client.ts:73-90 | sweeping twice at one instant is sweeping once |
| ComponentCache.SessionOutlivesExpiry | plugins/component-cache.client.ts:53-63 | after `set`, `isLoaded` holds, and it still holds after a later `get` and a sweep |
| UseComponentCache.Install | plugins/component-cache.client.ts:7-16 | no cache object on the server; on the client a fresh one, swept, with an empty session map |
| UseComponentCache.GetFromCache | composables/useComponentCache.ts:14-19 | `null` on the server or without a cache object, with nothing changed on the server; on the client the truthy part of the cache's `get` result, with the storage `get` leaves and the session map unchanged |
| UseComponentCache.SaveToCache | composables/useComponentCache.ts:26-31 | nothing changes on the server or when the write fails; otherwise storage and session map are as `set` leaves them |
| UseComponentCache.IsComponentLoaded | composables/useComponentCache.ts:38-43 | false on the server or without a cache object; otherwise true exactly when the session map holds the key |
| UseComponentCache.SaveThenRead | composables/useComponentCache.ts:14-31 | on the client, a value saved and read back within the TTL returns when it is truthy; a falsy value (`false`, `0`, `""`, `null`) comes back as `null` because of `\|\| null` |
| UseComponentCache.CardExample | composables/useComponentCache.ts:14-43 | with no earlier cache entries: a saved card is read back and reported loaded, and a key never saved reads as `null` |
| Numerals.DigitsWellFormed | plugins/content-hot-reload.client.ts:30 | the digits of `n.toString(base)` are non-empty, have no leading zero and are digits of the base |
| Numerals.DigitsRoundTrip | plugins/content-hot-reload.client.ts:30 | reading the digits back in the base gives the number |
| Numerals.DigitsInjective | plugins/content-hot-reload.client.ts:30 | different numbers have different digit strings |
| Numerals.ToStringBaseSign | plugins/content-hot-reload.client.ts:30 | the rendering is non-empty and starts with `-` exactly for negative numbers |
| Numerals.ToStringBaseInjective | plugins/content-hot-reload.client.ts:30 | the rendering of integers of either sign is injective |
| ContentHotReload.ToInt32 | plugins/content-hot-reload.client.ts:28 | `hash & hash`: a signed 32-bit value congruent to its input modulo 2^32, the identity on 32-bit values |
| ContentHotReload.HashStep | plugins/content-hot-reload.client.ts:27-28 | one loop turn with the wrapping shift is a 32-bit value, and equals `ToInt32(31 * h + c)` |
| ContentHotReload.HashIsBase31 | plugins/content-hot-reload.client.ts:24-29 | the loop's value is the base-31 value of the code units, wrapped to 32 bits once at the end |
| ContentHotReload.HashContent | plugins/content-hot-reload.client.ts:18-36 | falsy content hashes to `""`; otherwise the loop computes `HashOf`, rendered in base 16, which is the rendering of the wrapped base-31 value and never empty |
| ContentHotReload.IsContentPath | plugins/content-hot-reload.client.ts:45 | a polled path is non-empty and not `/`; a path under `/api/` is never polled, and every other skipped path is empty or `/` |
| ContentHotReload.ContentWatcher.constructor | plugins/content-hot-reload.client.ts:14-15 | no hash remembered, and the first check counts as a first load |
| ContentHotReload.ContentWatcher.OnContent | plugins/content-hot-reload.client.ts:52-72 | the new hash is always remembered and the first load is over; a first load never reloads; otherwise a reload happens exactly when both hashes are non-empty and differ |
| ContentHotReload.ContentWatcher.CheckContentUpdates | plugins/content-hot-reload.client.ts:39-81 | no query for an empty path, `/` or `/api/` paths; a skipped path or a rejected query changes nothing and does not reload; otherwise the remembered hash is that of the content, and the reload is decided as in `OnContent` |
| ContentHotReload.ContentWatcher.AfterEach | plugins/content-hot-reload.client.ts:88-93 | after a route change the next check counts as a first load |
| ContentHotReload.RenderedHashEquality | plugins/content-hot-reload.client.ts:64 | comparing rendered hashes compares the wrapped hash values: equal exactly when the values are equal |
| ContentHotReload.PollTwice | plugins/content-hot-reload.client.ts:39-72 | two answered polls of a content page: the second reloads exactly when the wrapped hashes of the two contents differ, so the same content polled twice never reloads |
| WebSocketReconnect.SocketUrl | plugins/websocket-reconnect.client.ts:60-61 | the URL starts with `wss://` for `https:` pages and `ws://` otherwise, and ends with the hostname and `:4000` |
| WebSocketReconnect.SocketUrlInjective | plugins/websocket-reconnect.client.ts:60-61 | the socket scheme is `wss:` exactly for `https:` pages, and the URL determines the hostname |
| WebSocketReconnect.CacheProbeUrl | plugins/websocket-reconnect.client.ts:50 | the probe URL is the fixed path and query name followed by the time in decimal, which reads back as the time |
| WebSocketReconnect.OnMessage | plugins/websocket-reconnect.client.ts:88-100 | computed by reading `.type` as JavaScript does (`TypeField`): a reload exactly for a parsed object whose `type` field is the string `content:update`; a parse error, `null` (reading throws) and any non-object value never reload |
| WebSocketReconnect.UpdateMessageReloads | plugins/websocket-reconnect.client.ts:90 | only the `type` field matters: other fields do not, and a missing `type` or one of another value never reloads |
| WebSocketReconnect.Reconnector.constructor | plugins/websocket-reconnect.client.ts:9-15 | no attempts, not connected, no timer |
| WebSocketReconnect.Reconnector.Reconnect | plugins/websocket-reconnect.client.ts:18-55 | the held timer is cleared; at five attempts a reload, with the counter kept and no timer pending; otherwise one more attempt and a single new pending timer |
| WebSocketReconnect.Reconnector.OnOpen | plugins/websocket-reconnect.client.ts:65-70 | connected, and the attempt counter is back to zero |
| WebSocketReconnect.Reconnector.OnClose | plugins/websocket-reconnect.client.ts:72-77 | always disconnected, and always a reconnect, with the outcomes of `Reconnect` |
| WebSocketReconnect.Reconnector.OnError | plugins/websocket-reconnect.client.ts:79-86 | an error while disconnected changes nothing; while connected it disconnects and reconnects, with the outcomes of `Reconnect`: one more attempt and a single new timer, or at the limit a reload with the counter kept and no timer pending |
| WebSocketReconnect.Reconnector.OnTimer | plugins/websocket-reconnect.client.ts:42-54 | the fired timer is no longer pending; from three attempts on it reloads; before that it fetches the cache-busting probe URL for the current time |
| WebSocketReconnect.Reconnector.Unload | plugins/websocket-reconnect.client.ts:114-121 | no timer is left pending |
| WebSocketReconnect.SingleSocket | plugins/websocket-reconnect.client.ts:9-111 | for the one socket of a page load (open, then error, then close, each at most once): no handler reloads, and the counter ends at most 2, below the retry timer's reload threshold |
| WebSocketReconnect.OpenErrorClose | plugins/websocket-reconnect.client.ts:18-86 | a socket that opens, errors and closes: two attempts, and both retry timers probe the content endpoint |
| CaseRewrite.ReplaceAll | scripts/fix-case-sensitivity.js:63 | replacing a pattern by itself changes nothing, a same-length replacement keeps the length, and text shorter than the pattern is unchanged |
| CaseRewrite.ReplaceAllAbsent | scripts/fix-case-sensitivity.js:60-63 | a global replace of an absent pattern returns the text unchanged |
| CaseRewrite.ReplaceAllLength | scripts/fix-case-sensitivity.js:63 | a longer replacement never shortens the text, a shorter one never lengthens it |
| CaseRewrite.ReplaceAllChanges | scripts/fix-case-sensitivity.js:60-65 | a pattern that occurs, replaced by a different string, changes the text |
| CaseRewrite.NextStep | scripts/fix-case-sensitivity.js:59-66 | each step is applied to, and guarded on, the text the earlier steps produced |
| CaseRewrite.GuardKeepsText | scripts/fix-case-sensitivity.js:60-63 | the guard only affects the flag: an unguarded replace gives the same text |
| CaseRewrite.MatchedIffSomeGuard | scripts/fix-case-sensitivity.js:59-66 | `modified` is set exactly when some step's pattern occurs in the text as the earlier steps left it |
| CaseRewrite.UnmatchedUnchanged | scripts/fix-case-sensitivity.js:59-68 | when no guard held, the text is as it was read |
| CaseRewrite.NoPatternNoChange | scripts/fix-case-sensitivity.js:59-68 | text holding none of the patterns is left unchanged and unflagged |
| CaseRewrite.FirstMatchChanges | scripts/fix-case-sensitivity.js:60-65 | with replacements that differ from their patterns, a step whose guard holds changes the text it is given |
| CaseRewrite.FixContentUnflagged | scripts/fix-case-sensitivity.js:13-19 | for the five replacements: an unflagged file keeps its text, and text with none of the five substrings is returned unchanged and unflagged |
| FileTree.CollectAllWanted | scripts/fix-case-sensitivity.js:38-39 | every collected path ends in `/` and a `.vue` or `.ts` name |
| FileTree.Walk | scripts/fix-case-sensitivity.js:30-43 | the list gains the wanted files of the directory, depth first and in directory order |
| FileTree.Visit | scripts/fix-case-sensitivity.js:32-41 | one entry: a sub-directory adds its wanted files, a `.vue` or `.ts` file adds its joined path, anything else adds nothing |
| FileTree.FindFiles | scripts/fix-case-sensitivity.js:27-44 | a missing directory leaves the list as it was; an existing one appends its wanted files |
| FileTree.FindAll | scripts/fix-case-sensitivity.js:89-93 | the files of all search directories, directory by directory |
| FixRun.NumFixedCounts | scripts/fix-case-sensitivity.js:98-103 | the count is at most the number of files, is zero exactly when no file is fixed, and equals the number of files written |
| FixRun.WritesAreFixes | scripts/fix-case-sensitivity.js:68-73 | every write is of a fixed file, with its rewritten text |
| ScriptsFixCaseSensitivity.FixImports | scripts/fix-case-sensitivity.js:51-80 | true exactly when the file can be read, some guard held and the write went through; then the rewritten text is written, otherwise nothing |
| ScriptsFixCaseSensitivity.Run | scripts/fix-case-sensitivity.js:85-110 | the count and the writes are those of all files found in the three directories |
| FixImportsScript.FixImports | fix-imports.js:30-69 | the written-out first step followed by the loop over the other four computes the same text and flag as the five steps; errors are caught and count as not fixed |
| FixImportsScript.Run | fix-imports.js:72-102 | the count and writes are those of all files found; the changes are staged exactly when the count is positive |
| FixImportsScript.StagesIffSomeFix | fix-imports.js:92-99 | the count is positive exactly when some file found is fixed, and then something was written |
| FixCaseSensitivity.Fix | fix-case-sensitivity.js:31-35 | one written-out step (the same shape at lines 38-63) is the guarded step of its replacement, and sets `modified` exactly when its guard held |
| FixCaseSensitivity.FixImportsInFile | fix-case-sensitivity.js:25-72 | throws exactly when the file cannot be read, or needs a fix and cannot be written; otherwise flags and writes exactly the files that need a fix |
| FixCaseSensitivity.FirstThrow | fix-case-sensitivity.js:84-88 | the index of the first file whose processing throws: all files before it pass |
| FixCaseSensitivity.ProcessAll | fix-case-sensitivity.js:83-88 | the run completes exactly when no file throws; the writes are those of the files before the first that throws; a completed run counts the files fixed |
| FixCaseSensitivity.Run | fix-case-sensitivity.js:75-106 | a missing `components` directory rejects the run with nothing written; otherwise as `ProcessAll` on the files found; a completed run always stages, a rejected one never does |

## Left out

- Browser storage, `JSON.parse` and `JSON.stringify` are not modelled as text. A stored value is already classified as an entry, an empty string or unparseable text.
- The only storage fault modelled is a failed write. A `getItem` or `removeItem` that throws, and storage that is unavailable as a whole, are not modelled.
- ComponentCache.Cache.Get: a record without a numeric `timestamp` makes the age `NaN` in the source, which never counts as expired. The model gives every entry an integer timestamp.
- Values.Json: numbers are integers, because floating point is out of scope.
- Asynchronous interleavings are not modelled: the content query's promise and the timers are settled by the caller in an order it chooses. The polling interval, the 500 ms delay after a route change and `clearInterval` on unload only schedule `checkContentUpdates`, and are left out.
- ContentHotReload.HashContent: the content is given as the string that `JSON.stringify` produced. Serialization, and a serialization that throws, are not modelled.
- Constructing the socket (and a constructor that throws), `socket.close()` on unload, and the browser's reload and fetch are outside the model. Handlers return them as actions.
- Console logging is left out, and so is running `git add .`. In the two top-level scripts staging is a returned flag, and a failure of that command is caught there. The script under `scripts/` never stages.
- ComponentCache.Cache.Cleanup: the source reads the clock once per key; the model uses one `now` for the whole sweep.
- The 2000 ms retry delay is not modelled: a pending retry timer fires when the caller calls `OnTimer`.
- WebSocketReconnect.Reconnector: the handlers may be called in any order, including orders that a browser socket cannot produce (several closes). Only `SingleSocket` restricts itself to the order of one browser socket.
- `statSync` and `readdirSync` failures inside an existing directory tree are not modelled. `path.join` is plain concatenation with `/`, without normalisation.
- Regular-expression matching is modelled only for the five literal patterns the scripts use, as a literal search and a left-to-right non-overlapping global replace.
- fix-linting.js, the content components, the server routes and the configuration files are not part of this model.
