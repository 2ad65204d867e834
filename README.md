# DOTTECH invitation: department-record data layer

This project models the data layer of the DOTTECH 2026 invitation site. The site
shows an invitation for a department code given in the page's `?dept=` query. It
keeps a finite mapping from department code to record. That mapping is assembled
at startup from three sources: the remote collection `departments`, the browser's
local cache under the key `dottech-departments`, and four compiled-in defaults
(`BSCCSIT`, `BMS`, `BBA`, `PUBLIC`). An admin panel edits the mapping.

Modules, one per part of the program:

- `Records` (`records.dfy`): the department record, the mapping, and object spread
  `{...a, ...b}` as `Overlay`.
- `Text` (`text.dfy`): the string operations the core relies on. These are ASCII
  `toUpperCase`, `trim` with JavaScript's white-space set, `split` on one
  character, and `join`.
- `Database` (`database.dfy`): `DatabaseService` as a class `Backend` over two
  pieces of state. One is the remote collection (a map); the other is the local
  cache blob (absent, a stored mapping, or unreadable). A transport error is an
  input `fault` of each call, and every call turns it into a return value.
- `Store` (`store.dfy`): a class `State` with `departments`,
  `currentDept`, `isLoading` and the setters.
- `App` (`app.dfy`): the default records, `loadData` as the specification function
  `Startup` plus the methods `LoadData`/`Mount`/`Boot` proved against it,
  `getCurrentDepartment` as `CurrentDepartment`, and `showDeptSection`.
- `Admin` (`admin.dfy`): the editor form, the highlights parser and its `", "`
  join, the invitation-link string, the admin panel's own merge, and a class
  `Panel` whose methods are the panel's handlers: login, load, select, edit,
  save, delete, flush.

Environment behaviour enters as parameters:

- `Faults(remote, cache, thrown)` says whether remote calls fail, whether
  cache writes fail, and whether an exception reaches a handler's outer `catch`.
- A flush takes the set of codes whose individual delete fails.
- `confirm` answers are booleans.
- The save time (`new Date().toISOString()`) is an opaque string.
- The page origin and path are strings.

The page reload after a delete is modelled as a fresh run of `loadData` on a new
store (`Admin.DeleteThenOpen`).

## Model

| member | source | states |
|---|---|---|
| Records.Overlay | src/App.jsx:86 | object spread: the keys of the result are the keys of both layers |
| Records.OverlayPrecedence | src/App.jsx:86 | the top layer's record wins whole on a shared key; other keys keep the base record |
| Text.IsSpace | src/components/AdminPanel.jsx:181 | the characters `trim` removes: ECMAScript white space (tab, vertical tab, form feed, space, no-break space, ogham space, the U+2000-U+200A spaces, narrow no-break, medium mathematical space, ideographic space, byte-order mark) and line terminators (LF, CR, U+2028, U+2029) |
| Text.Upper | src/App.jsx:128 | same length, each character upper-cased (ASCII `a`-`z` only) |
| Text.UpperCanonical | src/App.jsx:128-129 | upper-casing yields no lower-case letter, is idempotent, and is the identity on such strings |
| Text.TrimStart | src/components/AdminPanel.jsx:181 | a suffix of the input that starts with a non-space; everything dropped is white space |
| Text.TrimEnd | src/components/AdminPanel.jsx:181 | a prefix of the input that ends with a non-space; everything dropped is white space |
| Text.Trim | src/components/AdminPanel.jsx:181 | result is trimmed; empty exactly when the input is all white space; identity on trimmed input; adds no character |
| Text.TrimIsSlice | src/components/AdminPanel.jsx:181 | the result of `trim` is a slice `s[i..j]` with only white space outside it; with `Trimmed` this fixes the result |
| Text.TrimLeadingSpace | src/components/AdminPanel.jsx:812 | a leading space does not change `trim` |
| Text.TrimUpper | src/components/AdminPanel.jsx:186 | `trim(upper(s)) == upper(trim(s))`, so the link's `toUpperCase().trim()` is the trimmed code upper-cased |
| Text.Split | src/components/AdminPanel.jsx:812 | `split` gives at least one piece, and no piece contains the separator |
| Text.Join | src/components/AdminPanel.jsx:126 | `join`: the parts with the separator between neighbours, `""` for no parts; its meaning is fixed by `Text.JoinSplit` and `Admin.ParseShowRoundTrip` |
| Text.JoinSplit | src/components/AdminPanel.jsx:812 | joining the pieces of a split with the separator gives back the text |
| Text.SplitNoSep | src/components/AdminPanel.jsx:812 | text without the separator splits into itself alone |
| Text.SplitAppend | src/components/AdminPanel.jsx:812 | splitting `a + sep + b` gives the pieces of `a` followed by the pieces of `b` |
| Database.CacheContents | src/utils/database.js:63-74 | reading the cache yields the stored mapping, or `{}` when absent or unreadable |
| Database.AfterSync | src/utils/database.js:54-61 | a successful full-replacement write reads back as exactly the written mapping; a failed one changes nothing |
| Database.Backend.SaveDepartment | src/utils/database.js:4-13 | true iff the remote is reachable; then the remote maps the code to the record; on failure the remote is unchanged |
| Database.Backend.LoadDepartment | src/utils/database.js:15-27 | a record iff the remote is reachable and holds the code, and then that record; `None` otherwise (absent and error look alike) |
| Database.Backend.LoadAllDepartments | src/utils/database.js:29-41 | the whole collection when reachable, `{}` on error |
| Database.Backend.DeleteDepartment | src/utils/database.js:43-52 | true iff reachable; then only that code is removed; on failure the remote is unchanged |
| Database.Backend.SyncWithLocalStorage | src/utils/database.js:54-61 | the blob is replaced wholesale by the mapping; a failed write is swallowed and leaves it unchanged |
| Database.Backend.LoadFromLocalStorage | src/utils/database.js:63-74 | the stored mapping, or `{}` when the blob is absent or unreadable |
| Database.Backend.RemoveLocalStorage | src/components/AdminPanel.jsx:226 | `removeItem` on the cache key: the entry is absent afterwards, unless storage access is refused, when it reports failure and the blob is unchanged |
| Database.SyncThenLoad | src/utils/database.js:54-74 | round trip: a successful sync of `m` loads back as `m`, remote untouched |
| Store.State.constructor | src/utils/store.js:4-6 | initial state: no departments, no current code, loading |
| Store.State.SetDepartments | src/utils/store.js:7 | replaces the mapping wholesale; the other two fields are unchanged |
| Store.State.SetCurrentDept | src/utils/store.js:8 | changes only `currentDept` |
| Store.State.SetLoading | src/utils/store.js:9 | changes only `isLoading` |
| Store.State.AddDepartment | src/utils/store.js:10-12 | the code is added or replaced with the record; every other key keeps its record; other fields unchanged |
| Store.AddDepartmentTwice | src/utils/store.js:10-12 | two upserts of one code: the last writer wins |
| Store.AddDepartmentAgain | src/utils/store.js:10-12 | upserting a record already stored under its code changes nothing |
| App.Defaults | src/App.jsx:31-72 | the compiled-in records; their codes are exactly `BSCCSIT`, `BMS`, `BBA`, `PUBLIC` |
| App.Startup | src/App.jsx:79-105 | keys are the defaults plus the winning source (remote when non-empty and nothing thrown, else cache); cache written iff not thrown and (remote non-empty or cache empty); a cache write is exactly the result |
| App.StartupPrecedence | src/App.jsx:84-104 | a code of the winning source gets that source's record whole; any other default code keeps its default record |
| App.BootstrapIdempotent | src/App.jsx:92-95 | both sources empty: the defaults exactly, written to the cache; a second pass over that cache yields the same mapping and writes nothing |
| App.SavedLocallySurvivesReload | src/App.jsx:89-91 | a record only in the cache is resolved for its code while the remote stays empty or unreachable |
| App.SavedRemotelySurvivesReload | src/App.jsx:84-87 | a record in the remote is resolved for its code whatever the cache holds |
| App.RemoteOverwritesCache | src/App.jsx:84-87 | with a non-empty remote, a non-default record held only in the cache is absent from the result |
| App.DeleteThenReload | src/App.jsx:79-105 | after removing a code from remote and cache, a reload lacks it unless it is a default, which then shows its default record |
| App.LoadFromCacheTier | src/App.jsx:89-104 | the cache branch of `loadData`: defaults overlaid by the cache, or the defaults alone, written only on the bootstrap path |
| App.LoadData | src/App.jsx:79-107 | the store holds `Startup`'s mapping, the cache holds its write if any, the remote is untouched, loading is off |
| App.Mount | src/App.jsx:78-115 | `loadData` followed by storing the raw query value as `currentDept` |
| App.Boot | src/App.jsx:74-115 | a fresh store mounted with the compiled-in defaults |
| App.BootTwice | src/App.jsx:92-95 | two page loads with empty remote and cache both show exactly the defaults, which end up in the cache |
| App.CurrentDepartment | src/App.jsx:124-136 | an upper-cased non-empty query naming a key selects that record and code; otherwise `PUBLIC` with the stored or built-in `PUBLIC` record |
| App.ShowDeptSection | src/App.jsx:139 | shown for every resolved code except `PUBLIC`; `App.ShowsSectionIff` states when that happens in terms of the query |
| App.CaseInsensitive | src/App.jsx:128-129 | a query and its upper-cased form resolve to the same record and code |
| App.ShowsSectionIff | src/App.jsx:139 | the section is shown iff the upper-cased non-empty query names a stored code other than `PUBLIC` |
| App.PublicQueryHidesSection | src/App.jsx:139 | `?dept=public` resolves to `PUBLIC` and hides the section |
| App.RemoteScenarioSize | src/App.jsx:84-86 | a remote holding only `CSIT` over the four defaults gives five entries |
| App.RemoteScenarioKnown | src/App.jsx:124-136 | in that mapping `?dept=csit` selects the `CSIT` record |
| App.RemoteScenarioUnknown | src/App.jsx:124-136 | in that mapping `?dept=xyz` falls back to the default `PUBLIC` record |
| App.CachedPublicScenario | src/App.jsx:89-91 | a custom `PUBLIC` record in the cache is what an unmatched query shows |
| Admin.BlankForm | src/components/AdminPanel.jsx:13-22 | the initial form has no name, message or highlights (so saving it is rejected) |
| Admin.BlankFormIsPublicLayout | src/components/AdminPanel.jsx:13-22 | its display fields are those of the built-in `PUBLIC` record |
| Admin.FormOf | src/components/AdminPanel.jsx:114-123 | the form filled from a record never has an empty display field; non-empty ones and name, message, highlights are copied |
| Admin.Stamp | src/components/AdminPanel.jsx:138-142 | the saved record carries the code and save time, and loads back into the same form when its display fields are filled |
| Admin.SaveKey | src/components/AdminPanel.jsx:137 | the key keeps the typed code's length (trailing white space survives), has no lower-case letter, and is the code itself when already upper case |
| Admin.LoadThenSave | src/components/AdminPanel.jsx:114-123 | a record loaded into the form and saved under its code keeps its content when its display fields were non-empty |
| Admin.TrimEach | src/components/AdminPanel.jsx:812 | same length, each piece trimmed |
| Admin.DropEmpty | src/components/AdminPanel.jsx:812 | keeps only non-empty items, all taken from the input; identity when none is empty |
| Admin.ParseHighlights | src/components/AdminPanel.jsx:812 | every parsed highlight is non-empty, trimmed and comma-free |
| Admin.ParsedItemsClean | src/components/AdminPanel.jsx:812 | every item the parse keeps is non-empty, trimmed and comma-free |
| Admin.DropEmptyAppend | src/components/AdminPanel.jsx:812 | dropping empty items distributes over concatenation, preserving order |
| Admin.ParseConcat | src/components/AdminPanel.jsx:812 | the parse preserves order: text joined at a comma parses to the first part's items then the second's |
| Admin.ParseLeadingSpace | src/components/AdminPanel.jsx:812 | a space after a comma does not change the parse |
| Admin.ShowHighlights | src/components/AdminPanel.jsx:126 | the highlights text shown for a stored list: the items joined with `", "`; `Admin.ParseShowRoundTrip` proves it parses back |
| Admin.ParseShowRoundTrip | src/components/AdminPanel.jsx:812 | parsing the `", "` join of a list (line 126) gives the list back when its items are non-empty, trimmed and comma-free |
| Admin.InvitationLink | src/components/AdminPanel.jsx:180-186 | no link iff the code is all white space; else origin + path + `?dept=` + the trimmed code upper-cased, which is non-empty, trimmed and has no lower-case letter |
| Admin.UntrimmedCodeHasLink | src/components/AdminPanel.jsx:181-186 | a code with any non-space character gets a link |
| Admin.LinkMatchesSavedKey | src/components/AdminPanel.jsx:137 | for a trimmed code, the link names exactly the key the record is saved under |
| Admin.UntrimmedCodeLinkMisses | src/components/AdminPanel.jsx:137 | for a code with trailing white space, the link's code differs from the saved key, and whatever mapping the page holds the link resolves to a code other than the saved key |
| Admin.UntrimmedCodeOpensPublic | src/components/AdminPanel.jsx:137 | with only that saved record stored, the link shows the built-in `PUBLIC` record |
| Admin.AdminMerge | src/components/AdminPanel.jsx:93-106 | keys are cache plus remote, never a default; on exception the cache alone |
| Admin.AdminMergePrecedence | src/components/AdminPanel.jsx:94-95 | a code the remote holds gets the remote's record whole; any other code keeps the cached record; on exception every code keeps the cached record |
| Admin.AdminMergeAddsNoDefaults | src/components/AdminPanel.jsx:95 | with both sources empty the panel has no department, while a page load has the four defaults |
| Admin.Panel.constructor | src/components/AdminPanel.jsx:12-32 | initial panel state: blank form, no code, no selection, ordinary admin, flush button shown |
| Admin.Panel.LoadDepartmentsFromFirebase | src/components/AdminPanel.jsx:84-109 | store holds `AdminMerge` of remote and cache, written back to the cache except on the exception path; remote untouched |
| Admin.Panel.OpenPanel | src/components/AdminPanel.jsx:59-82 | a login sets the tier, shows the flush button for the super tier, then loads |
| Admin.Panel.SelectDepartment | src/components/AdminPanel.jsx:604-624 | a stored code fills the form and the highlights text from its record; "create new" resets the form; an unknown code leaves it |
| Admin.Panel.EditDeptId | src/components/AdminPanel.jsx:653 | the typed code is kept as typed |
| Admin.Panel.EditForm | src/components/AdminPanel.jsx:673-788 | the text inputs replace the form's fields and leave its highlights |
| Admin.Panel.EditHighlights | src/components/AdminPanel.jsx:808-814 | the text is kept and the form's highlights become its parse |
| Admin.Panel.Save | src/components/AdminPanel.jsx:130-171 | missing code or name: nothing changes; else the record is stamped with the upper-cased untrimmed code and ends up in the store; the cache is the prior mapping with that code set; after a remote success the panel reloads |
| Admin.Panel.DeleteDept | src/components/AdminPanel.jsx:269-311 | no selection or declined: nothing changes; else the cache is the store's mapping minus the code whatever the remote result, the form resets, the store is untouched |
| Admin.Panel.DeleteEach | src/components/AdminPanel.jsx:218-221 | one delete per listed code: exactly the succeeding ones leave the remote; the failing ones are returned |
| Admin.Panel.FlushAllData | src/components/AdminPanel.jsx:212-256 | declined: nothing changes; else every listed code whose delete succeeds is gone and the failing ones are returned; then, if removing the cache entry succeeds, the cache is absent, the store is empty, the form resets and the flush button stays only for a super admin; if it throws, the `catch` leaves the cache, store, form and button as they were |
| Admin.SaveThenOpen | src/components/AdminPanel.jsx:150-168 | after a save with a working cache, the next page load resolves the saved record, unless the remote missed the write but has other records then |
| Admin.DeleteThenOpen | src/components/AdminPanel.jsx:283-305 | after a delete and the page reload, a non-default code is gone and a default code shows its default record |

## Left out

- The password gate and its two constant passwords: a login is an input `asSuper` to `OpenPanel`.
- The `secret=admin` query, the keyboard shortcut and the show/hide flags of the modal: presentation only.
- `alert` messages: output only. `confirm` answers are inputs.
- Spinner flags (`isLoadingDepts`, `isSaving`, `isDeleting`, `isFlushing`): presentation only.
- `new Date().toISOString()`: an opaque `savedAt` string.
- QR image generation (`QRCode.toDataURL`) and `downloadQR`: external library and DOM. Only the URL string is modelled.
- Percent-encoding of the query value in the link: the link is plain concatenation, as written.
- `testConnection` and the connectivity probe: network only, no data logic.
- The Firebase and local-storage transports: abstract maps with fault flags. JSON stringify/parse is the identity on a mapping. Firebase's handling of empty arrays and special characters in keys is not modelled.
- Async interleaving of overlapping handlers: each handler is one atomic sequential step.
- `setTimeout(() => window.location.reload(), 1000)`: modelled as a fresh `loadData` (`Admin.DeleteThenOpen`).
- Text.Upper: ASCII letters only; JavaScript's full Unicode `toUpperCase` is not modelled.
- The outer `catch` blocks of `handleSave` and `deleteDept` are not modelled. Every call inside their `try` is a service method that catches its own errors, a store setter, or a spread of a mapping, so these blocks cannot run for the inputs the model admits.
- App.LoadData: `thrown` is an abstraction of the outer `catch` of `loadData`: an exception injected before any write, after which the cache tier runs without the bootstrap write.
- A cache blob that parses to something other than a mapping of codes to records (`null`, a number, a string, an array) is outside the model: `Blob` has no such case. It is the only route into `loadData`'s `catch`. For `null`, `Object.keys` throws at App.jsx line 90 and again inside the `catch` at line 100, so `loadData` rejects without setting the mapping or clearing the loading flag. The store keeps `{}` and every query shows the built-in `PUBLIC` record. The `thrown` path does not describe that run.
- Admin.Panel.LoadDepartmentsFromFirebase: `thrown` likewise injects an exception into its `try`. No call there throws for any cache blob, a non-mapping one included, because spreading `null` or a number into an object does not throw; so that path stands for failures outside the model.
- Admin.Panel.Save: the reload after a remote success is taken on the normal path. Its store is the admin merge, so on that path the store may gain other codes from the remote beyond the saved one.
- Default records are a parameter of the generic operations. `App.Boot` and `App.BootTwice` supply the compiled-in records, `App.Defaults`.
- The rendering components and their display transforms (bullet splitting, typewriter, animations): presentation only.
