# PodNotes core logic in Dafny

PodNotes is a collaborative note-taking web front end: users keep notes in
shared workspaces ("pods") and give collaborators one of four roles. Almost
all of the application is rendering, routing and calls to a hosted backend.
This project models the four pieces of self-contained logic in it, and
proves properties about them:

- **Role hierarchy** (`RoleHelpers`, roles.dfy). The roles are creator,
  admin, editor and read_only, from most to least privileged. `HasMinRole`
  compares two role values by their position in that order and fails closed
  on anything that is not one of the four roles. `CanEdit`,
  `CanManageMembers` and `IsCreator` are built on it, and `GetRoleLabel`
  gives the label shown next to a member. A role value is an optional
  string, because the UI passes null or undefined while a pod is loading.
- **Dashboard search** (`NoteSearch`, search.dfy). This is the
  `filteredNotes` filter. It keeps the notes whose lowercased title or
  content contains the lowercased `q` parameter. A missing field reads as
  the empty string, and an empty query keeps every note.
  `String.prototype.includes` is modelled by `Includes` and proved equal to
  the definition of a substring occurrence.
- **Toast list** (`Toasts`, toasts.dfy). `ToastStore` is a class with the
  id counter `nextId` and the list `toasts`. `AddToast` pre-increments the
  counter and appends a record, and `Dismiss` filters records out by id.
  The `Show*` methods are the `toast.success/error/info/warn` helpers with
  their default durations. The class invariant says that ids strictly
  increase along the list and never exceed the counter, so ids are unique.
- **Pod card style** (`PodStyle`, pod_style.dfy). `GetPodStyle` picks one
  row of two parallel six-entry tables. The row is the code of the id's
  last character modulo 6.

`Wrappers` (wrappers.dfy) holds `Option`. `Sequences` (sequences.dfy)
defines the subsequence relation that both list filters are proved to
respect.

The application has no realtime reconciliation and no optimistic note
cache: src/hooks/useNotes.js:52, :86 and :97 refetch the whole list after
every write.

## Model

| member | source | states |
|---|---|---|
| RoleHelpers.IndexOf | src/utils/roleHelpers.js:14-15 | The result is -1 exactly when the value is absent. Otherwise it is the first position holding the value. |
| RoleHelpers.HierarchyIndex | src/utils/roleHelpers.js:14-15 | `ROLE_HIERARCHY.indexOf(role)`, with null and undefined never found. Its values are fixed by `HierarchyIndexIsRank` and `UnknownRoleHasNoIndex`. |
| RoleHelpers.ParseRole | src/utils/roleHelpers.js:1-8 | Recognises exactly the four role strings. A recognised value is the name of the role returned. |
| RoleHelpers.HierarchyIndexIsRank | src/utils/roleHelpers.js:8 | `ROLE_HIERARCHY.indexOf` of each role's string is that role's rank: creator 0, admin 1, editor 2, read_only 3. |
| RoleHelpers.UnknownRoleHasNoIndex | src/utils/roleHelpers.js:14-15 | A value that is not one of the four roles, null included, has index -1. |
| RoleHelpers.HasMinRole | src/utils/roleHelpers.js:13-18 | `hasMinRole`: false when either index is -1, else `userIndex <= minIndex`. Characterised by `HasMinRoleCharacterised`. |
| RoleHelpers.CanEdit | src/utils/roleHelpers.js:20-22 | `canEdit` is `hasMinRole(role, "editor")`. Characterised by `CanEditExactly`. |
| RoleHelpers.CanManageMembers | src/utils/roleHelpers.js:24-26 | `canManageMembers` is `hasMinRole(role, "admin")`. Characterised by `CanManageMembersExactly`. |
| RoleHelpers.IsCreator | src/utils/roleHelpers.js:28-30 | `isCreator` is strict equality with "creator". Characterised by `IsCreatorExactly`. |
| RoleHelpers.HasMinRoleCharacterised | src/utils/roleHelpers.js:13-18 | `hasMinRole(u, m)` holds iff both are recognised roles and rank(u) <= rank(m). |
| RoleHelpers.HasMinRoleFailsClosed | src/utils/roleHelpers.js:14-16 | An unrecognised value on either side makes `hasMinRole` false. |
| RoleHelpers.HasMinRoleByRank | src/utils/roleHelpers.js:8-18 | For two roles, `hasMinRole` holds iff the user's position in the hierarchy is at most the minimum's. |
| RoleHelpers.HasMinRoleReflexive | src/utils/roleHelpers.js:17 | `hasMinRole(r, r)` holds iff r is a recognised role. |
| RoleHelpers.HasMinRoleTransitive | src/utils/roleHelpers.js:17 | `hasMinRole(a, b)` and `hasMinRole(b, c)` imply `hasMinRole(a, c)`. |
| RoleHelpers.HasMinRoleTotal | src/utils/roleHelpers.js:17 | For recognised roles at least one direction holds. Both hold iff the roles are equal. |
| RoleHelpers.CanEditExactly | src/utils/roleHelpers.js:20-22 | `canEdit` is true exactly for "creator", "admin" and "editor". It is false for read_only, other strings and null. |
| RoleHelpers.CanManageMembersExactly | src/utils/roleHelpers.js:24-26 | `canManageMembers` is true exactly for "creator" and "admin". |
| RoleHelpers.IsCreatorExactly | src/utils/roleHelpers.js:28-30 | `isCreator` holds iff the value is recognised as the creator role. |
| RoleHelpers.PermissionsMonotone | src/utils/roleHelpers.js:20-30 | `canManageMembers` implies `canEdit`, and `isCreator` implies `canManageMembers`. |
| RoleHelpers.GetRoleLabel | src/utils/roleHelpers.js:32-40 | A recognised role gets its label. Any other value, null included, is returned unchanged. |
| RoleHelpers.RoleLabelsAsShown | src/utils/roleHelpers.js:33-39 | The labels are "Creator", "Admin", "Editor" and "Read Only". Every other value is returned as given. |
| NoteSearch.QueryOf | src/pages/Dashboard.jsx:16 | An absent `q` parameter gives the empty query. A present one is used as given. |
| NoteSearch.LowerChar | src/pages/Dashboard.jsx:20 | Upper-case ASCII letters map to their lower-case letter. Every other character is unchanged. |
| NoteSearch.Lower | src/pages/Dashboard.jsx:20 | Lowercasing keeps the length and lowercases each character in place. |
| NoteSearch.LowerIdempotent | src/pages/Dashboard.jsx:20 | Lowercasing an already lowercased string changes nothing. |
| NoteSearch.Includes | src/pages/Dashboard.jsx:22-23 | `String.prototype.includes`. Characterised by `IncludesIffOccurs` against substring occurrence. |
| NoteSearch.IncludesIffOccurs | src/pages/Dashboard.jsx:22-23 | `includes` holds iff the needle occurs at some position of the haystack. |
| NoteSearch.IncludesEmpty | src/pages/Dashboard.jsx:22-23 | The empty query is found in every string. The empty string contains only the empty query. |
| NoteSearch.FieldText | src/pages/Dashboard.jsx:22-23 | A missing title or content reads as "". A present one reads lowercased. |
| NoteSearch.Matches | src/pages/Dashboard.jsx:21-23 | The filter callback: the lowercased title or the lowercased content includes the query. Used by `FilteredNotesSound` and `FilteredNotesComplete`. |
| NoteSearch.FilterMatching | src/pages/Dashboard.jsx:21-24 | A note is kept iff it is in the input and its title or content includes the query. The result is no longer than the input. |
| NoteSearch.FilteredNotes | src/pages/Dashboard.jsx:18-25 | An empty query returns the list unchanged. Otherwise the result holds exactly the input notes whose lowercased title or content includes the lowercased query. |
| NoteSearch.FilterMatchingKeepsEveryCopy | src/pages/Dashboard.jsx:21-24 | Every copy of a matching note is kept, and no copy of any other note. |
| NoteSearch.FilteredNotesKeepsEveryCopy | src/pages/Dashboard.jsx:18-25 | For a non-empty query, each matching note appears in the result as often as in the input, and every other note not at all. |
| NoteSearch.AbsentQueryKeepsAll | src/pages/Dashboard.jsx:16-19 | Without a `q` parameter the dashboard shows every note. |
| NoteSearch.FilterMatchingIsSubsequence | src/pages/Dashboard.jsx:21-24 | The filter's result is a subsequence of its input. |
| NoteSearch.FilteredNotesIsSubsequence | src/pages/Dashboard.jsx:18-25 | The search result keeps relative order. Its multiset is contained in the input's, so no note is duplicated or invented. |
| NoteSearch.FilteredNotesSound | src/pages/Dashboard.jsx:20-24 | Every kept note has the lowercased query occurring in its lowercased title or content. |
| NoteSearch.FilteredNotesComplete | src/pages/Dashboard.jsx:21-24 | Every input note whose lowercased title or content has an occurrence of the lowercased query is kept. |
| NoteSearch.EmptyNoteExcluded | src/pages/Dashboard.jsx:22-23 | For a non-empty query, a note with neither title nor content is never kept. |
| NoteSearch.FilteredNotesCaseInsensitive | src/pages/Dashboard.jsx:20 | Searching with the lowercased query gives the same result as with the query. |
| NoteSearch.FilterMatchingIdempotent | src/pages/Dashboard.jsx:21-24 | Filtering the filter's result again returns it unchanged. |
| NoteSearch.FilteredNotesIdempotent | src/pages/Dashboard.jsx:18-25 | Searching the search result with the same query returns it unchanged. |
| Toasts.WithDefault | src/context/ToastContext.jsx:28 | A default parameter replaces only an undefined argument. Null and given values pass through. |
| Toasts.OrElse | src/context/ToastContext.jsx:39 | `??` always yields a given value. It replaces both undefined and null by the default. |
| Toasts.SchedulesRemoval | src/context/ToastContext.jsx:31 | `duration > 0`, false for null. Characterised per helper by `HelperRemovalScheduled`. |
| Toasts.HelperDuration | src/context/ToastContext.jsx:28-42 | A given duration is kept. An omitted one becomes 5000 for `error` and 3500 otherwise. Null becomes 5000 for `error` and stays null for the other helpers. |
| Toasts.HelperRemovalScheduled | src/context/ToastContext.jsx:28-42 | Removal is scheduled iff the duration was omitted, or given and positive, or null on the `error` helper. |
| Toasts.Dismissed | src/context/ToastContext.jsx:25 | A toast survives iff it was in the list and its id differs from the dismissed id. |
| Toasts.IncreasingIdsUnique | src/context/ToastContext.jsx:19-30 | In a list whose ids strictly increase, no two toasts share an id. |
| Toasts.DismissedIsSubsequence | src/context/ToastContext.jsx:25 | Dismissal keeps the remaining toasts in their original order. |
| Toasts.DismissedAbsent | src/context/ToastContext.jsx:25 | Dismissing an id not in the list leaves the list unchanged. |
| Toasts.DismissedIdempotent | src/context/ToastContext.jsx:24-26 | Dismissing the same id twice equals dismissing it once. |
| Toasts.DismissedKeepsIdsIncreasing | src/context/ToastContext.jsx:24-26 | Dismissal preserves strictly increasing ids. |
| Toasts.ToastStore.constructor | src/context/ToastContext.jsx:19-22 | The counter starts at 0 and the list starts empty. |
| Toasts.ToastStore.AddToast | src/context/ToastContext.jsx:28-35 | The returned id is the old counter plus one and is stored as the new counter. It exceeds every earlier id. Exactly one record `{id, message, type}` is appended, with type defaulting to info, and earlier records are unchanged. `scheduled` is `duration > 0` after the 3500 default. |
| Toasts.ToastStore.Dismiss | src/context/ToastContext.jsx:24-26 | The list becomes the old list without that id. The counter is unchanged and the invariant is kept. |
| Toasts.ToastStore.ShowSuccess | src/context/ToastContext.jsx:38 | Appends one success toast with a fresh id. The removal decision is that of `HelperDuration`. |
| Toasts.ToastStore.ShowError | src/context/ToastContext.jsx:39 | Appends one error toast with a fresh id, with duration `dur ?? 5000`. |
| Toasts.ToastStore.ShowInfo | src/context/ToastContext.jsx:40 | Appends one info toast with a fresh id. The removal decision is that of `HelperDuration`. |
| Toasts.ToastStore.ShowWarn | src/context/ToastContext.jsx:41 | Appends one warn toast with a fresh id. The removal decision is that of `HelperDuration`. |
| PodStyle.StyleIndex | src/components/PodCard.jsx:25 | The index is within both tables. A missing id gives index 0. |
| PodStyle.GetPodStyle | src/components/PodCard.jsx:22-27 | The gradient and the icon colour come from the same row of the two tables. |
| PodStyle.TablesParallel | src/components/PodCard.jsx:4-20 | Both tables have exactly 6 entries, and the entries of each are pairwise distinct. |
| PodStyle.StyleIndexOfId | src/components/PodCard.jsx:25-26 | For a present id the row is (code of the last character) mod 6, which lies in [0, 6). |
| PodStyle.MissingIdFirstRow | src/components/PodCard.jsx:25-26 | A null or undefined id gets the first gradient and the first colour. |
| PodStyle.StyleDependsOnLastChar | src/components/PodCard.jsx:25 | Two ids ending in the same character get the same style. So the same id always gets the same style. |
| PodStyle.GradientDeterminesIconColor | src/components/PodCard.jsx:4-26 | Two ids share a gradient iff they share an icon colour. |

## Left out

- Backend I/O is not modelled: authentication, the pod, membership and note queries in src/hooks/usePods.js and src/hooks/useNotes.js, and the profile upsert. These are remote calls with no in-memory logic.
- `updateNote`'s history-insert-then-update sequence is not modelled. It is an ordering of remote calls, and the note ordering is decided by the server.
- Realtime reconciliation and optimistic cache merging are not modelled, because the code contains neither.
- Rendering, routing and layout are not modelled. This includes the `ICONS` and `COLORS` tables of the toast container and the NoteEditor gate, which treats only read_only as read-only.
- Timers are not modelled. `AddToast` returns whether it schedules the timed dismissal. The later firing of that timer is a call to `Dismiss` with the same id.
- NoteSearch.Lower: models `toLowerCase` as ASCII case folding. Unicode case mapping is not modelled.
- Date formatting and the 100-character preview on the dashboard are presentation only.
- RoleHelpers.GetRoleLabel: looks up only the four role keys. In JavaScript, inherited object keys such as "toString" return a prototype member instead of the input.
- PodStyle.StyleIndex: requires a present id to be non-empty. In JavaScript an empty id yields a NaN index and undefined class names. Pod ids are never empty.
- PodStyle.StyleIndex: takes a character's code to be its Unicode scalar value. `charCodeAt` returns a UTF-16 code unit, and the two differ for characters outside the Basic Multilingual Plane.
- Toasts.ToastStore: the source keeps `nextId` at module level, so it survives a remount of the provider. The model keeps it in the store, and the constructor models the first mount after the module loads. Later remounts, which keep the counter, are not modelled.
- Toasts.ToastStore.AddToast: the message is a string, the type is never null, and the duration is an integer, null or undefined. Other JavaScript values are not modelled.
