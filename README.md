# Smart Bookmark: a model of its page state and session store

The application is a single-page bookmark manager on a hosted backend. A user
signs in through an identity provider, then adds, lists and deletes their own
bookmarks. The backend (authentication, the `bookmarks` table, the realtime
feed) does all the work that is not UI. Two small state machines are left, and
this project models them:

- **The session store** (`SupabaseProvider`). It holds `session` and
  `loading`, plus the `isMounted` guard of its effect. Three events change
  them: the initial `getSession` resolving, the auth listener firing, and the
  effect's cleanup. From them it derives `isAuthenticated` and `user`, which
  `useSupabase` hands to consumers. Module `SessionStore`:
  - `Step` and `Run` describe the store over any sequence of events.
  - Class `Provider` holds the same state in fields; each of its methods
    performs one `Step`.
- **The bookmark page** (`Home`). It holds five fields: `bookmarks`, `title`,
  `url`, `submitting` and `error`. The handlers `fetchBookmarks`,
  `addBookmark` and `deleteBookmark` change them in response to user actions
  and backend replies. The page renders one of three views. Module
  `Workspace` holds class `Home` for the state, `Validate` for the input
  checks and `SelectView` for the view choice. Module `BookmarkList` holds
  the pure list updates: replace, prepend, filter by id.

Every backend call is modelled by its reply, which is given to the model as
input (module `Backend`). Each reply is applied in a single atomic step. A
handler that awaits the backend becomes a method that takes the reply as a
parameter. `addBookmark` has work on both sides of its `await`, so it is
split into `AddBookmarkStart`, which validates and sends, and
`AddBookmarkFinish`, which applies the reply. Other events may run between
the two.

In three places the code does something a reader might not expect, and the model follows the code:

- When validation fails, the input fields are not cleared: the handler
  returns before it reaches the reset at `src/app/page.js:94-95`.
- Signing out does not clear the in-memory list. Nothing in the page resets
  `bookmarks` when the session goes away. The old list stays until the next
  successful fetch replaces it.
- `setLoading(false)` at `src/context/SupabaseProvider.js:29` is not guarded
  by `isMounted`, so `loading` becomes false even after teardown.

## Model

| member | source | states |
|---|---|---|
| `BookmarkList.RemoveById` | src/app/page.js:111 | the filtered list is no longer than the input; no remaining entry has the id; every entry with another id stays; nothing new appears |
| `BookmarkList.RemoveByIdCounts` | src/app/page.js:111 | exactly the entries with the id vanish; every other entry keeps its multiplicity |
| `BookmarkList.RemoveByIdKeepsOrder` | src/app/page.js:111 | the remaining entries keep their relative order (the result is a subsequence) |
| `BookmarkList.RemoveByIdAbsent` | src/app/page.js:111 | deleting an id no entry carries leaves the list unchanged |
| `BookmarkList.RemoveByIdShrinks` | src/app/page.js:111 | the list gets shorter exactly when some entry carries the id |
| `BookmarkList.RemoveByIdIdempotent` | src/app/page.js:111 | applying the same successful delete twice gives the list one gives |
| `BookmarkList.RemoveByIdCommutes` | src/app/page.js:108-112 | two successful deletes yield the same list whichever reply is applied first |
| `BookmarkList.AfterInsert` | src/app/page.js:88-92 | with returned rows: the first row, followed by the old list in order; on error or without rows: unchanged |
| `BookmarkList.DeleteUndoesInsert` | src/app/page.js:91 | deleting the id of the row an insert prepended (an id not already in the list) restores the previous list |
| `BookmarkList.AfterSelect` | src/app/page.js:26-28 | a successful select gives exactly its rows; a select error leaves the list unchanged |
| `BookmarkList.SelectForgetsPrevious` | src/app/page.js:26-28 | a successful select replaces the list with its rows, whatever was there before |
| `BookmarkList.SelectIdempotent` | src/app/page.js:26-28 | applying the same select reply twice gives the list one application gives |
| `Workspace.Validate` | src/app/page.js:63-73 | "Title and URL are required" iff a field is empty; "Invalid URL format" iff both are filled and the url does not parse; no error iff both filled and parsing |
| `Workspace.SelectView` | src/app/page.js:128-154 | loading view iff loading; sign-in view iff loaded without a session; workspace iff loaded with a session |
| `Workspace.WorkspaceNeedsAuthentication` | src/app/page.js:136-154 | read through the provider's context value, the workspace is shown iff loading is over and the store is authenticated with a user |
| `Workspace.Home.constructor` | src/app/page.js:9-13 | the page starts with an empty list, empty fields, not submitting, no error |
| `Workspace.Home.SetTitle` | src/app/page.js:188 | the title field takes the typed value; nothing else changes |
| `Workspace.Home.SetUrl` | src/app/page.js:196 | the url field takes the typed value; nothing else changes |
| `Workspace.Home.FetchBookmarks` | src/app/page.js:17-29 | without a user there is no query and no change; with one, the query is filtered by the user's id, success replaces the list and an error leaves it; nothing else changes |
| `Workspace.Home.AddBookmarkStart` | src/app/page.js:60-75 | the error is cleared, then on a validation failure it holds the fixed message, no insert is sent and the list, fields and `submitting` are unchanged; otherwise the insert carries the title, the url and the user's id, and `submitting` becomes true |
| `Workspace.Home.AddBookmarkFinish` | src/app/page.js:88-96 | on error the backend's message is shown and the list is unchanged; with rows, the first row is prepended to the current list; in every case the fields are cleared and `submitting` is false |
| `Workspace.Home.AddBookmark` | src/app/page.js:60-97 | without interleaved events: rejected input changes only the error; an attempted insert ends with empty fields, not submitting, and the error equal to the backend's message or absent |
| `Workspace.Home.DeleteBookmark` | src/app/page.js:102-113 | on success the entries with that id are removed; on failure the list is unchanged and the backend's message is shown; an existing error is never cleared |
| `SessionStore.Step` | src/context/SupabaseProvider.js:22-46 | loading never returns to true; a fetch result ends loading and nothing else changes it; after teardown the session and the guard stay; while mounted an auth event sets the session to the event's and an error-free fetch to the fetched one; the session changes only while mounted, through one of those two |
| `SessionStore.Mounted` | src/context/SupabaseProvider.js:15-41 | the state right after the effect ran: no session, loading, mounted, the fetch in flight, no unsubscribe yet; it satisfies the store's invariant |
| `SessionStore.StepKeepsInv` | src/context/SupabaseProvider.js:19-46 | every deliverable event keeps "loading iff the fetch is pending" and "unsubscribed once iff torn down" |
| `SessionStore.RunKeepsInv` | src/context/SupabaseProvider.js:19-46 | the invariant holds after every deliverable sequence of events |
| `SessionStore.LoadingStaysFalse` | src/context/SupabaseProvider.js:29 | once loading is false it stays false over any sequence of events |
| `SessionStore.FetchEndsLoading` | src/context/SupabaseProvider.js:22-30 | after the initial fetch resolves (with or without error, mounted or not) loading is false, whatever follows |
| `SessionStore.UnmountedFreezesSession` | src/context/SupabaseProvider.js:25-44 | after teardown no later fetch result or auth event changes the session |
| `SessionStore.UnmountIsFinal` | src/context/SupabaseProvider.js:43-44 | a teardown anywhere in a sequence leaves the store unmounted |
| `SessionStore.UnsubscribedExactlyOnce` | src/context/SupabaseProvider.js:43-46 | from mounting, once the cleanup has run the listener has been unsubscribed exactly once, given that the runtime runs the cleanup at most once (the cleanup has no guard of its own) |
| `SessionStore.UserOf` | src/context/SupabaseProvider.js:55 | a user exactly when a session exists, and then the session's user |
| `SessionStore.ContextValueOf` | src/context/SupabaseProvider.js:49-58 | `isAuthenticated` iff a session exists, iff `user` is present; `user` is the session's user |
| `SessionStore.UseSupabase` | src/context/SupabaseProvider.js:67-77 | outside a provider an error with the fixed message; inside, the provider's value |
| `SessionStore.Provider.Mount` | src/context/SupabaseProvider.js:15-41 | initially no session, loading, mounted, the fetch in flight and the listener subscribed |
| `SessionStore.Provider.Value` | src/context/SupabaseProvider.js:49-58 | the memoised context value carries the current session and loading flag, is authenticated iff a session exists, and carries that session's user |
| `SessionStore.Provider.ReceiveSession` | src/context/SupabaseProvider.js:22-30 | the session is stored only without error and while mounted; loading becomes false in every case |
| `SessionStore.Provider.ReceiveAuthChange` | src/context/SupabaseProvider.js:35-41 | the event's session replaces the current one only while mounted; loading and the guard are unchanged |
| `SessionStore.Provider.Teardown` | src/context/SupabaseProvider.js:43-46 | the guard is cleared and the listener unsubscribed once; session and loading are unchanged |

## Left out

- The backend client calls are network I/O: select, insert, delete, `getSession`, `onAuthStateChange`, `signInWithOAuth` and `signOut` (`src/app/page.js:20-24, 77-86, 103-106, 118-124`; `src/context/SupabaseProvider.js:23, 35`). Each reply is an input value. Sign-in and sign-out reach the store only as auth-change events.
- The realtime channel (`src/app/page.js:33-55`) is network I/O with asynchronous delivery. Its subscribe and unsubscribe are not modelled. A change notification, and the fetch made when a user appears, are both calls to `Workspace.Home.FetchBookmarks`.
- Interleaving inside one step is concurrency and is not modelled: every reply is one atomic step. Races between replies are modelled as those atomic steps arriving in either order. For example, a realtime refetch may run between `AddBookmarkStart` and `AddBookmarkFinish`, and the finish then prepends to the list current at that point. If the refetch already returned the new row, the row appears twice.
- URL parsing (`new URL(url)`, `src/app/page.js:69`) follows section 4.4 of the WHATWG URL Standard, in a library outside this code. It is the parameter `urlParses`.
- JSX markup, styling and React's hooks machinery (`useCallback`, `useMemo`, `useEffect`, rendering) are left out. State is held as plain fields. `src/app/layout.js` only wires the component tree, and `tailwind.config.js` is styling.
- The backend client handle that the context value also carries is not modelled, and neither are user profile fields beyond the id and email.
- BookmarkList.AfterInsert: a successful reply whose returned array is empty makes the source prepend `undefined`. The list type cannot hold that value, so the model leaves the list unchanged in that case. Insert-with-select returns the inserted row, so a real backend does not produce this reply.
- Workspace.Home.AddBookmarkStart: takes a user that is always present. The form is rendered only in the workspace view, which needs a session, and a session always carries a user. So the source's `TypeError` on `user.id` with no user is unreachable and not modelled.
- The model covers one instance of the provider's effect. React's development-mode double mount (mount, cleanup, mount) is not modelled. In that mode the first instance's late `getSession` still runs the unguarded `setLoading(false)` (`src/context/SupabaseProvider.js:29`). That can end `loading` while the second instance's fetch is still pending.
- React's rule that state updates to an unmounted component do nothing is not modelled. The fields change as the code says.
