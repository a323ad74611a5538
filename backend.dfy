/**
 * The values that cross the boundary between the application and its hosted
 * backend (authentication, the `bookmarks` table). Every backend call is
 * modelled by the reply it delivers: the application never sees more of the
 * backend than these values, and each reply is applied as one atomic step.
 */
module Backend {

  datatype Option<+T> = None | Some(value: T)

  datatype Result<+R, +E> = Success(value: R) | Failure(error: E)

  type UserId = string
  type BookmarkId = int

  /** The identity carried by a session; the profile fields are not used. */
  datatype User = User(id: UserId, email: string)

  /** An authentication session: always carries the user it was issued to. */
  datatype Session = Session(user: User, accessToken: string)

  /** A row of the `bookmarks` table; `id` and `createdAt` are assigned by the backend. */
  datatype Bookmark = Bookmark(id: BookmarkId, title: string, url: string, userId: UserId, createdAt: int)

  /** Reply of `auth.getSession()`: `{ data: { session }, error }`. */
  datatype SessionReply = SessionOk(session: Option<Session>) | SessionError(message: string)

  /** Reply of the owner-filtered, newest-first `select`. */
  datatype SelectReply = Selected(rows: seq<Bookmark>) | SelectFailed(message: string)

  /** Reply of `insert(...).select()`: the returned rows (possibly absent) or an error. */
  datatype InsertReply = Inserted(data: Option<seq<Bookmark>>) | InsertFailed(message: string)

  /** Reply of `delete().eq("id", id)`. */
  datatype DeleteReply = Deleted | DeleteFailed(message: string)

  /** The row the application asks the backend to insert. */
  datatype InsertRequest = InsertRequest(title: string, url: string, userId: UserId)
}
