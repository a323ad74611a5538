/**
 * The bookmark page: which of its three views is shown, and the five pieces
 * of state it keeps (the list, the two input fields, the submitting flag and
 * the error message) with the handlers that change them.
 *
 * Each handler that awaits the backend is split at its `await`: the reply is
 * a parameter and is applied in one step. `addBookmark` has work on both
 * sides of its `await`, so it is two methods, `AddBookmarkStart` and
 * `AddBookmarkFinish`; `AddBookmark` runs them back to back.
 */
module Workspace {
  import opened Backend
  import opened BookmarkList
  import SessionStore

  const TitleAndUrlRequired := "Title and URL are required"
  const InvalidUrlFormat := "Invalid URL format"

  /**
   * The checks made before anything is sent: both fields must be non-empty,
   * then the url must parse (`urlParses` stands for `new URL(url)` not throwing).
   * The message to show, or None when the input may be sent.
   */
  function Validate(title: string, url: string, urlParses: string -> bool): (r: Option<string>)
    ensures r == Some(TitleAndUrlRequired) <==> (title == "" || url == "")
    ensures r == Some(InvalidUrlFormat) <==> (title != "" && url != "" && !urlParses(url))
    ensures r == None <==> (title != "" && url != "" && urlParses(url))
  {
    if title == "" || url == "" then Some(TitleAndUrlRequired)
    else if !urlParses(url) then Some(InvalidUrlFormat)
    else None
  }

  datatype View = LoadingView | SignInView | WorkspaceView

  /** The page renders the loading view, then the sign-in gate, then the workspace. */
  function SelectView(loading: bool, session: Option<Session>): (v: View)
    ensures v == LoadingView <==> loading
    ensures v == SignInView <==> !loading && session.None?
    ensures v == WorkspaceView <==> !loading && session.Some?
  {
    if loading then LoadingView
    else if session.None? then SignInView
    else WorkspaceView
  }

  /** Read through the provider's context value: the workspace is shown exactly to an authenticated, loaded store. */
  lemma WorkspaceNeedsAuthentication(session: Option<Session>, loading: bool)
    ensures var c := SessionStore.ContextValueOf(session, loading);
      SelectView(c.loading, c.session) == WorkspaceView <==> !c.loading && c.isAuthenticated && c.user.Some?
  {
  }

  /** What the first half of `addBookmark` did: rejected the input, or sent an insert. */
  datatype AddStart = Rejected | Sent(request: InsertRequest)

  /** The page component's state. */
  class Home {
    var bookmarks: seq<Bookmark>
    var title: string
    var url: string
    var submitting: bool
    var error: Option<string>
    /** The insert in flight, if any. */
    ghost var pending: Option<InsertRequest>

    /** `submitting` is set exactly while an insert is in flight. */
    ghost predicate Valid()
      reads this
    {
      submitting <==> pending.Some?
    }

    constructor ()
      ensures Valid()
      ensures bookmarks == [] && title == "" && url == "" && !submitting && error == None
    {
      bookmarks := [];
      title := "";
      url := "";
      submitting := false;
      error := None;
      pending := None;
    }

    /** The title input's change handler. */
    method SetTitle(t: string)
      requires Valid()
      modifies this`title
      ensures Valid() && title == t
    {
      title := t;
    }

    /** The url input's change handler. */
    method SetUrl(u: string)
      requires Valid()
      modifies this`url
      ensures Valid() && url == u
    {
      url := u;
    }

    /**
     * `fetchBookmarks`, also run when the user appears and on every realtime
     * change notification. Without a user nothing is asked and nothing changes;
     * otherwise `query` is the owner the select is filtered by and `reply` its result.
     */
    method FetchBookmarks(user: Option<User>, reply: SelectReply) returns (query: Option<UserId>)
      requires Valid()
      modifies this`bookmarks
      ensures Valid()
      ensures query == if user.Some? then Some(user.value.id) else None
      ensures bookmarks == if user.Some? then AfterSelect(old(bookmarks), reply) else old(bookmarks)
    {
      if user.None? {
        return None;
      }
      query := Some(user.value.id);
      if reply.Selected? {
        bookmarks := reply.rows;
      }
    }

    /**
     * `addBookmark` up to its `await`. The form exists only in the workspace
     * view, which needs a session, so a user is present; the button is
     * disabled while submitting.
     */
    method AddBookmarkStart(user: User, urlParses: string -> bool) returns (outcome: AddStart)
      requires Valid() && !submitting
      modifies this`error, this`submitting, this`pending
      ensures Valid()
      ensures outcome.Rejected? <==> Validate(title, url, urlParses).Some?
      ensures outcome.Rejected? ==> error == Validate(title, url, urlParses) && !submitting
      ensures outcome.Sent? ==>
                && outcome.request == InsertRequest(title, url, user.id)
                && error == None && submitting && pending == Some(outcome.request)
      ensures outcome.Sent? ==> title != "" && url != "" && urlParses(url)
    {
      error := None;
      var problem := Validate(title, url, urlParses);
      if problem.Some? {
        error := problem;
        return Rejected;
      }
      submitting := true;
      outcome := Sent(InsertRequest(title, url, user.id));
      pending := Some(outcome.request);
    }

    /**
     * `addBookmark` after its `await`: the insert's reply. The list is the one
     * current when the reply arrives; the fields are cleared whatever the outcome.
     */
    method AddBookmarkFinish(reply: InsertReply)
      requires Valid() && submitting
      modifies this`bookmarks, this`error, this`title, this`url, this`submitting, this`pending
      ensures Valid() && pending == None
      ensures title == "" && url == "" && !submitting
      ensures bookmarks == AfterInsert(old(bookmarks), reply)
      ensures error == if reply.InsertFailed? then Some(reply.message) else old(error)
    {
      if reply.InsertFailed? {
        error := Some(reply.message);
      } else {
        bookmarks := AfterInsert(bookmarks, reply);
      }
      title := "";
      url := "";
      submitting := false;
      pending := None;
    }

    /**
     * `addBookmark` with no other event between sending the insert and its reply.
     * A rejected input changes nothing but the error; an attempted insert
     * always ends with empty fields and not submitting, and with no error
     * unless the backend reported one.
     */
    method AddBookmark(user: User, urlParses: string -> bool, reply: InsertReply) returns (outcome: AddStart)
      requires Valid() && !submitting
      modifies this
      ensures Valid() && !submitting && pending == None
      ensures outcome.Rejected? <==> Validate(old(title), old(url), urlParses).Some?
      ensures outcome.Rejected? ==>
                && error == Validate(old(title), old(url), urlParses)
                && bookmarks == old(bookmarks) && title == old(title) && url == old(url)
      ensures outcome.Sent? ==>
                && outcome.request == InsertRequest(old(title), old(url), user.id)
                && title == "" && url == ""
                && bookmarks == AfterInsert(old(bookmarks), reply)
                && error == if reply.InsertFailed? then Some(reply.message) else None
    {
      outcome := AddBookmarkStart(user, urlParses);
      if outcome.Sent? {
        AddBookmarkFinish(reply);
      }
    }

    /**
     * `deleteBookmark(id)` with the delete's reply: on success every entry with
     * that id goes; on failure the backend's message is shown. An earlier
     * error is never cleared.
     */
    method DeleteBookmark(id: BookmarkId, reply: DeleteReply)
      requires Valid()
      modifies this`bookmarks, this`error
      ensures Valid()
      ensures bookmarks == if reply.Deleted? then RemoveById(old(bookmarks), id) else old(bookmarks)
      ensures error == if reply.DeleteFailed? then Some(reply.message) else old(error)
      ensures old(error).Some? ==> error.Some?
    {
      if reply.DeleteFailed? {
        error := Some(reply.message);
      } else {
        bookmarks := RemoveById(bookmarks, id);
      }
    }
  }
}
