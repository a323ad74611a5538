/**
 * The three ways the in-memory bookmark list changes: wholesale replacement by
 * a successful select, prepending the row an insert returned, and removing
 * every entry with a given id after a successful delete.
 */
module BookmarkList {
  import opened Backend

  /** Some entry of `s` has identifier `id`. */
  predicate HasId(s: seq<Bookmark>, id: BookmarkId) {
    exists i :: 0 <= i < |s| && s[i].id == id
  }

  /** `a` can be obtained from `b` by dropping entries, keeping the order of the rest. */
  predicate IsSubsequence<T(==)>(a: seq<T>, b: seq<T>)
    decreases |b|
  {
    a == [] || (b != [] && ((a[0] == b[0] && IsSubsequence(a[1..], b[1..])) || IsSubsequence(a, b[1..])))
  }

  /** `prev.filter(b => b.id !== id)`. */
  function RemoveById(s: seq<Bookmark>, id: BookmarkId): (r: seq<Bookmark>)
    ensures |r| <= |s|
    ensures forall i :: 0 <= i < |r| ==> r[i].id != id
    ensures forall i :: 0 <= i < |s| && s[i].id != id ==> s[i] in r
    ensures forall i :: 0 <= i < |r| ==> r[i] in s
    decreases |s|
  {
    if s == [] then []
    else if s[0].id == id then RemoveById(s[1..], id)
    else [s[0]] + RemoveById(s[1..], id)
  }

  /** Exactly the entries with identifier `id` disappear; every other entry keeps its multiplicity. */
  lemma {:induction false} RemoveByIdCounts(s: seq<Bookmark>, id: BookmarkId)
    ensures forall b :: multiset(RemoveById(s, id))[b] == if b.id == id then 0 else multiset(s)[b]
    decreases |s|
  {
    if s != [] {
      RemoveByIdCounts(s[1..], id);
      assert s == [s[0]] + s[1..];
      assert multiset(s) == multiset{s[0]} + multiset(s[1..]);
    }
  }

  /** The remaining entries keep their relative order. */
  lemma {:induction false} RemoveByIdKeepsOrder(s: seq<Bookmark>, id: BookmarkId)
    ensures IsSubsequence(RemoveById(s, id), s)
    decreases |s|
  {
    if s != [] {
      RemoveByIdKeepsOrder(s[1..], id);
      if s[0].id != id {
        var r := RemoveById(s, id);
        assert r[0] == s[0] && r[1..] == RemoveById(s[1..], id);
      }
    }
  }

  /** Deleting an identifier no entry carries leaves the list as it was. */
  lemma {:induction false} RemoveByIdAbsent(s: seq<Bookmark>, id: BookmarkId)
    requires !HasId(s, id)
    ensures RemoveById(s, id) == s
    decreases |s|
  {
    if s != [] {
      assert s[0].id != id;
      assert !HasId(s[1..], id) by {
        forall i | 0 <= i < |s[1..]| ensures s[1..][i].id != id {
          assert s[1..][i] == s[i + 1];
        }
      }
      RemoveByIdAbsent(s[1..], id);
      assert s == [s[0]] + s[1..];
    }
  }

  /** The list shrinks exactly when some entry carries the identifier. */
  lemma {:induction false} RemoveByIdShrinks(s: seq<Bookmark>, id: BookmarkId)
    ensures |RemoveById(s, id)| < |s| <==> HasId(s, id)
    decreases |s|
  {
    if s != [] {
      RemoveByIdShrinks(s[1..], id);
      if s[0].id != id {
        assert HasId(s, id) <==> HasId(s[1..], id) by {
          if HasId(s, id) {
            var i :| 0 <= i < |s| && s[i].id == id;
            assert s[1..][i - 1] == s[i];
          }
          if HasId(s[1..], id) {
            var i :| 0 <= i < |s[1..]| && s[1..][i].id == id;
            assert s[i + 1] == s[1..][i];
          }
        }
      } else {
        assert HasId(s, id) by { assert s[0].id == id; }
      }
    }
  }

  /** Deleting the same identifier twice gives the list a single delete gives. */
  lemma {:induction false} RemoveByIdIdempotent(s: seq<Bookmark>, id: BookmarkId)
    ensures RemoveById(RemoveById(s, id), id) == RemoveById(s, id)
  {
    RemoveByIdAbsent(RemoveById(s, id), id);
  }

  /** Two successful deletes give the same list whichever reply is applied first. */
  lemma {:induction false} RemoveByIdCommutes(s: seq<Bookmark>, a: BookmarkId, b: BookmarkId)
    ensures RemoveById(RemoveById(s, a), b) == RemoveById(RemoveById(s, b), a)
    decreases |s|
  {
    if s != [] {
      RemoveByIdCommutes(s[1..], a, b);
      if s[0].id != a && s[0].id != b {
        assert RemoveById(s, a) == [s[0]] + RemoveById(s[1..], a);
        assert RemoveById(s, b) == [s[0]] + RemoveById(s[1..], b);
        assert RemoveById(s, a)[1..] == RemoveById(s[1..], a);
        assert RemoveById(s, b)[1..] == RemoveById(s[1..], b);
      } else if s[0].id == a && s[0].id != b {
        assert RemoveById(s, b)[1..] == RemoveById(s[1..], b);
      } else if s[0].id != a && s[0].id == b {
        assert RemoveById(s, a)[1..] == RemoveById(s[1..], a);
      }
    }
  }

  /** A successful insert that returned at least one row. */
  predicate InsertReturnedRow(reply: InsertReply) {
    reply.Inserted? && reply.data.Some? && |reply.data.value| > 0
  }

  /**
   * The list after an insert reply, `[data[0], ...prev]` when rows came back.
   * An error, or a success without rows, leaves the list alone.
   */
  function AfterInsert(prev: seq<Bookmark>, reply: InsertReply): (r: seq<Bookmark>)
    ensures InsertReturnedRow(reply) ==> |r| == |prev| + 1 && r[0] == reply.data.value[0] && r[1..] == prev
    ensures !InsertReturnedRow(reply) ==> r == prev
  {
    if InsertReturnedRow(reply) then [reply.data.value[0]] + prev else prev
  }

  /** Deleting the row an insert returned restores the list from before the insert. */
  lemma DeleteUndoesInsert(prev: seq<Bookmark>, reply: InsertReply)
    requires InsertReturnedRow(reply) && !HasId(prev, reply.data.value[0].id)
    ensures RemoveById(AfterInsert(prev, reply), reply.data.value[0].id) == prev
  {
    var row := reply.data.value[0];
    assert AfterInsert(prev, reply) == [row] + prev;
    assert ([row] + prev)[1..] == prev;
    RemoveByIdAbsent(prev, row.id);
  }

  /** The list after a select reply: the returned rows on success, unchanged on error. */
  function AfterSelect(prev: seq<Bookmark>, reply: SelectReply): (r: seq<Bookmark>)
    ensures reply.Selected? ==> r == reply.rows
    ensures reply.SelectFailed? ==> r == prev
  {
    match reply
    case Selected(rows) => rows
    case SelectFailed(_) => prev
  }

  /** A successful select replaces the list wholesale: what was there before does not matter. */
  lemma SelectForgetsPrevious(p: seq<Bookmark>, q: seq<Bookmark>, reply: SelectReply)
    requires reply.Selected?
    ensures AfterSelect(p, reply) == AfterSelect(q, reply) == reply.rows
  {
  }

  /** Applying the same select reply twice gives the list one application gives. */
  lemma SelectIdempotent(prev: seq<Bookmark>, reply: SelectReply)
    ensures AfterSelect(AfterSelect(prev, reply), reply) == AfterSelect(prev, reply)
  {
  }
}
