/** The generic table helpers of the back end (internal/repository/crud.go).
    A positional table (items, blog posts) is a sequence of rows; the helpers
    reach three columns by reflection -- ID, Position and language -- and
    carry the rest of the record along untouched. */
module Crud {
  import opened Common

  /** A row of a positional table: the columns the generic helpers read and
      write, and the rest of the record as `data`. */
  datatype Row<T> = Row(id: Uuid, position: int, language: string, data: T)

  /** `ShiftPositions` selects a row iff this holds. */
  predicate InShift<T>(r: Row<T>, newPosition: int, language: string)
  {
    r.position >= newPosition && r.language == language
  }

  /** The row as `ShiftPositions` saves it. */
  function Bumped<T>(r: Row<T>, newPosition: int, language: string): Row<T>
  {
    if InShift(r, newPosition, language) then r.(position := r.position + 1) else r
  }

  /** The table after `ShiftPositions(newPosition, language)`. */
  function Shifted<T>(rows: seq<Row<T>>, newPosition: int, language: string): (r: seq<Row<T>>)
    ensures |r| == |rows|
    ensures forall i :: 0 <= i < |rows| ==> r[i] == Bumped(rows[i], newPosition, language)
  {
    seq(|rows|, i requires 0 <= i < |rows| => Bumped(rows[i], newPosition, language))
  }

  /** ShiftPositions: every row of `language` at or above `newPosition` is
      raised by one and saved; the selection, the increments and the saves
      are done here in one pass over the table. */
  method ShiftPositions<T>(rows: seq<Row<T>>, newPosition: int, language: string)
    returns (updated: seq<Row<T>>)
    ensures updated == Shifted(rows, newPosition, language)
  {
    updated := rows;
    var i := 0;
    while i < |rows|
      invariant 0 <= i <= |rows| && |updated| == |rows|
      invariant forall k :: 0 <= k < i ==> updated[k] == Bumped(rows[k], newPosition, language)
      invariant forall k :: i <= k < |rows| ==> updated[k] == rows[k]
    {
      if rows[i].position >= newPosition && rows[i].language == language {
        updated := updated[i := rows[i].(position := rows[i].position + 1)];
      }
      i := i + 1;
    }
  }

  /** Rows of the shifted language that were selected gain exactly one;
      all other rows, and every id, language and payload, are unchanged. */
  lemma ShiftMovesExactlyTheSelected<T>(rows: seq<Row<T>>, newPosition: int, language: string, i: int)
    requires 0 <= i < |rows|
    ensures var s := Shifted(rows, newPosition, language)[i];
      && s.id == rows[i].id && s.language == rows[i].language && s.data == rows[i].data
      && s.position == if rows[i].position >= newPosition && rows[i].language == language
                       then rows[i].position + 1 else rows[i].position
  {
  }

  /** After a shift no row of the shifted language holds `newPosition`: the
      slot is free for the caller. */
  lemma ShiftFreesSlot<T>(rows: seq<Row<T>>, newPosition: int, language: string)
    ensures forall r :: r in Shifted(rows, newPosition, language) ==>
              r.language == language ==> r.position != newPosition
  {
    var s := Shifted(rows, newPosition, language);
    forall r | r in s && r.language == language
      ensures r.position != newPosition
    {
      var i :| 0 <= i < |s| && s[i] == r;
      assert r == Bumped(rows[i], newPosition, language);
    }
  }

  /** Within one language a shift keeps the relative order of positions, both
      strict and non-strict, so the order of the moved records is kept. */
  lemma ShiftPreservesOrder<T>(rows: seq<Row<T>>, newPosition: int, language: string, i: int, j: int)
    requires 0 <= i < |rows| && 0 <= j < |rows|
    requires rows[i].language == rows[j].language
    ensures var s := Shifted(rows, newPosition, language);
      && (rows[i].position < rows[j].position <==> s[i].position < s[j].position)
      && (rows[i].position <= rows[j].position <==> s[i].position <= s[j].position)
  {
  }

  /** With no selected row the shift changes nothing. */
  lemma ShiftWithoutMatchIsIdentity<T>(rows: seq<Row<T>>, newPosition: int, language: string)
    requires forall r :: r in rows ==> !InShift(r, newPosition, language)
    ensures Shifted(rows, newPosition, language) == rows
  {
    var s := Shifted(rows, newPosition, language);
    assert forall i :: 0 <= i < |rows| ==> s[i] == rows[i] by {
      forall i | 0 <= i < |rows| ensures s[i] == rows[i] {
        assert rows[i] in rows;
      }
    }
  }

  /** The ids of a table, in row order. */
  function Ids<T>(rows: seq<Row<T>>): (r: seq<Uuid>)
    ensures |r| == |rows|
    ensures forall i :: 0 <= i < |rows| ==> r[i] == rows[i].id
  {
    seq(|rows|, i requires 0 <= i < |rows| => rows[i].id)
  }

  /** A shift creates and deletes no record. */
  lemma ShiftKeepsRecords<T>(rows: seq<Row<T>>, newPosition: int, language: string)
    ensures Ids(Shifted(rows, newPosition, language)) == Ids(rows)
  {
  }

  /** GetPosition: does any row -- of any language -- hold `position`? */
  predicate PositionTaken<T>(rows: seq<Row<T>>, position: int)
  {
    exists i :: 0 <= i < |rows| && rows[i].position == position
  }

  /** GetPosition does not filter by language: a row of another language is
      enough to report the position as taken. */
  lemma PositionTakenIgnoresLanguage<T>(rows: seq<Row<T>>, r: Row<T>, language: string)
    requires r in rows && r.language != language
    ensures PositionTaken(rows, r.position)
  {
    var i :| 0 <= i < |rows| && rows[i] == r;
  }

  /** CreateEssence: a nil ID is replaced by `freshId` (uuid.New()); any
      other ID is left as given. */
  function CreateEssenceId(id: Uuid, freshId: Uuid): (r: Uuid)
    requires freshId != NilId
    ensures r != NilId
    ensures id != NilId ==> r == id
    ensures id == NilId ==> r == freshId
  {
    if id == NilId then freshId else id
  }

  /** GetByID: the first row with `id` (`First` with a primary key). */
  function FindById<T>(rows: seq<Row<T>>, id: Uuid): (r: Option<Row<T>>)
    ensures r.None? <==> forall i :: 0 <= i < |rows| ==> rows[i].id != id
    ensures r.Some? ==> r.value in rows && r.value.id == id
  {
    if |rows| == 0 then None
    else if rows[0].id == id then Some(rows[0])
    else FindById(rows[1..], id)
  }

  /** A row saved over a stored row of the same id is what GetByID finds afterwards. */
  lemma {:induction false} FindSavedRow<T>(rows: seq<Row<T>>, k: int, r: Row<T>)
    requires 0 <= k < |rows| && rows[k].id == r.id
    ensures FindById(SaveRow(rows, r), r.id) == Some(r)
  {
    var s := SaveRow(rows, r);
    assert s[k] == r;
    var f := FindById(s, r.id);
    var j :| 0 <= j < |s| && s[j] == f.value;
    assert rows[j].id == r.id;
  }

  /** DeleteByID: the table without the rows whose id is `id`; a missing row
      is not an error, so the helper always reports success. */
  function DeleteById<T(!new)>(rows: seq<Row<T>>, id: Uuid): (r: seq<Row<T>>)
    ensures forall x :: x in r <==> x in rows && x.id != id
    ensures |r| <= |rows|
  {
    if |rows| == 0 then []
    else (if rows[0].id == id then [] else [rows[0]]) + DeleteById(rows[1..], id)
  }

  /** db.Save on a loaded record: the row with the record's id is replaced. */
  function SaveRow<T>(rows: seq<Row<T>>, r: Row<T>): (s: seq<Row<T>>)
    ensures |s| == |rows|
    ensures forall i :: 0 <= i < |rows| ==> s[i] == if rows[i].id == r.id then r else rows[i]
  {
    seq(|rows|, i requires 0 <= i < |rows| => if rows[i].id == r.id then r else rows[i])
  }

  // ---- ORDER BY position ASC ----

  predicate SortedByPosition<T>(rows: seq<Row<T>>)
  {
    forall i, j :: 0 <= i < j < |rows| ==> rows[i].position <= rows[j].position
  }

  /** Every row of a permutation of the tail plus a later row sits at or
      above the head of a sorted table. */
  lemma {:induction false} FirstBoundsRest<T>(rows: seq<Row<T>>, r: Row<T>, t: seq<Row<T>>)
    requires SortedByPosition(rows) && |rows| > 0 && rows[0].position < r.position
    requires multiset(t) == multiset(rows[1..]) + multiset{r}
    ensures forall k :: 0 <= k < |t| ==> rows[0].position <= t[k].position
  {
    forall k | 0 <= k < |t| ensures rows[0].position <= t[k].position {
      assert t[k] in multiset(t);
      if t[k] != r {
        assert t[k] in multiset(rows[1..]);
        var m :| 0 <= m < |rows[1..]| && rows[1..][m] == t[k];
        assert rows[m + 1] == t[k];
      }
    }
  }

  /** Inserts `r` into a sorted table before the first row that is not lower. */
  function Insert<T>(r: Row<T>, rows: seq<Row<T>>): (s: seq<Row<T>>)
    requires SortedByPosition(rows)
    ensures SortedByPosition(s)
    ensures multiset(s) == multiset(rows) + multiset{r}
    ensures |s| == |rows| + 1
  {
    if |rows| == 0 || r.position <= rows[0].position then [r] + rows
    else
      var t := Insert(r, rows[1..]);
      assert rows == [rows[0]] + rows[1..];
      FirstBoundsRest(rows, r, t);
      var s := [rows[0]] + t;
      assert forall i, j :: 0 <= i < j < |s| ==> s[i].position <= s[j].position by {
        forall i, j | 0 <= i < j < |s| ensures s[i].position <= s[j].position {
          if i > 0 {
            assert s[i] == t[i - 1] && s[j] == t[j - 1];
          }
        }
      }
      s
  }

  /** The rows ordered by position (SQL `ORDER BY position ASC`). */
  function SortByPosition<T>(rows: seq<Row<T>>): (s: seq<Row<T>>)
    ensures SortedByPosition(s)
    ensures multiset(s) == multiset(rows)
    ensures |s| == |rows|
  {
    if |rows| == 0 then []
    else
      assert rows == [rows[0]] + rows[1..];
      Insert(rows[0], SortByPosition(rows[1..]))
  }

  /** Sorting keeps exactly the rows it was given. */
  lemma SortKeepsRows<T>(rows: seq<Row<T>>, x: Row<T>)
    ensures x in SortByPosition(rows) <==> x in rows
  {
    var s := SortByPosition(rows);
    assert x in s <==> x in multiset(s);
    assert x in rows <==> x in multiset(rows);
  }

  /** A window of a sorted answer is sorted. */
  lemma WindowKeepsOrder<T>(rows: seq<Row<T>>, skip: nat, limit: nat)
    requires SortedByPosition(rows)
    ensures SortedByPosition(Window(rows, skip, limit))
  {
    var w := Window(rows, skip, limit);
    forall i, j | 0 <= i < j < |w| ensures w[i].position <= w[j].position {
      assert w[i] == rows[skip + i] && w[j] == rows[skip + j];
    }
  }
}
