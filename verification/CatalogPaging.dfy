/**
 Look-ahead paging over an ordered product list: one row more than the page is fetched, to know whether to hand out
 a cursor.
 */
module CatalogPaging {
  import opened Wrappers

  datatype Id = Id(uuid: string)

  datatype Page = Page(data: seq<Id>, hasNextPage: bool, nextCursor: Option<Id>)

  /** The rows behind the first one with the id; an unknown id has none. */
  function After(rows: seq<Id>, id: Id): seq<Id> {
    if rows == [] then [] else if rows[0] == id then rows[1..] else After(rows[1..], id)
  }

  /** The rows behind the cursor, at most `take` of them. */
  function FindMany(rows: seq<Id>, cursor: Option<Id>, take: nat): seq<Id> {
    var rest := if cursor.None? then rows else After(rows, cursor.value);
    if |rest| <= take then rest else rest[..take]
  }

  /** The paging at the end of listPublishedProducts. */
  function ListPage(rows: seq<Id>, cursor: Option<Id>, limit: nat): Page {
    var fetched := FindMany(rows, cursor, limit + 1);
    var hasNextPage := |fetched| > limit;
    var data := if hasNextPage then fetched[..limit] else fetched;
    Page(data, hasNextPage, if hasNextPage && data != [] then Some(data[|data| - 1]) else None)
  }

  ghost predicate Distinct(rows: seq<Id>) {
    forall i, j :: 0 <= i < j < |rows| ==> rows[i] != rows[j]
  }

  lemma {:induction false} AfterIs(rows: seq<Id>, k: nat)
    requires Distinct(rows) && k < |rows|
    ensures After(rows, rows[k]) == rows[k + 1..]
  {
    if k > 0 {
      assert rows[0] != rows[k] && rows[1..][k - 1] == rows[k];
      AfterIs(rows[1..], k - 1);
      assert rows[1..][k..] == rows[k + 1..];
    }
  }

  /** Following the cursors from a place in the list until there is none. */
  function Follow(rows: seq<Id>, cursor: Option<Id>, limit: nat, fuel: nat): seq<Id>
    decreases fuel
  {
    var page := ListPage(rows, cursor, limit);
    page.data + if page.nextCursor.Some? && fuel > 0 then Follow(rows, page.nextCursor, limit, fuel - 1) else []
  }

  /** The cursor handed out at a place in the list: that of the row before it. */
  function CursorAt(rows: seq<Id>, start: nat): Option<Id>
    requires start <= |rows|
  {
    if start == 0 then None else Some(rows[start - 1])
  }

  lemma FetchAt(rows: seq<Id>, start: nat, take: nat)
    requires Distinct(rows) && start <= |rows|
    ensures FindMany(rows, CursorAt(rows, start), take) == if |rows| - start <= take then rows[start..]
                                                           else rows[start..start + take]
  {
    if start > 0 { AfterIs(rows, start - 1); } else { assert rows[0..] == rows; }
  }

  /** What a page is, given the rows fetched for it. */
  lemma PageOf(rows: seq<Id>, cursor: Option<Id>, limit: nat, fetched: seq<Id>)
    requires fetched == FindMany(rows, cursor, limit + 1) && limit >= 1
    ensures ListPage(rows, cursor, limit) ==
            if |fetched| > limit then Page(fetched[..limit], true, Some(fetched[limit - 1]))
            else Page(fetched, false, None)
  {
  }

  lemma PageAt(rows: seq<Id>, start: nat, limit: nat)
    requires Distinct(rows) && start <= |rows| && limit >= 1
    ensures ListPage(rows, CursorAt(rows, start), limit) ==
            if |rows| - start > limit then Page(rows[start..start + limit], true, CursorAt(rows, start + limit))
            else Page(rows[start..], false, None)
  {
    FetchAt(rows, start, limit + 1);
    var fetched := if |rows| - start > limit then rows[start..start + (limit + 1)] else rows[start..];
    PageOf(rows, CursorAt(rows, start), limit, fetched);
    assert |rows| - start > limit ==> fetched[..limit] == rows[start..start + limit];
  }

  lemma Cut(rows: seq<Id>, i: nat, j: nat)
    requires i <= j <= |rows|
    ensures rows[i..j] + rows[j..] == rows[i..]
  {
  }

  lemma {:induction false} FollowOn(rows: seq<Id>, cursor: Option<Id>, limit: nat, fuel: nat, page: Page)
    requires page == ListPage(rows, cursor, limit)
    ensures Follow(rows, cursor, limit, fuel) ==
            if page.nextCursor.Some? && fuel > 0 then page.data + Follow(rows, page.nextCursor, limit, fuel - 1)
            else page.data
  {
    assert page.data + [] == page.data;
  }

  /** What a client sees that starts at a place in the list. */
  ghost predicate Sees(rows: seq<Id>, start: nat, limit: nat, fuel: nat, all: seq<Id>)
    requires start <= |rows|
  {
    Follow(rows, CursorAt(rows, start), limit, fuel) == all
  }

  lemma LastPage(rows: seq<Id>, start: nat, limit: nat, fuel: nat)
    requires Distinct(rows) && start <= |rows| && limit >= 1 && |rows| - start <= limit
    ensures Sees(rows, start, limit, fuel, rows[start..])
  {
    PageAt(rows, start, limit);
    FollowOn(rows, CursorAt(rows, start), limit, fuel, Page(rows[start..], false, None));
  }

  /** What a client sees from a place on is a page and what it sees from the end of that page on. */
  lemma MorePages(rows: seq<Id>, start: nat, limit: nat, fuel: nat)
    requires Distinct(rows) && limit >= 1 && start + limit < |rows| && fuel > 0
    requires Sees(rows, start + limit, limit, fuel - 1, rows[start + limit..])
    ensures Sees(rows, start, limit, fuel, rows[start..])
  {
    var page := Page(rows[start..start + limit], true, CursorAt(rows, start + limit));
    PageAt(rows, start, limit);
    FollowOn(rows, CursorAt(rows, start), limit, fuel, page);
    assert page.nextCursor == CursorAt(rows, start + limit) && page.nextCursor.Some?;
    Cut(rows, start, start + limit);
  }

  lemma {:induction false} SeesTheRest(rows: seq<Id>, start: nat, limit: nat, fuel: nat)
    requires Distinct(rows) && start <= |rows| && limit >= 1 && fuel >= |rows| - start
    ensures Sees(rows, start, limit, fuel, rows[start..])
    decreases fuel
  {
    if |rows| - start <= limit {
      LastPage(rows, start, limit, fuel);
    } else {
      SeesTheRest(rows, start + limit, limit, fuel - 1);
      MorePages(rows, start, limit, fuel);
    }
  }

  /** Over an unchanging list, a client that follows the cursors sees every product exactly once and in order. */
  lemma PagesCoverList(rows: seq<Id>, limit: nat)
    requires Distinct(rows)
    ensures Follow(rows, None, limit, |rows|) == rows <==> limit >= 1 || rows == []
  {
    if limit >= 1 {
      SeesTheRest(rows, 0, limit, |rows|);
      assert rows[0..] == rows;
    } else {
      assert ListPage(rows, None, 0).data == [];
    }
  }
}
