/**
 * The `favourites` table of backend/src/database.ts and the three prepared
 * statements run against it (list, insert, delete by image URL).
 *
 * The table is state that the statements change in place, so it is a class.
 * The rows are kept in insertion (rowid) order; SQLite's AUTOINCREMENT counter
 * is `nextId`, and CURRENT_TIMESTAMP is an abstract clock that only moves
 * forward. The functions and lemmas before the class describe row sequences
 * as values and are what the statements' contracts are stated in.
 */
module Database {
  import opened Outcomes

  /** A row: `id`, `image_url`, `breed`, `created_at`. */
  datatype Favourite = Favourite(id: nat, imageUrl: string, breed: string, createdAt: nat)

  /** Why a statement threw: the UNIQUE constraint on `image_url`, or any other engine failure. */
  datatype SqlError = UniqueConstraintFailed | EngineFailure

  /** A write statement as it was run against the table. */
  datatype Statement = InsertFavourite(imageUrl: string, breed: string) | DeleteFavourite(imageUrl: string)

  /** The image URLs present in `rows`. */
  function Urls(rows: seq<Favourite>): set<string>
  {
    set i | 0 <= i < |rows| :: rows[i].imageUrl
  }

  /** `image_url TEXT UNIQUE`: no two rows share an image URL. */
  predicate UniqueUrls(rows: seq<Favourite>)
  {
    forall i, j | 0 <= i < j < |rows| :: rows[i].imageUrl != rows[j].imageUrl
  }

  /** Rows in non-decreasing `created_at` order (the order they were inserted in). */
  predicate OldestFirst(rows: seq<Favourite>)
  {
    forall i, j | 0 <= i < j < |rows| :: rows[i].createdAt <= rows[j].createdAt
  }

  /** `id INTEGER PRIMARY KEY AUTOINCREMENT`: ids strictly increase in insertion order, so none repeats. */
  predicate IdsAscending(rows: seq<Favourite>)
  {
    forall i, j | 0 <= i < j < |rows| :: rows[i].id < rows[j].id
  }

  /** `ORDER BY created_at DESC`: non-increasing `created_at`. */
  predicate NewestFirst(rows: seq<Favourite>)
  {
    forall i, j | 0 <= i < j < |rows| :: rows[i].createdAt >= rows[j].createdAt
  }

  /** `DELETE FROM favourites WHERE image_url = ?` on a row sequence: every matching row goes. */
  function Without(rows: seq<Favourite>, url: string): (r: seq<Favourite>)
    ensures |r| <= |rows|
    ensures Urls(r) == Urls(rows) - {url}
    ensures forall x | x in r :: x in rows
  {
    if rows == [] then []
    else
      UrlsCons(rows[0], rows[1..]);
      var rest := Without(rows[1..], url);
      if rows[0].imageUrl == url then rest
      else UrlsCons(rows[0], rest); [rows[0]] + rest
  }

  lemma UrlsCons(x: Favourite, rows: seq<Favourite>)
    ensures Urls([x] + rows) == {x.imageUrl} + Urls(rows)
  {
    var s := [x] + rows;
    forall u | u in Urls(rows) ensures u in Urls(s) {
      var k :| 0 <= k < |rows| && rows[k].imageUrl == u;
      assert s[k + 1].imageUrl == u;
    }
    assert s[0].imageUrl == x.imageUrl;
    forall u | u in Urls(s) ensures u == x.imageUrl || u in Urls(rows) {
      var k :| 0 <= k < |s| && s[k].imageUrl == u;
      if k > 0 {
        assert rows[k - 1].imageUrl == u;
      }
    }
  }

  /** The rows back to front. */
  function Reversed(rows: seq<Favourite>): (r: seq<Favourite>)
    ensures |r| == |rows|
    ensures forall i | 0 <= i < |rows| :: r[i] == rows[|rows| - 1 - i]
  {
    if rows == [] then [] else Reversed(rows[1..]) + [rows[0]]
  }

  /** Deleting a URL that no row has changes nothing. */
  lemma {:induction false} WithoutAbsent(rows: seq<Favourite>, url: string)
    requires url !in Urls(rows)
    ensures Without(rows, url) == rows
  {
    if rows != [] {
      assert rows[0].imageUrl in Urls(rows);
      assert Urls(rows[1..]) <= Urls(rows) by {
        forall u | u in Urls(rows[1..]) ensures u in Urls(rows) {
          var k :| 0 <= k < |rows[1..]| && rows[1..][k].imageUrl == u;
          assert rows[k + 1].imageUrl == u;
        }
      }
      WithoutAbsent(rows[1..], url);
    }
  }

  /** Deletion distributes over concatenation. */
  lemma {:induction false} WithoutAppend(a: seq<Favourite>, b: seq<Favourite>, url: string)
    ensures Without(a + b, url) == Without(a, url) + Without(b, url)
  {
    if a == [] {
      assert a + b == b;
    } else {
      assert (a + b)[1..] == a[1..] + b;
      WithoutAppend(a[1..], b, url);
    }
  }

  /** Deleting a URL that row `i` holds in a table with unique URLs removes exactly row `i`. */
  lemma {:induction false} WithoutUniqueAt(rows: seq<Favourite>, i: nat)
    requires UniqueUrls(rows)
    requires i < |rows|
    ensures Without(rows, rows[i].imageUrl) == rows[..i] + rows[i + 1..]
  {
    var url := rows[i].imageUrl;
    if i == 0 {
      assert url !in Urls(rows[1..]);
      WithoutAbsent(rows[1..], url);
    } else {
      assert rows[1..][i - 1] == rows[i];
      WithoutUniqueAt(rows[1..], i - 1);
      assert rows[..i] == [rows[0]] + rows[1..][..i - 1];
      assert rows[i + 1..] == rows[1..][i..];
    }
  }

  /** In a table with unique URLs a delete removes one row if the URL is present and none otherwise. */
  lemma WithoutCount(rows: seq<Favourite>, url: string)
    requires UniqueUrls(rows)
    ensures |Without(rows, url)| == |rows| - (if url in Urls(rows) then 1 else 0)
  {
    if url in Urls(rows) {
      var i :| 0 <= i < |rows| && rows[i].imageUrl == url;
      WithoutUniqueAt(rows, i);
    } else {
      WithoutAbsent(rows, url);
    }
  }

  /** Deleting keeps URLs unique. */
  lemma {:induction false} WithoutUnique(rows: seq<Favourite>, url: string)
    requires UniqueUrls(rows)
    ensures UniqueUrls(Without(rows, url))
  {
    if rows != [] {
      assert UniqueUrls(rows[1..]);
      WithoutUnique(rows[1..], url);
      if rows[0].imageUrl != url {
        var w := Without(rows[1..], url);
        assert rows[0].imageUrl !in Urls(rows[1..]);
        assert forall k | 0 <= k < |w| :: w[k].imageUrl in Urls(w);
      }
    }
  }

  /** Deleting keeps the surviving rows in their relative order, so insertion order survives. */
  lemma {:induction false} WithoutOldestFirst(rows: seq<Favourite>, url: string)
    requires OldestFirst(rows)
    ensures OldestFirst(Without(rows, url))
  {
    if rows != [] {
      WithoutOldestFirst(rows[1..], url);
      var w := Without(rows[1..], url);
      assert forall x | x in w :: rows[0].createdAt <= x.createdAt;
    }
  }

  /** Inserting a new URL and then deleting it gives back the rows that were there before. */
  lemma AddThenRemoveRestores(rows: seq<Favourite>, row: Favourite)
    requires row.imageUrl !in Urls(rows)
    ensures Without(rows + [row], row.imageUrl) == rows
  {
    WithoutAppend(rows, [row], row.imageUrl);
    WithoutAbsent(rows, row.imageUrl);
  }

  /** Rows kept oldest first, read back to front, are newest first and hold the same rows. */
  lemma {:induction false} ReversedListing(rows: seq<Favourite>)
    requires OldestFirst(rows)
    ensures NewestFirst(Reversed(rows))
    ensures multiset(Reversed(rows)) == multiset(rows)
  {
    if rows != [] {
      ReversedListing(rows[1..]);
      assert rows == [rows[0]] + rows[1..];
    }
  }

  /** The `favourites` table with its AUTOINCREMENT counter and the timestamp clock. */
  class FavouritesTable {
    /** The rows, in insertion order. */
    var rows: seq<Favourite>
    /** The id the next insert receives: one more than the largest id ever assigned. */
    var nextId: nat
    /** The latest CURRENT_TIMESTAMP given to a row. */
    var clock: nat
    /** Every id ever assigned, including those of deleted rows. */
    ghost var issued: set<nat>
    /** The write statements run against the table, in order. */
    ghost var statements: seq<Statement>

    ghost predicate Valid()
      reads this
    {
      && UniqueUrls(rows)
      && OldestFirst(rows)
      && (forall x | x in issued :: x < nextId)
      && (forall i | 0 <= i < |rows| :: rows[i].id in issued && rows[i].createdAt <= clock)
      && IdsAscending(rows)
    }

    /** `CREATE TABLE IF NOT EXISTS favourites (...)` on a fresh database. */
    constructor ()
      ensures Valid()
      ensures rows == [] && nextId == 1 && clock == 0 && issued == {} && statements == []
    {
      rows, nextId, clock := [], 1, 0;
      issued, statements := {}, [];
    }

    /**
     * `INSERT INTO favourites (image_url, breed) VALUES (?, ?)`. `tick` is how far
     * the clock has moved since the last insert; `fault` says whether the engine
     * fails for a reason outside this model. A failing statement changes nothing.
     * On success the result is the new row's id (`lastInsertRowid`).
     */
    method Add(imageUrl: string, breed: string, tick: nat, fault: bool) returns (r: Result<nat, SqlError>)
      requires Valid()
      modifies this
      ensures Valid()
      ensures statements == old(statements) + [InsertFavourite(imageUrl, breed)]
      ensures fault ==> r == Failure(EngineFailure)
      ensures !fault && imageUrl in Urls(old(rows)) ==> r == Failure(UniqueConstraintFailed)
      ensures !fault && imageUrl !in Urls(old(rows)) ==> r == Success(old(nextId))
      ensures r.Failure? ==>
        rows == old(rows) && nextId == old(nextId) && clock == old(clock) && issued == old(issued)
      ensures r.Success? ==>
        && rows == old(rows) + [Favourite(r.value, imageUrl, breed, old(clock) + tick)]
        && (forall x | x in old(issued) :: x < r.value)
        && nextId == r.value + 1
        && clock == old(clock) + tick
        && issued == old(issued) + {r.value}
    {
      statements := statements + [InsertFavourite(imageUrl, breed)];
      if fault {
        r := Failure(EngineFailure);
      } else if imageUrl in Urls(rows) {
        r := Failure(UniqueConstraintFailed);
      } else {
        var row := Favourite(nextId, imageUrl, breed, clock + tick);
        rows := rows + [row];
        issued := issued + {nextId};
        r := Success(nextId);
        nextId := nextId + 1;
        clock := clock + tick;
      }
    }

    /**
     * `DELETE FROM favourites WHERE image_url = ?`. On success the result is
     * the statement's change count.
     */
    method Remove(imageUrl: string, fault: bool) returns (r: Result<nat, SqlError>)
      requires Valid()
      modifies this
      ensures Valid()
      ensures statements == old(statements) + [DeleteFavourite(imageUrl)]
      ensures nextId == old(nextId) && clock == old(clock) && issued == old(issued)
      ensures fault ==> r == Failure(EngineFailure) && rows == old(rows)
      ensures !fault ==> rows == Without(old(rows), imageUrl)
      ensures !fault ==> r == Success(if imageUrl in Urls(old(rows)) then 1 else 0)
    {
      statements := statements + [DeleteFavourite(imageUrl)];
      if fault {
        r := Failure(EngineFailure);
      } else {
        var before := rows;
        WithoutCount(before, imageUrl);
        WithoutUnique(before, imageUrl);
        WithoutOldestFirst(before, imageUrl);
        rows := Without(rows, imageUrl);
        assert forall i | 0 <= i < |rows| :: rows[i] in before;
        WithoutIdsAscending(before, imageUrl);
        r := Success(|before| - |rows|);
      }
    }

    /** `SELECT * FROM favourites ORDER BY created_at DESC`; the table is not changed. */
    method List(fault: bool) returns (r: Result<seq<Favourite>, SqlError>)
      requires Valid()
      ensures fault ==> r == Failure(EngineFailure)
      ensures !fault ==> r.Success? && multiset(r.value) == multiset(rows) && NewestFirst(r.value)
    {
      if fault {
        r := Failure(EngineFailure);
      } else {
        ReversedListing(rows);
        r := Success(Reversed(rows));
      }
    }
  }

  /** Deleting keeps ids in ascending order. */
  lemma {:induction false} WithoutIdsAscending(rows: seq<Favourite>, url: string)
    requires IdsAscending(rows)
    ensures IdsAscending(Without(rows, url))
  {
    if rows != [] {
      WithoutIdsAscending(rows[1..], url);
      var w := Without(rows[1..], url);
      forall x | x in w ensures rows[0].id < x.id {
        var k :| 0 <= k < |rows[1..]| && rows[1..][k] == x;
        assert rows[k + 1] == x;
      }
      if rows[0].imageUrl != url {
        var v := [rows[0]] + w;
        assert Without(rows, url) == v;
        forall i, j | 0 <= i < j < |v| ensures v[i].id < v[j].id {
          assert v[j] == w[j - 1];
          if i > 0 {
            assert v[i] == w[i - 1];
          }
        }
      } else {
        assert Without(rows, url) == w;
      }
    }
  }

  /**
   * An insert of a new URL followed by a delete of it leaves the rows as they
   * were; only the AUTOINCREMENT counter has moved on.
   */
  method AddThenRemove(table: FavouritesTable, imageUrl: string, breed: string, tick: nat)
    requires table.Valid()
    requires imageUrl !in Urls(table.rows)
    modifies table
    ensures table.Valid()
    ensures table.rows == old(table.rows)
    ensures table.nextId == old(table.nextId) + 1
  {
    var added := table.Add(imageUrl, breed, tick, false);
    var removed := table.Remove(imageUrl, false);
    AddThenRemoveRestores(old(table.rows), Favourite(added.value, imageUrl, breed, old(table.clock) + tick));
  }
}
