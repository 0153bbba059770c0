/**
 * The subscription store: the SQLite table
 *   watches(id INTEGER PRIMARY KEY AUTOINCREMENT, user_id, date, created_at,
 *           UNIQUE(user_id, date))
 * held in memory as its rows in rowid order. AUTOINCREMENT means a new row
 * always goes after every existing one, so rowid order is insertion order.
 */
module Watches {
  import opened PyStr

  /** One row of the table: `user` wants to hear about tickets on `date`. */
  datatype Watch = Watch(user: int, date: string)

  predicate NoDuplicates<T(==)>(s: seq<T>)
  {
    forall i, j :: 0 <= i < j < |s| ==> s[i] != s[j]
  }

  /** The dates that at least one row mentions. */
  function WatchedDates(rows: seq<Watch>): set<string>
  {
    set w | w in rows :: w.date
  }

  /** `SELECT DISTINCT date FROM watches`. The query has no ORDER BY, so SQLite
      may answer in any order (the UNIQUE(user_id, date) index is one it can
      use). This function fixes one possible answer, the dates in order of
      first occurrence among the rows; all a caller may rely on is the
      contract: every watched date, each exactly once. */
  function DistinctDates(rows: seq<Watch>): (dates: seq<string>)
    ensures NoDuplicates(dates)
    ensures forall d :: d in dates <==> d in WatchedDates(rows)
    decreases |rows|
  {
    if rows == [] then []
    else
      var earlier := DistinctDates(rows[..|rows| - 1]);
      var last := rows[|rows| - 1];
      assert rows == rows[..|rows| - 1] + [last];
      assert WatchedDates(rows) == WatchedDates(rows[..|rows| - 1]) + {last.date};
      if last.date in earlier then earlier else earlier + [last.date]
  }

  /** `SELECT user_id FROM watches WHERE date = ?`. Again no ORDER BY; this is
      the answer in row order, one of the orders SQLite may choose. */
  function UsersOf(rows: seq<Watch>, date: string): (users: seq<int>)
    ensures forall u :: u in users <==> Watch(u, date) in rows
    ensures NoDuplicates(rows) ==> NoDuplicates(users)
    decreases |rows|
  {
    if rows == [] then []
    else
      var earlier := UsersOf(rows[..|rows| - 1], date);
      var last := rows[|rows| - 1];
      assert rows == rows[..|rows| - 1] + [last];
      if last.date == date then
        assert NoDuplicates(rows) ==> last !in rows[..|rows| - 1];
        earlier + [last.user]
      else earlier
  }

  /** The rows left by `DELETE FROM watches WHERE user_id = ? AND date = ?`. */
  function Without(rows: seq<Watch>, w: Watch): (kept: seq<Watch>)
    ensures forall v :: v in kept <==> v in rows && v != w
    ensures NoDuplicates(rows) ==> NoDuplicates(kept)
    ensures |kept| <= |rows|
    decreases |rows|
  {
    if rows == [] then []
    else
      var earlier := Without(rows[..|rows| - 1], w);
      var last := rows[|rows| - 1];
      assert rows == rows[..|rows| - 1] + [last];
      if last == w then earlier
      else
        assert NoDuplicates(rows) ==> last !in rows[..|rows| - 1];
        earlier + [last]
  }

  class Store {
    /** The table's rows in rowid order. */
    var rows: seq<Watch>

    /** The UNIQUE(user_id, date) constraint. */
    ghost predicate Valid()
      reads this
    {
      NoDuplicates(rows)
    }

    /** The table as a set of (user, date) pairs. */
    ghost function Watches(): set<Watch>
      reads this
    {
      set w | w in rows
    }

    /** `init_db` on a new database file: an empty table. */
    constructor ()
      ensures Valid() && rows == [] && Watches() == {}
    {
      rows := [];
    }

    /** `add_watch`: the INSERT succeeds (True) unless the pair is already
        there, in which case the UNIQUE constraint rejects it (False) and the
        table is unchanged. */
    method AddWatch(user: int, date: string) returns (added: bool)
      requires Valid()
      modifies this
      ensures Valid()
      ensures added <==> Watch(user, date) !in old(rows)
      ensures rows == if added then old(rows) + [Watch(user, date)] else old(rows)
      ensures Watches() == old(Watches()) + {Watch(user, date)}
    {
      var w := Watch(user, date);
      if w in rows {
        added := false;
      } else {
        rows := rows + [w];
        added := true;
      }
    }

    /** `remove_watch`: deletes the pair if present; otherwise a no-op. */
    method RemoveWatch(user: int, date: string)
      requires Valid()
      modifies this
      ensures Valid()
      ensures rows == Without(old(rows), Watch(user, date))
      ensures Watches() == old(Watches()) - {Watch(user, date)}
      ensures Watch(user, date) !in old(rows) ==> rows == old(rows)
    {
      var w := Watch(user, date);
      var kept: seq<Watch> := [];
      var i := 0;
      while i < |rows|
        invariant 0 <= i <= |rows|
        invariant kept == Without(rows[..i], w)
      {
        assert rows[..i + 1] == rows[..i] + [rows[i]];
        if rows[i] != w {
          kept := kept + [rows[i]];
        }
        i := i + 1;
      }
      assert rows[..i] == rows;
      if w !in rows {
        WithoutAbsent(rows, w);
      }
      rows := kept;
    }

    /** `get_user_watches`: the dates `user` watches, `ORDER BY date`. */
    method UserWatches(user: int) returns (dates: seq<string>)
      requires Valid()
      ensures StrictlySorted(dates)
      ensures forall d :: d in dates <==> Watch(user, d) in rows
    {
      dates := [];
      var i := 0;
      while i < |rows|
        invariant 0 <= i <= |rows|
        invariant StrictlySorted(dates)
        invariant forall d :: d in dates <==> Watch(user, d) in rows[..i]
      {
        assert rows[..i + 1] == rows[..i] + [rows[i]];
        if rows[i].user == user {
          assert rows[i] !in rows[..i];
          dates := InsertSorted(dates, rows[i].date);
        }
        i := i + 1;
      }
      assert rows[..i] == rows;
    }

    /** `get_all_unique_dates`. */
    method AllUniqueDates() returns (dates: seq<string>)
      ensures dates == DistinctDates(rows)
    {
      dates := [];
      var i := 0;
      while i < |rows|
        invariant 0 <= i <= |rows|
        invariant dates == DistinctDates(rows[..i])
      {
        assert rows[..i + 1][..i] == rows[..i];
        if rows[i].date !in dates {
          dates := dates + [rows[i].date];
        }
        i := i + 1;
      }
      assert rows[..i] == rows;
    }

    /** `get_users_for_date`. */
    method UsersForDate(date: string) returns (users: seq<int>)
      ensures users == UsersOf(rows, date)
    {
      users := [];
      var i := 0;
      while i < |rows|
        invariant 0 <= i <= |rows|
        invariant users == UsersOf(rows[..i], date)
      {
        assert rows[..i + 1][..i] == rows[..i];
        if rows[i].date == date {
          users := users + [rows[i].user];
        }
        i := i + 1;
      }
      assert rows[..i] == rows;
    }
  }

  /** Deleting a pair that is not in the table leaves every row where it was. */
  lemma {:induction false} WithoutAbsent(rows: seq<Watch>, w: Watch)
    requires w !in rows
    ensures Without(rows, w) == rows
    decreases |rows|
  {
    if rows != [] {
      assert rows == rows[..|rows| - 1] + [rows[|rows| - 1]];
      WithoutAbsent(rows[..|rows| - 1], w);
    }
  }

  /** Two identical `add_watch` calls: whatever the first returns, the second
      returns False, and the pair is in the table exactly once. */
  method AddWatchTwice(store: Store, user: int, date: string) returns (first: bool, second: bool)
    requires store.Valid()
    modifies store
    ensures store.Valid()
    ensures first <==> Watch(user, date) !in old(store.rows)
    ensures !second
    ensures store.Watches() == old(store.Watches()) + {Watch(user, date)}
  {
    first := store.AddWatch(user, date);
    second := store.AddWatch(user, date);
  }
}
