/** The database client: a lazily created, cached connection pool, the insert
    of a finished game's score, and the leaderboard query, whose
    `ORDER BY score DESC, time_remaining DESC, created_at ASC LIMIT n` is
    modelled as the top `n` rows of a sort of the stored table. */
module DbClient {
  import opened Common

  /** A row of the `scores` table; `createdAt` is milliseconds since the epoch. */
  datatype ScoreRow = ScoreRow(id: int, playerName: string, score: int, timeRemaining: int,
                               total: int, createdAt: int)

  /** The number of rows the leaderboard asks for when no limit is given. */
  const DefaultLimit: nat := 100

  // ---------------------------------------------------------------------------
  // The ranking order

  /** `a` may be listed before `b`: higher score first, then more time left,
      then the earlier submission. */
  predicate RanksAtLeast(a: ScoreRow, b: ScoreRow) {
    a.score > b.score
    || (a.score == b.score
        && (a.timeRemaining > b.timeRemaining
            || (a.timeRemaining == b.timeRemaining && a.createdAt <= b.createdAt)))
  }

  /** The three ordering keys agree. */
  predicate SameKeys(a: ScoreRow, b: ScoreRow) {
    a.score == b.score && a.timeRemaining == b.timeRemaining && a.createdAt == b.createdAt
  }

  /** The rows are in leaderboard order. */
  predicate Ranked(rows: seq<ScoreRow>) {
    forall i, j :: 0 <= i < j < |rows| ==> RanksAtLeast(rows[i], rows[j])
  }

  /** The order is total and transitive, and two rows rank at least as high as
      each other exactly when all three keys agree. */
  lemma RankingIsTotalOrderOnKeys(a: ScoreRow, b: ScoreRow, c: ScoreRow)
    ensures RanksAtLeast(a, a)
    ensures RanksAtLeast(a, b) || RanksAtLeast(b, a)
    ensures RanksAtLeast(a, b) && RanksAtLeast(b, c) ==> RanksAtLeast(a, c)
    ensures RanksAtLeast(a, b) && RanksAtLeast(b, a) <==> SameKeys(a, b)
  {
  }

  /** A ranked list stays ranked when a row that ranks at least as high as all
      of its rows is put in front. */
  lemma RankedCons(h: ScoreRow, t: seq<ScoreRow>)
    requires Ranked(t)
    requires forall j :: 0 <= j < |t| ==> RanksAtLeast(h, t[j])
    ensures Ranked([h] + t)
  {
    var s := [h] + t;
    forall i, j | 0 <= i < j < |s| ensures RanksAtLeast(s[i], s[j]) {
      assert s[j] == t[j - 1];
      if i > 0 {
        assert s[i] == t[i - 1];
      }
    }
  }

  /** Every row of a list with the rows of `rows` and `x` ranks no higher than
      `h` when `rows` and `x` do not. */
  lemma BoundedBy(h: ScoreRow, x: ScoreRow, rows: seq<ScoreRow>, tail: seq<ScoreRow>)
    requires RanksAtLeast(h, x)
    requires forall j :: 0 <= j < |rows| ==> RanksAtLeast(h, rows[j])
    requires multiset(tail) == multiset(rows) + multiset{x}
    ensures forall j :: 0 <= j < |tail| ==> RanksAtLeast(h, tail[j])
  {
    forall j | 0 <= j < |tail| ensures RanksAtLeast(h, tail[j]) {
      assert tail[j] in multiset(tail);
      if tail[j] != x {
        assert tail[j] in multiset(rows);
      }
    }
  }

  /** `x` placed into ranked `rows` before the first row it ranks at least as high as. */
  function InsertRanked(x: ScoreRow, rows: seq<ScoreRow>): (r: seq<ScoreRow>)
    requires Ranked(rows)
    ensures Ranked(r)
    ensures multiset(r) == multiset(rows) + multiset{x}
  {
    if rows == [] then [x]
    else if RanksAtLeast(x, rows[0]) then
      RankedCons(x, rows);
      [x] + rows
    else
      assert rows == [rows[0]] + rows[1..];
      var tail := InsertRanked(x, rows[1..]);
      BoundedBy(rows[0], x, rows[1..], tail);
      RankedCons(rows[0], tail);
      [rows[0]] + tail
  }

  /** The stored rows in leaderboard order. */
  function SortRanked(rows: seq<ScoreRow>): (r: seq<ScoreRow>)
    ensures Ranked(r)
    ensures multiset(r) == multiset(rows)
  {
    if rows == [] then []
    else
      assert rows == [rows[0]] + rows[1..];
      InsertRanked(rows[0], SortRanked(rows[1..]))
  }

  /** The rows the leaderboard query returns: the first `limit` rows of the table
      in leaderboard order. */
  function TopRows(table: seq<ScoreRow>, limit: nat): (r: seq<ScoreRow>)
    ensures |r| == if limit < |table| then limit else |table|
    ensures Ranked(r)
    ensures multiset(r) <= multiset(table)
    ensures forall x, y :: x in multiset(table) - multiset(r) && y in r ==> RanksAtLeast(y, x)
  {
    var sorted := SortRanked(table);
    assert |sorted| == |table| by {
      assert |multiset(sorted)| == |sorted| && |multiset(table)| == |table|;
    }
    var k := if limit < |sorted| then limit else |sorted|;
    RankedPrefix(sorted, k);
    sorted[..k]
  }

  /** A prefix of a ranked list is ranked, and every row after it ranks no
      higher than any row in it. */
  lemma RankedPrefix(sorted: seq<ScoreRow>, k: nat)
    requires Ranked(sorted) && k <= |sorted|
    ensures Ranked(sorted[..k])
    ensures multiset(sorted[..k]) <= multiset(sorted)
    ensures forall x, y :: x in multiset(sorted) - multiset(sorted[..k]) && y in sorted[..k] ==> RanksAtLeast(y, x)
  {
    var r, rest := sorted[..k], sorted[k..];
    assert Ranked(r) by {
      forall i, j | 0 <= i < j < |r| ensures RanksAtLeast(r[i], r[j]) {
        assert r[i] == sorted[i] && r[j] == sorted[j];
      }
    }
    assert multiset(sorted) == multiset(r) + multiset(rest) by {
      assert sorted == r + rest;
    }
    RestRanksBelow(sorted, k);
  }

  lemma RestRanksBelow(sorted: seq<ScoreRow>, k: nat)
    requires Ranked(sorted) && k <= |sorted|
    ensures forall x, y :: x in sorted[k..] && y in sorted[..k] ==> RanksAtLeast(y, x)
  {
    forall x, y | x in sorted[k..] && y in sorted[..k] ensures RanksAtLeast(y, x) {
      var j :| 0 <= j < |sorted| - k && sorted[k..][j] == x;
      var i :| 0 <= i < k && sorted[..k][i] == y;
      assert sorted[i] == y && sorted[k + j] == x;
    }
  }

  /** Leaving out one row of a ranked list keeps it ranked. */
  lemma RankedWithout(a: seq<ScoreRow>, k: nat)
    requires Ranked(a) && k < |a|
    ensures Ranked(a[..k] + a[k + 1..])
    ensures multiset(a[..k] + a[k + 1..]) == multiset(a) - multiset{a[k]}
  {
    var t := a[..k] + a[k + 1..];
    assert a == a[..k] + [a[k]] + a[k + 1..];
    forall p, q | 0 <= p < q < |t| ensures RanksAtLeast(t[p], t[q]) {
      var pp := if p < k then p else p + 1;
      var qq := if q < k then q else q + 1;
      assert t[p] == a[pp] && t[q] == a[qq];
    }
  }

  /** Leaving out the first row of a ranked list keeps it ranked. */
  lemma RankedTail(a: seq<ScoreRow>)
    requires Ranked(a) && a != []
    ensures Ranked(a[1..])
    ensures multiset(a[1..]) == multiset(a) - multiset{a[0]}
  {
    assert a == [a[0]] + a[1..];
  }

  /** In a ranked list, every row between two rows with the same keys has
      those keys too. */
  lemma BetweenSameKeys(a: seq<ScoreRow>, lo: nat, m: nat, hi: nat)
    requires Ranked(a) && lo <= m <= hi < |a| && SameKeys(a[lo], a[hi])
    ensures SameKeys(a[m], a[lo])
  {
    assert lo < m ==> RanksAtLeast(a[lo], a[m]);
    assert m < hi ==> RanksAtLeast(a[m], a[hi]);
  }

  /** The first rows of two ranked listings of the same rows share their keys,
      and the first row of `b` sits at some position `k` of `a`. */
  lemma HeadsShareKeys(a: seq<ScoreRow>, b: seq<ScoreRow>) returns (k: nat)
    requires Ranked(a) && Ranked(b) && multiset(a) == multiset(b) && a != []
    ensures |b| == |a| && k < |a| && a[k] == b[0] && SameKeys(a[0], b[0])
  {
    assert |a| == |multiset(a)| == |multiset(b)| == |b|;
    assert b[0] in multiset(a) && a[0] in multiset(b);
    k :| 0 <= k < |a| && a[k] == b[0];
    var kb :| 0 <= kb < |b| && b[kb] == a[0];
    assert 0 < k ==> RanksAtLeast(a[0], a[k]);
    assert 0 < kb ==> RanksAtLeast(b[0], b[kb]);
  }

  /** Two ranked listings of the same rows agree, position by position, on the
      three ordering keys: the order leaves only full-key ties open. */
  lemma {:induction false} RankedListingsAgreeOnKeys(a: seq<ScoreRow>, b: seq<ScoreRow>, i: nat)
    requires Ranked(a) && Ranked(b) && multiset(a) == multiset(b)
    requires i < |a|
    ensures i < |b| && SameKeys(a[i], b[i])
    decreases |a|
  {
    var k := HeadsShareKeys(a, b);
    if i > 0 {
      // Take b's first row out of both listings and compare the rest.
      var ta := a[..k] + a[k + 1..];
      var tb := b[1..];
      RankedWithout(a, k);
      RankedTail(b);
      RankedListingsAgreeOnKeys(ta, tb, i - 1);
      AgreeAfterRemoval(a, b, k, i);
    }
  }

  /** The step of the argument above: if `a` without its row `k` agrees with
      `b` without its first row at position `i - 1`, then `a` and `b` agree at
      position `i`. */
  lemma AgreeAfterRemoval(a: seq<ScoreRow>, b: seq<ScoreRow>, k: nat, i: nat)
    requires Ranked(a) && |b| == |a| && k < |a| && 0 < i < |a|
    requires SameKeys(a[0], a[k]) && a[k] == b[0]
    requires SameKeys((a[..k] + a[k + 1..])[i - 1], b[1..][i - 1])
    ensures SameKeys(a[i], b[i])
  {
    var ta := a[..k] + a[k + 1..];
    assert b[1..][i - 1] == b[i];
    if i <= k {
      assert ta[i - 1] == a[i - 1];
      BetweenSameKeys(a, 0, i - 1, k);
      BetweenSameKeys(a, 0, i, k);
    } else {
      assert ta[i - 1] == a[i];
    }
  }

  // ---------------------------------------------------------------------------
  // The connection and its operations

  /** A connection pool, identified by the connection string it was built from. */
  datatype Pool = Pool(connectionString: string)

  /** What the database reports for an insert. */
  datatype InsertOutcome = Inserted(id: int, createdAt: int) | InsertError(message: string)

  /** What `saveScore` returns: the new row's id and timestamp, or an error. */
  datatype SaveResult = Saved(id: int, createdAt: int) | SaveFailed(error: string)

  /** What `getLeaderboard` returns; a failure carries an empty row list. */
  datatype LeaderboardResult = Listed(rows: seq<ScoreRow>) | ListFailed(error: string)

  const NotConfigured: string := "Database not configured"

  /** The module-level pool cache together with the table it serves. */
  class Database {
    /** `process.env.DATABASE_URL`. */
    const databaseUrl: Option<string>
    var pool: Option<Pool>
    /** The stored rows of the `scores` table, in storage order. */
    var table: seq<ScoreRow>

    constructor (databaseUrl: Option<string>, table: seq<ScoreRow>)
      ensures this.databaseUrl == databaseUrl && this.table == table && pool == None
    {
      this.databaseUrl := databaseUrl;
      this.table := table;
      pool := None;
    }

    /** The connection string is set and non-empty. */
    predicate Configured()
      reads this
    {
      databaseUrl.Some? && databaseUrl.value != ""
    }

    /** Returns the cached pool, creating and caching it on first use when the
        connection string is configured; without one it returns nothing and
        caches nothing. */
    method GetPool() returns (p: Option<Pool>)
      modifies this`pool
      ensures old(pool).Some? ==> p == old(pool) && pool == old(pool)
      ensures old(pool).None? && !Configured() ==> p == None && pool == None
      ensures old(pool).None? && Configured() ==> p == Some(Pool(databaseUrl.value)) && pool == p
    {
      if pool.Some? {
        return pool;
      }
      if databaseUrl.None? || databaseUrl.value == "" {
        return None;
      }
      pool := Some(Pool(databaseUrl.value));
      p := pool;
    }

    /** Inserts one score row. Without a pool nothing is inserted and the result
        is the "Database not configured" failure. */
    method SaveScore(playerName: string, score: int, timeRemaining: int, total: int,
                     outcome: InsertOutcome) returns (r: SaveResult)
      modifies this`pool, this`table
      ensures old(pool).Some? ==> pool == old(pool)
      ensures old(pool).None? ==> pool == (if Configured() then Some(Pool(databaseUrl.value)) else None)
      ensures pool.None? ==> r == SaveFailed(NotConfigured) && table == old(table)
      ensures pool.Some? && outcome.InsertError? ==> r == SaveFailed(outcome.message) && table == old(table)
      ensures pool.Some? && outcome.Inserted? ==>
                r == Saved(outcome.id, outcome.createdAt)
                && table == old(table) + [ScoreRow(outcome.id, playerName, score, timeRemaining,
                                                   total, outcome.createdAt)]
    {
      var p := GetPool();
      if p.None? {
        return SaveFailed(NotConfigured);
      }
      match outcome
      case Inserted(id, createdAt) =>
        table := table + [ScoreRow(id, playerName, score, timeRemaining, total, createdAt)];
        r := Saved(id, createdAt);
      case InsertError(message) =>
        r := SaveFailed(message);
    }

    /** The leaderboard query. Without a pool it succeeds with no rows; a query
        error fails; otherwise it lists the top `limit` rows of the table. */
    method GetLeaderboard(limit: nat, queryError: Option<string>) returns (r: LeaderboardResult)
      modifies this`pool
      ensures old(pool).Some? ==> pool == old(pool)
      ensures old(pool).None? ==> pool == (if Configured() then Some(Pool(databaseUrl.value)) else None)
      ensures pool.None? ==> r == Listed([])
      ensures pool.Some? && queryError.Some? ==> r == ListFailed(queryError.value)
      ensures pool.Some? && queryError.None? ==> r == Listed(TopRows(table, limit))
    {
      var p := GetPool();
      if p.None? {
        return Listed([]);
      }
      if queryError.Some? {
        return ListFailed(queryError.value);
      }
      r := Listed(TopRows(table, limit));
    }
  }

  /** A database whose connection string is set saves on first use and then
      lists the table with the new row. */
  method FirstUseOfConfiguredDatabase(url: string, table: seq<ScoreRow>, row: ScoreRow)
      returns (saved: SaveResult, listed: LeaderboardResult)
    requires url != ""
    ensures saved == Saved(row.id, row.createdAt)
    ensures listed == Listed(TopRows(table + [row], DefaultLimit))
  {
    var db := new Database(Some(url), table);
    saved := db.SaveScore(row.playerName, row.score, row.timeRemaining, row.total,
                          Inserted(row.id, row.createdAt));
    listed := db.GetLeaderboard(DefaultLimit, None);
  }

  /** At equal scores more time left ranks first. */
  lemma RankingExample()
    ensures TopRows([ScoreRow(1, "a", 50, 30, 197, 0), ScoreRow(2, "b", 50, 90, 197, 1)], DefaultLimit)
            == [ScoreRow(2, "b", 50, 90, 197, 1), ScoreRow(1, "a", 50, 30, 197, 0)]
  {
  }

  /** A higher score beats any amount of time left, and the limit cuts the list. */
  lemma ScoreFirstExample()
    ensures TopRows([ScoreRow(3, "c", 48, 500, 197, 2), ScoreRow(1, "a", 50, 30, 197, 0)], 1)
            == [ScoreRow(1, "a", 50, 30, 197, 0)]
  {
  }
}
