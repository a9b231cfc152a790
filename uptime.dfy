/** What both report generators share: status rows, the three trailing windows,
    counting rows in a window, the availability percentage, the per-store record
    and the grouping of rows by store. */
module Uptime {
  import opened Outcomes

  /** One row of the store_status table: the store, the UTC instant in whole
      seconds, and the status text, which the table leaves free-form. */
  datatype Obs = Obs(storeId: string, ts: int, status: string)

  const Active: string := "active"
  const Inactive: string := "inactive"

  /** The three trailing windows; each ends at the report's end instant. */
  datatype Window = LastHour | LastDay | LastWeek

  const HourSecs: nat := 3600
  const DaySecs: nat := 86400
  const WeekSecs: nat := 604800

  function Size(w: Window): nat
  {
    match w
    case LastHour => HourSecs
    case LastDay => DaySecs
    case LastWeek => WeekSecs
  }

  /** An optional time argument of a request. */
  datatype TimeArg = Omitted | Given(text: string)

  /** Python treats None and "" alike (`x if start_time else default`). */
  predicate Supplied(a: TimeArg)
  {
    a.Given? && a.text != ""
  }

  /** A parsed ISO-8601 text: the instant in whole seconds and whether the
      text carried a UTC offset (`fromisoformat` then returns an aware time,
      otherwise a naive one). */
  datatype Instant = Instant(secs: int, aware: bool)

  /** The report range after the defaults are applied. */
  datatype Range = Range(start: int, end: int)

  /** A timezone name the timezone library accepts: "UTC" always is. */
  predicate ZoneResolves(name: string, known: string -> bool)
  {
    name == "UTC" || known(name)
  }

  predicate Within(o: Obs, sid: string, lo: int, hi: int)
  {
    o.storeId == sid && lo <= o.ts <= hi
  }

  /** Number of rows of store `sid` in [lo, hi] whose status is exactly `st`
      (the pandas `(sl["status"] == st).sum()`). */
  function Count(rows: seq<Obs>, sid: string, lo: int, hi: int, st: string): (n: nat)
    ensures n <= |rows|
  {
    if rows == [] then 0
    else (if Within(rows[0], sid, lo, hi) && rows[0].status == st then 1 else 0)
         + Count(rows[1..], sid, lo, hi, st)
  }

  /** Number of rows of store `sid` in [lo, hi], whatever their status. */
  function Total(rows: seq<Obs>, sid: string, lo: int, hi: int): (n: nat)
    ensures n <= |rows|
  {
    if rows == [] then 0
    else (if Within(rows[0], sid, lo, hi) then 1 else 0) + Total(rows[1..], sid, lo, hi)
  }

  /** Widening the interval never lowers a count. */
  lemma {:induction false} CountMonotone(rows: seq<Obs>, sid: string, lo: int, hi: int, lo': int, hi': int, st: string)
    requires lo' <= lo && hi <= hi'
    ensures Count(rows, sid, lo, hi, st) <= Count(rows, sid, lo', hi', st)
  {
    if rows != [] {
      CountMonotone(rows[1..], sid, lo, hi, lo', hi', st);
    }
  }

  /** A count is positive exactly when some row of the store lies in the
      interval with that status. */
  lemma {:induction false} CountPositive(rows: seq<Obs>, sid: string, lo: int, hi: int, st: string)
    ensures Count(rows, sid, lo, hi, st) > 0
        <==> exists i :: 0 <= i < |rows| && Within(rows[i], sid, lo, hi) && rows[i].status == st
  {
    if rows != [] {
      CountPositive(rows[1..], sid, lo, hi, st);
      if Count(rows[1..], sid, lo, hi, st) > 0 {
        var i :| 0 <= i < |rows[1..]| && Within(rows[1..][i], sid, lo, hi) && rows[1..][i].status == st;
        assert Within(rows[i + 1], sid, lo, hi) && rows[i + 1].status == st;
      }
      if exists i :: 0 <= i < |rows| && Within(rows[i], sid, lo, hi) && rows[i].status == st {
        var i :| 0 <= i < |rows| && Within(rows[i], sid, lo, hi) && rows[i].status == st;
        if i > 0 {
          assert Within(rows[1..][i - 1], sid, lo, hi) && rows[1..][i - 1].status == st;
        }
      }
    }
  }

  /** Rows with a status other than "active" or "inactive" are in neither
      bucket, so uptime plus downtime never exceeds the rows in the window. */
  lemma {:induction false} CountedAtMostTotal(rows: seq<Obs>, sid: string, lo: int, hi: int)
    ensures Count(rows, sid, lo, hi, Active) + Count(rows, sid, lo, hi, Inactive) <= Total(rows, sid, lo, hi)
  {
    if rows != [] {
      CountedAtMostTotal(rows[1..], sid, lo, hi);
    }
  }

  /** An exact percentage num / den; the source's float rounded to two places
      is not modelled. */
  datatype Percent = Percent(num: nat, den: nat)

  /** `up / total * 100` if total is non-zero, else None. */
  function Availability(up: nat, down: nat): (p: Option<Percent>)
    ensures p.None? <==> up + down == 0
    ensures p.Some? ==> p.value.den > 0 && p.value.num * (up + down) == 100 * up * p.value.den
    ensures p.Some? ==> p.value.num <= 100 * p.value.den
  {
    if up + down == 0 then None else Some(Percent(100 * up, up + down))
  }

  /** The three columns a report row holds for one window. */
  datatype WindowStats = WindowStats(uptime: nat, downtime: nat, availability: Option<Percent>)

  /** One report row: `rec` in the source. */
  datatype StoreRecord = StoreRecord(storeId: string, lastHour: WindowStats, lastDay: WindowStats, lastWeek: WindowStats)

  function StatsOf(r: StoreRecord, w: Window): WindowStats
  {
    match w
    case LastHour => r.lastHour
    case LastDay => r.lastDay
    case LastWeek => r.lastWeek
  }

  /** Python's `<` on str: lexicographic by code point, a proper prefix first. */
  predicate Below(a: string, b: string)
  {
    if a == [] then b != []
    else b != [] && (a[0] < b[0] || (a[0] == b[0] && Below(a[1..], b[1..])))
  }

  lemma {:induction false} BelowIrreflexive(a: string)
    ensures !Below(a, a)
  {
    if a != [] {
      BelowIrreflexive(a[1..]);
    }
  }

  lemma {:induction false} BelowTransitive(a: string, b: string, c: string)
    requires Below(a, b) && Below(b, c)
    ensures Below(a, c)
  {
    if a != [] && a[0] == b[0] && b[0] == c[0] {
      BelowTransitive(a[1..], b[1..], c[1..]);
    }
  }

  lemma {:induction false} BelowTotal(a: string, b: string)
    ensures a == b || Below(a, b) || Below(b, a)
  {
    if a != [] && b != [] && a[0] == b[0] {
      BelowTotal(a[1..], b[1..]);
      assert a == [a[0]] + a[1..] && b == [b[0]] + b[1..];
    }
  }

  /** Strictly ascending, so without repetitions. */
  predicate Ascending(ids: seq<string>)
  {
    forall i, j :: 0 <= i < j < |ids| ==> Below(ids[i], ids[j])
  }

  lemma AscendingDistinct(ids: seq<string>)
    requires Ascending(ids)
    ensures forall i, j :: 0 <= i < j < |ids| ==> ids[i] != ids[j]
  {
    forall i, j | 0 <= i < j < |ids|
      ensures ids[i] != ids[j]
    {
      BelowIrreflexive(ids[i]);
    }
  }

  /** `ids` with `x` added in its place, unless it is already there. */
  function Insert(ids: seq<string>, x: string): (r: seq<string>)
    ensures 0 < |r| <= |ids| + 1
  {
    if ids == [] then [x]
    else if x == ids[0] then ids
    else if Below(x, ids[0]) then [x] + ids
    else [ids[0]] + Insert(ids[1..], x)
  }

  lemma {:induction false} InsertMembers(ids: seq<string>, x: string)
    ensures forall y :: y in Insert(ids, x) <==> y in ids || y == x
  {
    if ids != [] && x != ids[0] && !Below(x, ids[0]) {
      InsertMembers(ids[1..], x);
      assert ids == [ids[0]] + ids[1..];
    }
  }

  lemma {:induction false} InsertAscending(ids: seq<string>, x: string)
    requires Ascending(ids)
    ensures Ascending(Insert(ids, x))
  {
    if ids != [] && x != ids[0] {
      if Below(x, ids[0]) {
        var r := [x] + ids;
        forall i, j | 0 <= i < j < |r|
          ensures Below(r[i], r[j])
        {
          if i == 0 && j > 1 {
            BelowTransitive(x, ids[0], ids[j - 1]);
          }
        }
      } else {
        BelowTotal(x, ids[0]);
        var tail := ids[1..];
        InsertAscending(tail, x);
        InsertMembers(tail, x);
        var rest := Insert(tail, x);
        forall k | 0 <= k < |rest|
          ensures Below(ids[0], rest[k])
        {
          assert rest[k] in rest;
          if rest[k] != x {
            var j :| 0 <= j < |tail| && tail[j] == rest[k];
            assert ids[j + 1] == rest[k];
          }
        }
        var r := [ids[0]] + rest;
        forall i, j | 0 <= i < j < |r|
          ensures Below(r[i], r[j])
        {
          if i > 0 {
            assert r[i] == rest[i - 1] && r[j] == rest[j - 1];
          }
        }
      }
    }
  }

  /** The store ids of `rows`, each once, in ascending order: the groups of
      `df.groupby("store_id")`, which sorts its keys. */
  function DistinctIds(rows: seq<Obs>): (ids: seq<string>)
    ensures |ids| <= |rows|
    ensures |rows| > 0 ==> |ids| > 0
  {
    if rows == [] then []
    else Insert(DistinctIds(rows[..|rows| - 1]), rows[|rows| - 1].storeId)
  }

  /** The groups come in ascending order of store id, each once. */
  lemma {:induction false} DistinctIdsSorted(rows: seq<Obs>)
    ensures Ascending(DistinctIds(rows))
    ensures forall i, j :: 0 <= i < j < |DistinctIds(rows)| ==> DistinctIds(rows)[i] != DistinctIds(rows)[j]
  {
    if rows != [] {
      DistinctIdsSorted(rows[..|rows| - 1]);
      InsertAscending(DistinctIds(rows[..|rows| - 1]), rows[|rows| - 1].storeId);
    }
    AscendingDistinct(DistinctIds(rows));
  }

  /** The groups are exactly the stores that have rows. */
  lemma {:induction false} DistinctIdsCover(rows: seq<Obs>)
    ensures forall sid :: sid in DistinctIds(rows) <==> exists o :: o in rows && o.storeId == sid
  {
    if rows != [] {
      var front := rows[..|rows| - 1];
      DistinctIdsCover(front);
      InsertMembers(DistinctIds(front), rows[|rows| - 1].storeId);
      assert rows == front + [rows[|rows| - 1]];
    }
  }
}
