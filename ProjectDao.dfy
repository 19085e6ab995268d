/**
 * The `projects` table and the queries of its DAO. The table keeps its rows in rowid order;
 * `id` is the primary key. Queries sort by `creationDate` descending (text order), rows with
 * equal dates keep rowid order, and then apply LIMIT and OFFSET.
 */
module Dao {
  import opened Wrappers
  import opened Text
  import opened ProjectStatus

  /** One row of `projects`; the team is stored as JSON text. */
  datatype ProjectEntity = ProjectEntity(
    id: string,
    name: string,
    description: string,
    status: Status,
    creationDate: string,
    teamMembersJson: string
  )

  // ---------------------------------------------------------------------------
  // Rows and their primary key
  // ---------------------------------------------------------------------------

  /** No two rows share an id. */
  predicate UniqueIds(rows: seq<ProjectEntity>) {
    forall i, j :: 0 <= i < j < |rows| ==> rows[i].id != rows[j].id
  }

  /** The table as a map from primary key to row. */
  ghost function TableOf(rows: seq<ProjectEntity>): map<string, ProjectEntity>
    requires UniqueIds(rows)
  {
    map r | r in rows :: r.id := r
  }

  lemma TableOfAt(rows: seq<ProjectEntity>, i: int)
    requires UniqueIds(rows) && 0 <= i < |rows|
    ensures rows[i].id in TableOf(rows) && TableOf(rows)[rows[i].id] == rows[i]
  {
    assert rows[i] in rows;
  }

  /** Every row is the table's entry for its own id. */
  lemma TableOfIn(rows: seq<ProjectEntity>, e: ProjectEntity)
    requires UniqueIds(rows) && e in rows
    ensures e.id in TableOf(rows) && TableOf(rows)[e.id] == e
  {
    var i :| 0 <= i < |rows| && rows[i] == e;
    TableOfAt(rows, i);
  }

  /** Every entry of the table is a row stored under its own id. */
  lemma TableOfEntry(rows: seq<ProjectEntity>, id: string)
    requires UniqueIds(rows) && id in TableOf(rows)
    ensures TableOf(rows)[id] in rows && TableOf(rows)[id].id == id
  {
    var e :| e in rows && e.id == id;
    var i :| 0 <= i < |rows| && rows[i] == e;
    TableOfAt(rows, i);
  }

  /** The rows after an upsert: the row with p's id is replaced where it stands, otherwise p is appended. */
  function Upserted(rows: seq<ProjectEntity>, p: ProjectEntity): (r: seq<ProjectEntity>)
    ensures p in r
    ensures forall e :: e in r ==> e == p || e in rows
    ensures forall e :: e in rows && e.id != p.id ==> e in r
  {
    if |rows| == 0 then [p]
    else if rows[0].id == p.id then [p] + rows[1..]
    else [rows[0]] + Upserted(rows[1..], p)
  }

  /** On a table with unique keys an upsert keeps the keys unique, and p is the only row with its id. */
  lemma {:induction false} UpsertedUnique(rows: seq<ProjectEntity>, p: ProjectEntity)
    requires UniqueIds(rows)
    ensures UniqueIds(Upserted(rows, p))
    ensures forall e :: e in Upserted(rows, p) && e.id == p.id ==> e == p
  {
    if |rows| > 0 {
      var tail := rows[1..];
      assert UniqueIds(tail) by {
        forall i, j | 0 <= i < j < |tail| ensures tail[i].id != tail[j].id {
          assert tail[i] == rows[i + 1] && tail[j] == rows[j + 1];
        }
      }
      assert forall e :: e in tail ==> e.id != rows[0].id by {
        forall e | e in tail ensures e.id != rows[0].id {
          var j :| 0 <= j < |tail| && tail[j] == e;
          assert rows[j + 1] == e;
        }
      }
      if rows[0].id != p.id {
        UpsertedUnique(tail, p);
        var r := Upserted(rows, p);
        assert r == [rows[0]] + Upserted(tail, p);
        forall i, j | 0 <= i < j < |r| ensures r[i].id != r[j].id {
          if i == 0 {
            assert r[j] in Upserted(tail, p);
          }
        }
      }
    }
  }

  /** The rows after deleting by primary key; the others keep their order. */
  function Deleted(rows: seq<ProjectEntity>, id: string): (r: seq<ProjectEntity>)
    ensures forall e :: e in r <==> e in rows && e.id != id
    ensures UniqueIds(rows) ==> UniqueIds(r)
  {
    if |rows| == 0 then []
    else if rows[0].id == id then Deleted(rows[1..], id)
    else [rows[0]] + Deleted(rows[1..], id)
  }

  /** `SELECT * FROM projects WHERE id = :id`. */
  function FindById(rows: seq<ProjectEntity>, id: string): (r: Option<ProjectEntity>)
    ensures r.Some? <==> exists e :: e in rows && e.id == id
    ensures r.Some? ==> r.value in rows && r.value.id == id
  {
    if |rows| == 0 then None
    else if rows[0].id == id then Some(rows[0])
    else FindById(rows[1..], id)
  }

  // ---------------------------------------------------------------------------
  // ORDER BY creationDate DESC
  // ---------------------------------------------------------------------------

  /** No row is followed by a row with a later date. */
  predicate SortedByDateDesc(rows: seq<ProjectEntity>) {
    forall i, j :: 0 <= i < j < |rows| ==> !LexLess(rows[i].creationDate, rows[j].creationDate)
  }

  /** Places x before the first row with a strictly earlier date. */
  function InsertByDate(sorted: seq<ProjectEntity>, x: ProjectEntity): (r: seq<ProjectEntity>)
    ensures multiset(r) == multiset(sorted) + multiset{x}
    ensures |r| == |sorted| + 1
  {
    if |sorted| == 0 then [x]
    else if LexLess(sorted[0].creationDate, x.creationDate) then [x] + sorted
    else
      assert sorted == [sorted[0]] + sorted[1..];
      [sorted[0]] + InsertByDate(sorted[1..], x)
  }

  lemma {:induction false} InsertByDateSorted(sorted: seq<ProjectEntity>, x: ProjectEntity)
    requires SortedByDateDesc(sorted)
    ensures SortedByDateDesc(InsertByDate(sorted, x))
  {
    if |sorted| == 0 {
    } else if LexLess(sorted[0].creationDate, x.creationDate) {
      LaterThanAll(sorted, x);
    } else {
      var rest := InsertByDate(sorted[1..], x);
      InsertByDateSorted(sorted[1..], x);
      assert SortedByDateDesc(rest);
      var r := [sorted[0]] + rest;
      assert InsertByDate(sorted, x) == r;
      forall i, j | 0 <= i < j < |r|
        ensures !LexLess(r[i].creationDate, r[j].creationDate)
      {
        assert r[j] == rest[j - 1];
        if i == 0 {
          assert r[i] == sorted[0];
          NotEarlierThanRest(sorted, x, rest, j - 1);
        } else {
          assert r[i] == rest[i - 1] && 0 <= i - 1 < j - 1 < |rest|;
        }
      }
    }
  }

  /** A row later than the first of a sorted list is later than all of them. */
  lemma LaterThanAll(sorted: seq<ProjectEntity>, x: ProjectEntity)
    requires SortedByDateDesc(sorted) && |sorted| > 0 && LexLess(sorted[0].creationDate, x.creationDate)
    ensures forall j :: 0 <= j < |sorted| ==> !LexLess(x.creationDate, sorted[j].creationDate)
  {
    forall j | 0 <= j < |sorted|
      ensures !LexLess(x.creationDate, sorted[j].creationDate)
    {
      var a, b, c := sorted[j].creationDate, sorted[0].creationDate, x.creationDate;
      LexTotal(a, b);
      if LexLess(a, b) { LexTransitive(a, b, c); }
      LexAsymmetric(a, c);
    }
  }

  /** The first row of a sorted list, not earlier than x, is not earlier than anything inserted after it. */
  lemma NotEarlierThanRest(sorted: seq<ProjectEntity>, x: ProjectEntity, rest: seq<ProjectEntity>, j: int)
    requires SortedByDateDesc(sorted) && |sorted| > 0 && !LexLess(sorted[0].creationDate, x.creationDate)
    requires rest == InsertByDate(sorted[1..], x) && 0 <= j < |rest|
    ensures !LexLess(sorted[0].creationDate, rest[j].creationDate)
  {
    assert rest[j] in multiset(rest);
    assert rest[j] == x || rest[j] in sorted[1..];
  }

  /** The rows in query order: latest date first, equal dates in rowid order. */
  function SortByDateDesc(rows: seq<ProjectEntity>): (r: seq<ProjectEntity>)
    ensures multiset(r) == multiset(rows) && |r| == |rows|
    ensures SortedByDateDesc(r)
  {
    if |rows| == 0 then []
    else
      var init := rows[..|rows| - 1];
      assert rows == init + [rows[|rows| - 1]];
      InsertByDateSorted(SortByDateDesc(init), rows[|rows| - 1]);
      InsertByDate(SortByDateDesc(init), rows[|rows| - 1])
  }

  // ---------------------------------------------------------------------------
  // LIKE, as SQLite evaluates it: '%' any run, '_' any one character, ASCII case folded
  // ---------------------------------------------------------------------------

  function LowerAscii(c: char): char {
    if 'A' <= c <= 'Z' then (c as int + 32) as char else c
  }

  predicate SameIgnoringAsciiCase(a: char, b: char) {
    LowerAscii(a) == LowerAscii(b)
  }

  /** `value LIKE pattern` without an ESCAPE clause. */
  predicate Like(value: string, pattern: string)
    decreases |value| + |pattern|
  {
    if |pattern| == 0 then |value| == 0
    else if pattern[0] == '%' then Like(value, pattern[1..]) || (|value| > 0 && Like(value[1..], pattern))
    else
      |value| > 0 && (pattern[0] == '_' || SameIgnoringAsciiCase(pattern[0], value[0])) && Like(value[1..], pattern[1..])
  }

  /** Text with no LIKE wildcard in it. */
  predicate WildcardFree(q: string) {
    '%' !in q && '_' !in q
  }

  /** value begins with q, ignoring ASCII case. */
  predicate StartsWithFolded(value: string, q: string) {
    |q| <= |value| && forall k :: 0 <= k < |q| ==> SameIgnoringAsciiCase(value[k], q[k])
  }

  /** q occurs somewhere in value, ignoring ASCII case. */
  predicate ContainsFolded(value: string, q: string) {
    exists i :: 0 <= i <= |value| && StartsWithFolded(value[i..], q)
  }

  lemma {:induction false} LikeAnything(value: string)
    ensures Like(value, "%")
  {
    assert "%"[1..] == "";
    if |value| > 0 { LikeAnything(value[1..]); }
  }

  lemma {:induction false} LikeTrailingPercent(value: string, q: string)
    requires WildcardFree(q)
    ensures Like(value, q + "%") <==> StartsWithFolded(value, q)
  {
    if |q| == 0 {
      assert q + "%" == "%";
      LikeAnything(value);
    } else {
      assert (q + "%")[1..] == q[1..] + "%";
      assert (q + "%")[0] == q[0];
      if |value| > 0 {
        LikeTrailingPercent(value[1..], q[1..]);
        if StartsWithFolded(value[1..], q[1..]) && SameIgnoringAsciiCase(q[0], value[0]) {
          assert StartsWithFolded(value, q) by {
            forall k | 0 <= k < |q| ensures SameIgnoringAsciiCase(value[k], q[k]) {
              if k > 0 { assert value[k] == value[1..][k - 1] && q[k] == q[1..][k - 1]; }
            }
          }
        }
        if StartsWithFolded(value, q) {
          assert SameIgnoringAsciiCase(value[0], q[0]);
          assert StartsWithFolded(value[1..], q[1..]) by {
            forall k | 0 <= k < |q[1..]| ensures SameIgnoringAsciiCase(value[1..][k], q[1..][k]) {
              assert SameIgnoringAsciiCase(value[k + 1], q[k + 1]);
            }
          }
        }
      }
    }
  }

  lemma {:induction false} LikeLeadingPercent(value: string, rest: string)
    ensures Like(value, "%" + rest) <==> exists i :: 0 <= i <= |value| && Like(value[i..], rest)
  {
    var p := "%" + rest;
    assert p[0] == '%' && p[1..] == rest;
    assert value[0..] == value;
    if |value| > 0 {
      LikeLeadingPercent(value[1..], rest);
      if Like(value[1..], p) {
        var i :| 0 <= i <= |value[1..]| && Like(value[1..][i..], rest);
        assert value[1..][i..] == value[i + 1..];
      }
      if i :| 1 <= i <= |value| && Like(value[i..], rest) {
        assert value[1..][i - 1..] == value[i..];
      }
    }
  }

  /** The repository's pattern "%q%" matches exactly the values that contain q, ignoring ASCII case. */
  lemma LikeSubstring(value: string, q: string)
    requires WildcardFree(q)
    ensures Like(value, "%" + q + "%") <==> ContainsFolded(value, q)
  {
    assert "%" + q + "%" == "%" + (q + "%");
    LikeLeadingPercent(value, q + "%");
    forall i | 0 <= i <= |value|
      ensures Like(value[i..], q + "%") <==> StartsWithFolded(value[i..], q)
    {
      LikeTrailingPercent(value[i..], q);
    }
  }

  /** The WHERE clause of `searchProjects`. */
  predicate MatchesSearch(row: ProjectEntity, pattern: string) {
    Like(row.name, pattern) || Like(row.description, pattern)
  }

  /** The WHERE clause of `searchProjects` as a test on one row. */
  function SearchTest(pattern: string): (keep: ProjectEntity -> bool)
    ensures forall e :: keep(e) == MatchesSearch(e, pattern)
  {
    e => MatchesSearch(e, pattern)
  }

  /** The rows that pass `keep`, in their order. */
  function Filter(rows: seq<ProjectEntity>, keep: ProjectEntity -> bool): (r: seq<ProjectEntity>)
    ensures forall e :: e in r <==> e in rows && keep(e)
    ensures forall e :: multiset(r)[e] == if keep(e) then multiset(rows)[e] else 0
  {
    if |rows| == 0 then []
    else
      var n := |rows| - 1;
      var front := Filter(rows[..n], keep);
      assert rows == rows[..n] + [rows[n]];
      if keep(rows[n]) then front + [rows[n]] else front
  }

  /** `idx` lists, in increasing order, exactly the positions of the rows that pass `keep`. */
  predicate ListsKept(idx: seq<nat>, rows: seq<ProjectEntity>, keep: ProjectEntity -> bool) {
    && (forall k :: 0 <= k < |idx| ==> idx[k] < |rows| && keep(rows[idx[k]]))
    && (forall k, l :: 0 <= k < l < |idx| ==> idx[k] < idx[l])
    && (forall i :: 0 <= i < |rows| && keep(rows[i]) ==> i in idx)
  }

  /** The positions of the rows that pass `keep`. */
  function KeptIndices(rows: seq<ProjectEntity>, keep: ProjectEntity -> bool): (idx: seq<nat>)
    ensures ListsKept(idx, rows, keep)
  {
    if |rows| == 0 then []
    else
      var n := |rows| - 1;
      var front := KeptIndices(rows[..n], keep);
      assert forall k :: 0 <= k < |front| ==> rows[..n][front[k]] == rows[front[k]];
      assert forall i :: 0 <= i < n ==> rows[..n][i] == rows[i];
      if keep(rows[n]) then front + [n] else front
  }

  /** The k-th row of `r` is the row of `rows` at position `idx[k]`. */
  predicate SelectedAt(r: seq<ProjectEntity>, rows: seq<ProjectEntity>, idx: seq<nat>) {
    |r| == |idx| && forall k :: 0 <= k < |r| ==> idx[k] < |rows| && r[k] == rows[idx[k]]
  }

  /** A selection from all but the last row, with the last row possibly added, is a selection from all rows. */
  lemma SelectedAtSnoc(front: seq<ProjectEntity>, idx: seq<nat>, rows: seq<ProjectEntity>, kept: bool)
    requires |rows| > 0 && SelectedAt(front, rows[..|rows| - 1], idx)
    ensures var n := |rows| - 1;
      SelectedAt(front + (if kept then [rows[n]] else []), rows, idx + (if kept then [n] else []))
  {
    var n := |rows| - 1;
    var r, all := front + (if kept then [rows[n]] else []), idx + (if kept then [n] else []);
    forall k | 0 <= k < |r| ensures all[k] < |rows| && r[k] == rows[all[k]] {
      if k < |front| {
        assert r[k] == front[k] && all[k] == idx[k];
        assert rows[..n][idx[k]] == rows[idx[k]];
      }
    }
  }

  /** A filter keeps exactly the passing rows in their order: its k-th row is the row at the k-th passing position. */
  lemma {:induction false} FilterAtKeptIndices(rows: seq<ProjectEntity>, keep: ProjectEntity -> bool)
    ensures SelectedAt(Filter(rows, keep), rows, KeptIndices(rows, keep))
  {
    if |rows| > 0 {
      var n := |rows| - 1;
      var kept := keep(rows[n]);
      var front, idx := Filter(rows[..n], keep), KeptIndices(rows[..n], keep);
      FilterAtKeptIndices(rows[..n], keep);
      SelectedAtSnoc(front, idx, rows, kept);
      assert Filter(rows, keep) == front + (if kept then [rows[n]] else []);
      assert KeptIndices(rows, keep) == idx + (if kept then [n] else []);
    }
  }

  /** A selection at increasing positions of a descending list is descending. */
  lemma SelectionKeepsOrder(rows: seq<ProjectEntity>, r: seq<ProjectEntity>, idx: seq<nat>)
    requires SelectedAt(r, rows, idx)
    requires forall k, l :: 0 <= k < l < |idx| ==> idx[k] < idx[l]
    ensures SortedByDateDesc(rows) ==> SortedByDateDesc(r)
  {
  }

  /**
   * The rows that satisfy the WHERE clause: each matching row as often as it is stored, at the
   * matching positions in increasing order.
   */
  function FilterMatching(rows: seq<ProjectEntity>, pattern: string): (r: seq<ProjectEntity>)
    ensures forall e :: e in r <==> e in rows && MatchesSearch(e, pattern)
    ensures forall e :: multiset(r)[e] == if MatchesSearch(e, pattern) then multiset(rows)[e] else 0
    ensures SelectedAt(r, rows, KeptIndices(rows, SearchTest(pattern)))
    ensures SortedByDateDesc(rows) ==> SortedByDateDesc(r)
  {
    var keep := SearchTest(pattern);
    var r := Filter(rows, keep);
    FilterAtKeptIndices(rows, keep);
    SelectionKeepsOrder(rows, r, KeptIndices(rows, keep));
    r
  }

  // ---------------------------------------------------------------------------
  // LIMIT and OFFSET
  // ---------------------------------------------------------------------------

  /** Where an OFFSET starts: a negative offset counts as 0, one past the end as the end. */
  function Skipped(offset: int, n: nat): (k: nat)
    ensures k <= n
  {
    if offset <= 0 then 0 else if offset >= n then n else offset
  }

  /** `LIMIT limit OFFSET offset`; a negative limit means no limit. */
  function Window<T>(rows: seq<T>, limit: int, offset: int): (r: seq<T>)
    ensures limit >= 0 ==> |r| <= limit
    ensures |r| == if limit < 0 || Skipped(offset, |rows|) + limit > |rows| then |rows| - Skipped(offset, |rows|) else limit
    ensures forall i :: 0 <= i < |r| ==> r[i] == rows[Skipped(offset, |rows|) + i]
  {
    var start := Skipped(offset, |rows|);
    var stop := if limit < 0 || start + limit > |rows| then |rows| else start + limit;
    rows[start..stop]
  }

  /** The rows from `lo` up to `hi`, both cut down to the end of `rows`. */
  function Between<T>(rows: seq<T>, lo: nat, hi: nat): seq<T> {
    var a := if lo < |rows| then lo else |rows|;
    var b := if hi < |rows| then hi else |rows|;
    if a <= b then rows[a..b] else []
  }

  /** Pages 1..n of size `size` (offset `(page - 1) * size`), one after another. */
  function Pages<T>(rows: seq<T>, n: nat, size: nat): seq<T> {
    if n == 0 then [] else Pages(rows, n - 1, size) + Window(rows, size, (n - 1) * size)
  }

  /** One more page: `(m + 1) * size` is `m * size + size`. */
  lemma MulSucc(m: nat, size: nat)
    ensures (m + 1) * size == m * size + size
  {
  }

  /** A page at offset `(page - 1) * size` is the stretch between the two page boundaries. */
  lemma WindowIsPage<T>(rows: seq<T>, page: nat, size: nat)
    requires page >= 1
    ensures Window(rows, size, (page - 1) * size) == Between(rows, (page - 1) * size, page * size)
  {
    var lo := (page - 1) * size;
    MulSucc(page - 1, size);
    var hi := lo + size;
    var a := if lo < |rows| then lo else |rows|;
    var b := if hi < |rows| then hi else |rows|;
    assert Skipped(lo, |rows|) == a;
    assert Window(rows, size, lo) == rows[a..b];
  }

  lemma BetweenConcat<T>(rows: seq<T>, a: nat, b: nat, c: nat)
    requires a <= b <= c
    ensures Between(rows, a, b) + Between(rows, b, c) == Between(rows, a, c)
  {
    var x := if a < |rows| then a else |rows|;
    var y := if b < |rows| then b else |rows|;
    var z := if c < |rows| then c else |rows|;
    assert rows[x..y] + rows[y..z] == rows[x..z];
  }

  lemma PageBoundsOrdered(n: nat, size: nat)
    requires n >= 1
    ensures (n - 1) * size <= n * size
  {
    MulSucc(n - 1, size);
  }

  /** Pages 1..n concatenate to the first n * size rows: nothing skipped, nothing repeated. */
  lemma {:induction false} PagesArePrefix<T>(rows: seq<T>, n: nat, size: nat)
    ensures Pages(rows, n, size) == Between(rows, 0, n * size)
  {
    if n > 0 {
      PagesArePrefix(rows, n - 1, size);
      WindowIsPage(rows, n, size);
      PageBoundsOrdered(n, size);
      BetweenConcat(rows, 0, (n - 1) * size, n * size);
    }
  }

  // ---------------------------------------------------------------------------
  // The DAO
  // ---------------------------------------------------------------------------

  /** `ProjectDao` over the `projects` table. */
  class ProjectDao {
    /** The rows, in rowid order. */
    var rows: seq<ProjectEntity>

    ghost predicate Valid()
      reads this
    {
      UniqueIds(rows)
    }

    /** The table, keyed by primary key. */
    ghost function Table(): map<string, ProjectEntity>
      reads this
      requires Valid()
    {
      TableOf(rows)
    }

    constructor ()
      ensures Valid() && rows == []
    {
      rows := [];
    }

    /** `@Upsert insertOrUpdate`: afterwards `id` maps to `project`; every other row is untouched. */
    method InsertOrUpdate(project: ProjectEntity)
      requires Valid()
      modifies this
      ensures Valid()
      ensures rows == Upserted(old(rows), project)
      ensures Table() == old(Table())[project.id := project]
    {
      ghost var before := rows;
      UpsertedUnique(rows, project);
      rows := Upserted(rows, project);
      TableAfterUpsert(before, project);
    }

    /** `@Delete delete`: removes the row whose primary key is `project.id`, if there is one. */
    method Delete(project: ProjectEntity)
      requires Valid()
      modifies this
      ensures Valid()
      ensures rows == Deleted(old(rows), project.id)
      ensures Table() == old(Table()) - {project.id}
    {
      ghost var before := rows;
      rows := Deleted(rows, project.id);
      TableAfterDelete(before, project.id);
    }

    /** `getProjectById`: the current value of the observed row, null (None) when no row has that id. */
    function GetProjectById(id: string): (r: Option<ProjectEntity>)
      reads this
      requires Valid()
      ensures r.Some? <==> id in Table()
      ensures r.Some? ==> r.value == Table()[id]
    {
      FindByIdInTable(rows, id);
      FindById(rows, id)
    }

    /** The table in the queries' order: every row once, latest `creationDate` first. */
    function Ordered(): (r: seq<ProjectEntity>)
      reads this
      ensures multiset(r) == multiset(rows) && |r| == |rows|
      ensures forall e :: e in r <==> e in rows
      ensures SortedByDateDesc(r)
    {
      var r := SortByDateDesc(rows);
      assert forall e :: e in r <==> e in multiset(r);
      assert forall e :: e in rows <==> e in multiset(rows);
      r
    }

    /** `getAllProjects(limit, offset)`: at most `limit` rows of the ordered table, after skipping `offset`. */
    function GetAllProjects(limit: int, offset: int): (r: seq<ProjectEntity>)
      reads this
      ensures limit >= 0 ==> |r| <= limit
      ensures Skipped(offset, |rows|) + |r| <= |rows|
      ensures forall i :: 0 <= i < |r| ==> r[i] == Ordered()[Skipped(offset, |rows|) + i]
      ensures Skipped(offset, |rows|) + |r| == |rows| || |r| == limit
    {
      Window(Ordered(), limit, offset)
    }

    /** The rows `searchProjects` selects, in the queries' order. */
    function Matching(pattern: string): (r: seq<ProjectEntity>)
      reads this
      ensures forall e :: e in r <==> e in rows && MatchesSearch(e, pattern)
      ensures forall e :: multiset(r)[e] == if MatchesSearch(e, pattern) then multiset(rows)[e] else 0
      ensures SelectedAt(r, Ordered(), KeptIndices(Ordered(), SearchTest(pattern)))
      ensures SortedByDateDesc(r)
    {
      FilterMatching(Ordered(), pattern)
    }

    /** `searchProjects(query, limit, offset)`: the same window, over the matching rows only. */
    function SearchProjects(pattern: string, limit: int, offset: int): (r: seq<ProjectEntity>)
      reads this
      ensures r == Window(Matching(pattern), limit, offset)
      ensures forall e :: e in r ==> e in rows && MatchesSearch(e, pattern)
    {
      var m := Matching(pattern);
      var r := Window(m, limit, offset);
      assert forall i :: 0 <= i < |r| ==> r[i] in m;
      r
    }
  }

  lemma FindByIdInTable(rows: seq<ProjectEntity>, id: string)
    requires UniqueIds(rows)
    ensures FindById(rows, id).Some? <==> id in TableOf(rows)
    ensures FindById(rows, id).Some? ==> FindById(rows, id).value == TableOf(rows)[id]
  {
    var r := FindById(rows, id);
    if r.Some? {
      var i :| 0 <= i < |rows| && rows[i] == r.value;
      TableOfAt(rows, i);
    }
  }

  lemma TableAfterUpsert(rows: seq<ProjectEntity>, p: ProjectEntity)
    requires UniqueIds(rows) && UniqueIds(Upserted(rows, p))
    requires forall e :: e in Upserted(rows, p) && e.id == p.id ==> e == p
    ensures TableOf(Upserted(rows, p)) == TableOf(rows)[p.id := p]
  {
    var r := Upserted(rows, p);
    var a, b := TableOf(r), TableOf(rows)[p.id := p];
    forall id | id in a ensures id in b && a[id] == b[id] {
      TableOfEntry(r, id);
      if a[id] != p {
        TableOfIn(rows, a[id]);
      }
    }
    forall id | id in b ensures id in a {
      if id == p.id {
        TableOfIn(r, p);
      } else {
        TableOfEntry(rows, id);
        TableOfIn(r, TableOf(rows)[id]);
      }
    }
  }

  lemma TableAfterDelete(rows: seq<ProjectEntity>, id: string)
    requires UniqueIds(rows)
    ensures TableOf(Deleted(rows, id)) == TableOf(rows) - {id}
  {
    var r := Deleted(rows, id);
    var a, b := TableOf(r), TableOf(rows) - {id};
    forall k | k in a ensures k in b && a[k] == b[k] {
      TableOfEntry(r, k);
      TableOfIn(rows, a[k]);
    }
    forall k | k in b ensures k in a {
      TableOfEntry(rows, k);
      TableOfIn(r, TableOf(rows)[k]);
    }
  }
}
