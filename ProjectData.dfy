/** The project record shown by the UI, and the generator of placeholder projects. */
module ProjectModel {
  import opened Text
  import opened ProjectStatus

  /** `ProjectData`, with the Kotlin defaults: empty texts, no team, COMPLETED. */
  datatype ProjectData = ProjectData(
    id: string := "",
    name: string := "",
    description: string := "",
    status: Status := COMPLETED,
    creationDate: string := "",
    teamMembers: seq<string> := []
  )

  /** `ProjectData()`, the record with every default. */
  function EmptyProject(): (p: ProjectData)
    ensures p.id == "" && p.name == "" && p.description == "" && p.creationDate == ""
    ensures p.status == COMPLETED && p.teamMembers == []
  {
    ProjectData()
  }

  /** The team every placeholder project gets. */
  const DummyTeam: seq<string> := ["Ana", "Luis", "Eva"]

  /** The placeholder for index i; the random status is supplied by the caller. */
  function DummyProject(i: int, status: Status): (p: ProjectData)
    ensures p.id == "proj_" + IntToString(i)
    ensures p.name == "Proyecto Alpha " + IntToString(i + 1)
    ensures p.teamMembers == DummyTeam && p.status == status
  {
    ProjectData(
      id := "proj_" + IntToString(i),
      name := "Proyecto Alpha " + IntToString(i + 1),
      description := "Esta es la descripción del proyecto número " + IntToString(i + 1)
        + ". El objetivo es desarrollar una nueva funcionalidad clave.",
      status := status,
      creationDate := "1" + IntToString(KotlinRem(i, 9) + 1) + "/07/2025",
      teamMembers := DummyTeam
    )
  }

  /** The first index of a page: `(page - 1) * pageSize`. */
  function StartIndex(page: int, pageSize: int): int {
    (page - 1) * pageSize
  }

  /**
   * `generateDummyProjects(page, pageSize)`: one placeholder for every index in
   * `startIndex until startIndex + pageSize`; `randomStatus` stands for the random pick of a status.
   */
  function GenerateDummyProjects(page: int, pageSize: int, randomStatus: int -> Status): (r: seq<ProjectData>)
    ensures |r| == if pageSize > 0 then pageSize else 0
    ensures forall k :: 0 <= k < |r| ==>
      r[k] == DummyProject(StartIndex(page, pageSize) + k, randomStatus(StartIndex(page, pageSize) + k))
  {
    var start := StartIndex(page, pageSize);
    var count := if pageSize > 0 then pageSize else 0;
    seq(count, k requires 0 <= k < count => DummyProject(start + k, randomStatus(start + k)))
  }

  /** The index a placeholder id was made from (ids are `proj_` followed by the index). */
  lemma DummyIdNamesIndex(i: int, j: int, s: Status, t: Status)
    requires DummyProject(i, s).id == DummyProject(j, t).id
    ensures i == j
  {
    var a, b := DummyProject(i, s).id, DummyProject(j, t).id;
    assert a[5..] == IntToString(i) && b[5..] == IntToString(j);
    IntToStringInjective(i, j);
  }

  /** Within a page the ids are pairwise distinct. */
  lemma DummyIdsDistinct(page: int, pageSize: int, randomStatus: int -> Status)
    ensures var r := GenerateDummyProjects(page, pageSize, randomStatus);
      forall k, l :: 0 <= k < l < |r| ==> r[k].id != r[l].id
  {
    var r := GenerateDummyProjects(page, pageSize, randomStatus);
    var start := StartIndex(page, pageSize);
    forall k, l | 0 <= k < l < |r|
      ensures r[k].id != r[l].id
    {
      if r[k].id == r[l].id {
        DummyIdNamesIndex(start + k, start + l, randomStatus(start + k), randomStatus(start + l));
      }
    }
  }

  /** Different pages of one size cover disjoint index ranges. */
  lemma PageIndicesDisjoint(p: int, q: int, pageSize: int, k: int, l: int)
    requires p != q && 0 <= k < pageSize && 0 <= l < pageSize
    ensures StartIndex(p, pageSize) + k != StartIndex(q, pageSize) + l
  {
    var d := if p > q then p - q else q - p;
    assert d >= 1;
    assert d * pageSize >= pageSize by {
      assert d * pageSize == pageSize + (d - 1) * pageSize;
      assert (d - 1) * pageSize >= 0;
    }
    assert StartIndex(p, pageSize) - StartIndex(q, pageSize) == (p - q) * pageSize;
  }

  /** The k-th placeholder of page p and the l-th of page q have different ids. */
  lemma DummyIdsOfDifferentPages(p: int, q: int, pageSize: int, k: int, l: int, s: Status, t: Status)
    requires p != q && 0 <= k < pageSize && 0 <= l < pageSize
    ensures DummyProject(StartIndex(p, pageSize) + k, s).id != DummyProject(StartIndex(q, pageSize) + l, t).id
  {
    var i, j := StartIndex(p, pageSize) + k, StartIndex(q, pageSize) + l;
    PageIndicesDisjoint(p, q, pageSize, k, l);
    if DummyProject(i, s).id == DummyProject(j, t).id {
      DummyIdNamesIndex(i, j, s, t);
    }
  }

  /** Two different pages of the same size share no id. */
  lemma DummyPagesDisjoint(p: int, q: int, pageSize: int, randomStatus: int -> Status)
    requires p != q
    ensures var a, b := GenerateDummyProjects(p, pageSize, randomStatus), GenerateDummyProjects(q, pageSize, randomStatus);
      forall k, l :: 0 <= k < |a| && 0 <= l < |b| ==> a[k].id != b[l].id
  {
    var a, b := GenerateDummyProjects(p, pageSize, randomStatus), GenerateDummyProjects(q, pageSize, randomStatus);
    forall k, l | 0 <= k < |a| && 0 <= l < |b|
      ensures a[k].id != b[l].id
    {
      var i, j := StartIndex(p, pageSize) + k, StartIndex(q, pageSize) + l;
      DummyIdsOfDifferentPages(p, q, pageSize, k, l, randomStatus(i), randomStatus(j));
    }
  }

  /**
   * For a non-negative index the date is "1d/07/2025" with one digit d in 1..9, a day in 11..19;
   * a negative index (page < 1) gets Kotlin's negative remainder instead.
   */
  lemma DummyDateDay(i: int, s: Status)
    requires i >= 0
    ensures var date := DummyProject(i, s).creationDate;
      |date| == 10 && date[0] == '1' && '1' <= date[1] <= '9' && date[2..] == "/07/2025"
  {
    var d := KotlinRem(i, 9) + 1;
    assert 1 <= d <= 9;
    assert IntToString(d) == [DigitChar(d)];
  }

  /** The description names the project's number i + 1, like its name. */
  lemma DummyDescriptionNamesNumber(i: int, s: Status)
    ensures var p := DummyProject(i, s);
      p.description[..43] == "Esta es la descripción del proyecto número "
      && p.description[43..43 + |IntToString(i + 1)|] == IntToString(i + 1)
  {
  }

  /** Page 0 shows the truncating remainder: index -2 gets the date "1-1/07/2025". */
  lemma DummyDateOfNegativeIndex(s: Status)
    ensures DummyProject(-2, s).creationDate == "1-1/07/2025"
  {
    var d := KotlinRem(-2, 9) + 1;
    assert d == -1;
    assert IntToString(d) == "-1" by {
      assert NatToString(1) == [DigitChar(1)];
    }
    assert DummyProject(-2, s).creationDate == "1" + IntToString(d) + "/07/2025";
  }
}
