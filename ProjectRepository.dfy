/**
 * `ProjectRepositoryImpl`: pages of the DAO's queries, converted to `ProjectData`.
 * A team list that the JSON codec cannot decode makes the whole read fail (`Err`), as the
 * exception out of `toProjectData` does.
 */
module Repository {
  import opened Wrappers
  import opened ProjectStatus
  import opened Converters
  import opened ProjectModel
  import opened Dao

  /** The offset of a page: `(page - 1) * pageSize`. */
  function Offset(page: int, pageSize: int): (r: int)
    ensures page == 1 ==> r == 0
    ensures pageSize >= 0 && page >= 1 ==> r >= 0
    ensures r + pageSize == page * pageSize
  {
    (page - 1) * pageSize
  }

  /** The LIKE pattern of a search: the query between two '%'. */
  function SearchPattern(query: string): (r: string)
    ensures |r| == |query| + 2 && r[0] == '%' && r[|r| - 1] == '%' && r[1..|r| - 1] == query
  {
    "%" + query + "%"
  }

  /** A search selects exactly the rows whose name or description contains the query, ignoring ASCII case. */
  lemma SearchIsSubstringMatch(row: ProjectEntity, query: string)
    requires WildcardFree(query)
    ensures MatchesSearch(row, SearchPattern(query))
      <==> ContainsFolded(row.name, query) || ContainsFolded(row.description, query)
  {
    LikeSubstring(row.name, query);
    LikeSubstring(row.description, query);
  }

  /** `toProjectEntity`: the team is encoded, every other field copied. */
  function ToProjectEntity(codec: ListCodec, p: ProjectData): (r: ProjectEntity)
    ensures ToEntityFields(r) == ToProjectEntityFields(p)
    ensures codec.RoundTrips() ==> codec.decode(r.teamMembersJson) == Some(p.teamMembers)
  {
    ProjectEntity(p.id, p.name, p.description, p.status, p.creationDate, codec.encode(p.teamMembers))
  }

  /** `toProjectData`: the team is decoded, every other field copied; a team that does not decode throws. */
  function ToProjectData(codec: ListCodec, e: ProjectEntity): (r: Result<ProjectData>)
    ensures r.Ok? <==> codec.decode(e.teamMembersJson).Some?
    ensures r.Err? ==> r.error == MalformedJson(e.teamMembersJson)
    ensures r.Ok? ==> ToProjectEntityFields(r.value) == ToEntityFields(e)
    ensures r.Ok? ==> codec.decode(e.teamMembersJson) == Some(r.value.teamMembers)
  {
    match codec.decode(e.teamMembersJson)
    case Some(team) =>
      Ok(ProjectData(e.id, e.name, e.description, e.status, e.creationDate, team))
    case None => Err(MalformedJson(e.teamMembersJson))
  }

  /** The fields both records hold unchanged. */
  function ToProjectEntityFields(p: ProjectData): (string, string, string, Status, string) {
    (p.id, p.name, p.description, p.status, p.creationDate)
  }

  function ToEntityFields(e: ProjectEntity): (string, string, string, Status, string) {
    (e.id, e.name, e.description, e.status, e.creationDate)
  }

  /** data -> entity -> data is the identity when decoding inverts encoding. */
  lemma DataRoundTrip(codec: ListCodec, p: ProjectData)
    requires codec.RoundTrips()
    ensures ToProjectData(codec, ToProjectEntity(codec, p)) == Ok(p)
  {
    assert codec.decode(codec.encode(p.teamMembers)) == Some(p.teamMembers);
  }

  /** entity -> data -> entity is the identity when the stored team is what encoding its decoded list yields. */
  lemma EntityRoundTrip(codec: ListCodec, e: ProjectEntity, team: seq<string>)
    requires codec.decode(e.teamMembersJson) == Some(team) && codec.encode(team) == e.teamMembersJson
    ensures ToProjectData(codec, e).Ok? && ToProjectEntity(codec, ToProjectData(codec, e).value) == e
  {
  }

  /** Kotlin's `map { it.toProjectData() }`: one record per row, in row order; the first failure is thrown. */
  function MapRows(codec: ListCodec, rows: seq<ProjectEntity>): (r: Result<seq<ProjectData>>)
    ensures r.Ok? <==> forall i :: 0 <= i < |rows| ==> ToProjectData(codec, rows[i]).Ok?
    ensures r.Ok? ==> |r.value| == |rows|
    ensures r.Ok? ==> forall i :: 0 <= i < |rows| ==> ToProjectData(codec, rows[i]) == Ok(r.value[i])
    ensures r.Err? ==> r.error.MalformedJson?
  {
    if |rows| == 0 then Ok([])
    else
      match ToProjectData(codec, rows[0])
      case Err(e) => Err(e)
      case Ok(p) =>
        var rest := MapRows(codec, rows[1..]);
        assert forall i :: 1 <= i < |rows| ==> rows[i] == rows[1..][i - 1];
        if rest.Err? then Err(rest.error) else Ok([p] + rest.value)
  }

  /** A failed conversion throws the exception of the first row that does not convert. */
  lemma {:induction false} MapRowsFirstFailure(codec: ListCodec, rows: seq<ProjectEntity>, i: nat)
    requires i < |rows| && ToProjectData(codec, rows[i]).Err?
    requires forall j :: 0 <= j < i ==> ToProjectData(codec, rows[j]).Ok?
    ensures MapRows(codec, rows) == Err(ToProjectData(codec, rows[i]).error)
  {
    if i > 0 {
      assert rows[1..][i - 1] == rows[i];
      assert forall j :: 0 <= j < i - 1 ==> rows[1..][j] == rows[j + 1];
      MapRowsFirstFailure(codec, rows[1..], i - 1);
    }
  }

  /** Rows that convert one by one to `out` convert, as a list, to `out`. */
  lemma {:induction false} MapRowsPointwise(codec: ListCodec, rows: seq<ProjectEntity>, out: seq<ProjectData>)
    requires |rows| == |out|
    requires forall i :: 0 <= i < |rows| ==> ToProjectData(codec, rows[i]) == Ok(out[i])
    ensures MapRows(codec, rows) == Ok(out)
  {
    if |rows| > 0 {
      assert forall i :: 0 <= i < |rows| - 1 ==> rows[1..][i] == rows[i + 1] && out[1..][i] == out[i + 1];
      MapRowsPointwise(codec, rows[1..], out[1..]);
      assert out == [out[0]] + out[1..];
    }
  }

  /** Converting a page of rows is taking the same page of the converted rows. */
  lemma MapRowsWindow(codec: ListCodec, rows: seq<ProjectEntity>, limit: int, offset: int)
    requires MapRows(codec, rows).Ok?
    ensures MapRows(codec, Window(rows, limit, offset)) == Ok(Window(MapRows(codec, rows).value, limit, offset))
  {
    var w := Window(rows, limit, offset);
    var all := MapRows(codec, rows).value;
    var start := Skipped(offset, |rows|);
    var wm := Window(all, limit, offset);
    forall i | 0 <= i < |w| ensures ToProjectData(codec, w[i]) == Ok(wm[i]) {
      assert w[i] == rows[start + i] && wm[i] == all[start + i];
    }
    MapRowsPointwise(codec, w, wm);
  }

  /** `ProjectRepositoryImpl` over one DAO and the JSON codec of the team list. */
  class ProjectRepositoryImpl {
    const dao: ProjectDao
    const codec: ListCodec

    constructor (dao: ProjectDao, codec: ListCodec)
      ensures this.dao == dao && this.codec == codec
    {
      this.dao := dao;
      this.codec := codec;
    }

    /** Every project in the queries' order, converted; fails when some stored team does not decode. */
    function AllProjects(): (r: Result<seq<ProjectData>>)
      reads dao
    {
      MapRows(codec, dao.Ordered())
    }

    /** Every project a search for `query` finds, in the queries' order, converted. */
    function FoundProjects(query: string): (r: Result<seq<ProjectData>>)
      reads dao
    {
      MapRows(codec, dao.Matching(SearchPattern(query)))
    }

    /** `getProjects(page, pageSize)`: page `page` of all projects, at most `pageSize` of them. */
    function GetProjects(page: int, pageSize: int): (r: Result<seq<ProjectData>>)
      reads dao
      ensures pageSize >= 0 && r.Ok? ==> |r.value| <= pageSize
      ensures r.Err? ==> r.error.MalformedJson?
      ensures r == MapRows(codec, Window(dao.Ordered(), pageSize, Offset(page, pageSize)))
      ensures AllProjects().Ok? ==> r == Ok(Window(AllProjects().value, pageSize, Offset(page, pageSize)))
    {
      var offset := Offset(page, pageSize);
      var rows := dao.GetAllProjects(pageSize, offset);
      assert rows == Window(dao.Ordered(), pageSize, offset);
      if AllProjects().Ok? then
        MapRowsWindow(codec, dao.Ordered(), pageSize, offset);
        MapRows(codec, rows)
      else
        MapRows(codec, rows)
    }

    /** `searchProjects(query, page, pageSize)`: page `page` of the projects a search for `query` finds. */
    function SearchProjects(query: string, page: int, pageSize: int): (r: Result<seq<ProjectData>>)
      reads dao
      ensures pageSize >= 0 && r.Ok? ==> |r.value| <= pageSize
      ensures r.Err? ==> r.error.MalformedJson?
      ensures r == MapRows(codec, Window(dao.Matching(SearchPattern(query)), pageSize, Offset(page, pageSize)))
      ensures FoundProjects(query).Ok? ==> r == Ok(Window(FoundProjects(query).value, pageSize, Offset(page, pageSize)))
    {
      var offset := Offset(page, pageSize);
      var rows := dao.SearchProjects(SearchPattern(query), pageSize, offset);
      if FoundProjects(query).Ok? then
        MapRowsWindow(codec, dao.Matching(SearchPattern(query)), pageSize, offset);
        MapRows(codec, rows)
      else
        MapRows(codec, rows)
    }

    /**
     * `getProject(id)`, as the value the flow currently holds: `Ok(None)` when no row has that id,
     * the converted row otherwise, `Err` when its team does not decode.
     */
    function GetProject(id: string): (r: Result<Option<ProjectData>>)
      reads dao
      requires dao.Valid()
      ensures r == Ok(None) <==> id !in dao.Table()
      ensures id in dao.Table() ==> match ToProjectData(codec, dao.Table()[id])
        case Ok(p) => r == Ok(Some(p))
        case Err(e) => r == Err(e)
    {
      match dao.GetProjectById(id)
      case None => Ok(None)
      case Some(e) =>
        match ToProjectData(codec, e)
        case Ok(p) => Ok(Some(p))
        case Err(err) => Err(err)
    }

    /** `addProject`: an upsert of the converted record. */
    method AddProject(project: ProjectData)
      requires dao.Valid()
      modifies dao
      ensures dao.Valid()
      ensures dao.rows == Upserted(old(dao.rows), ToProjectEntity(codec, project))
      ensures dao.Table() == old(dao.Table())[project.id := ToProjectEntity(codec, project)]
      ensures codec.RoundTrips() ==> GetProject(project.id) == Ok(Some(project))
    {
      dao.InsertOrUpdate(ToProjectEntity(codec, project));
      if codec.RoundTrips() { DataRoundTrip(codec, project); }
    }

    /** `updateProject`: the same upsert as `addProject`. */
    method UpdateProject(project: ProjectData)
      requires dao.Valid()
      modifies dao
      ensures dao.Valid()
      ensures dao.rows == Upserted(old(dao.rows), ToProjectEntity(codec, project))
      ensures dao.Table() == old(dao.Table())[project.id := ToProjectEntity(codec, project)]
      ensures codec.RoundTrips() ==> GetProject(project.id) == Ok(Some(project))
    {
      dao.InsertOrUpdate(ToProjectEntity(codec, project));
      if codec.RoundTrips() { DataRoundTrip(codec, project); }
    }

    /** `deleteProject`: the row with the project's id goes; the other rows stay as they were. */
    method DeleteProject(project: ProjectData)
      requires dao.Valid()
      modifies dao
      ensures dao.Valid()
      ensures dao.rows == Deleted(old(dao.rows), project.id)
      ensures dao.Table() == old(dao.Table()) - {project.id}
      ensures GetProject(project.id) == Ok(None)
    {
      dao.Delete(ToProjectEntity(codec, project));
    }
  }

  /** After an upsert the row is found by its id, and converts back to the record that was saved. */
  lemma UpsertThenFind(codec: ListCodec, rows: seq<ProjectEntity>, p: ProjectData)
    requires UniqueIds(rows) && codec.RoundTrips()
    ensures var after := Upserted(rows, ToProjectEntity(codec, p));
      FindById(after, p.id).Some? && ToProjectData(codec, FindById(after, p.id).value) == Ok(p)
  {
    var e := ToProjectEntity(codec, p);
    UpsertedUnique(rows, e);
    DataRoundTrip(codec, p);
  }

  /** After a delete no row has that id, and every other row is still there. */
  lemma DeleteThenFind(rows: seq<ProjectEntity>, id: string, other: ProjectEntity)
    requires other in rows && other.id != id
    ensures FindById(Deleted(rows, id), id) == None
    ensures other in Deleted(rows, id)
  {
  }
}
